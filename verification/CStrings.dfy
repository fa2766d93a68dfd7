/** C strings as the option parser sees them: sequences of characters without a NUL, read with the
    terminating NUL one past the last character. */
module CStrings {

  datatype Option<+T> = None | Some(value: T)

  type Char = c: char | c != '\0' witness 'a'
  type CString = seq<Char>

  /** `s[k]` in C, which may also read the terminator. */
  function CharAt(s: CString, k: nat): char
    requires k <= |s|
  {
    if k < |s| then s[k] else '\0'
  }

  /** `strchr`: the position of the first `c`; searching for NUL finds the terminator. */
  function StrChr(s: CString, c: char): (r: Option<nat>)
    ensures r.Some? ==> r.value <= |s| && CharAt(s, r.value) == c && c !in s[..r.value]
    ensures r.None? <==> c !in s && c != '\0'
  {
    if s == "" then (if c == '\0' then Some(0) else None)
    else if s[0] == c then Some(0)
    else
      var tail: CString := s[1..];
      match StrChr(tail, c)
      case None => assert s == [s[0]] + tail; None
      case Some(k) => assert s[..k + 1] == [s[0]] + tail[..k]; Some(k + 1)
  }

  /** Splitting at the first `=`: what `strcspn` and `strchr` see of a long option word. */
  function BeforeEquals(s: CString): (r: CString)
    ensures '=' !in r && r <= s
    ensures r == s <==> '=' !in s
  {
    match StrChr(s, '=')
    case None => s
    case Some(k) => s[..k]
  }

  function AfterEquals(s: CString): (r: Option<CString>)
    ensures r.Some? <==> '=' in s
    ensures r.Some? ==> s == BeforeEquals(s) + "=" + r.value
  {
    match StrChr(s, '=')
    case None => None
    case Some(k) => Some(s[k + 1..])
  }

  /** The split is unique: the name is everything before the first `=`, the value everything after. */
  lemma SplitAtEquals(name: CString, value: CString)
    requires '=' !in name
    ensures BeforeEquals(name + "=" + value) == name
    ensures AfterEquals(name + "=" + value) == Some(value)
  {
    var s: CString := name + "=" + value;
    var k := StrChr(s, '=').value;
    assert s[|name|] == '=';
    assert forall j :: 0 <= j < k ==> s[..k][j] != '=';
    assert s[..k] == name[..k];
  }
}
