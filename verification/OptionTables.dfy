/** What `optstring` and the `longopts` table declare, and how long names are abbreviated. */
module OptionTables {
  import opened CStrings
  import opened OptionSyntax

  // The has_arg values of examples/getopt.h; other values behave as optional_argument.
  const NO_ARGUMENT := 1
  const REQUIRED_ARGUMENT := 2

  /** One entry of the `longopts` table; `flag` names the variable the pointer refers to. */
  datatype LongOption = LongOption(name: CString, hasArg: int, flag: Option<nat>, val: int)

  /** The arguments of a call.  `table` is None in a run of `getopt` calls and the `longopts` table in
      a run of `getopt_long` calls. */
  datatype Args = Args(argv: seq<CString>, optstring: CString, table: Option<seq<LongOption>>)

  function ShortKind(optstring: CString, c: Char): Kind {
    match StrChr(optstring, c)
    case None => Unknown
    case Some(k) =>
      if CharAt(optstring, k + 1) != ':' then Flag
      else if CharAt(optstring, k + 2) != ':' then Required
      else Optional
  }

  function LongKind(hasArg: int): Kind {
    if hasArg == NO_ARGUMENT then Flag
    else if hasArg == REQUIRED_ARGUMENT then Required
    else Optional
  }

  /** `name` abbreviates entry `k` and no other entry. */
  ghost predicate UniqueMatch(table: seq<LongOption>, name: CString, k: nat) {
    k < |table| && name <= table[k].name
    && forall j :: 0 <= j < |table| && name <= table[j].name ==> j == k
  }

  ghost function Resolve(table: seq<LongOption>, name: CString): (r: Option<nat>)
    ensures forall k: nat :: r == Some(k) <==> UniqueMatch(table, name, k)
  {
    if k: nat :| UniqueMatch(table, name, k) then Some(k) else None
  }

  function EntryOf(table: seq<LongOption>, k: nat): Entry
    requires k < |table|
  {
    var o := table[k];
    Entry(k, if o.flag.Some? then 0 else o.val,
          if o.flag.Some? then Some((o.flag.value, o.val)) else None)
  }

  /** The meaning of a word `--body`. */
  ghost function DecodeLong(table: seq<LongOption>, body: CString): LongWord {
    var k := Resolve(table, BeforeEquals(body));
    LongWord(if k.Some? then Some(EntryOf(table, k.value)) else None, AfterEquals(body))
  }

  function KindsOf(optstring: CString): Char -> Kind {
    (c: Char) => ShortKind(optstring, c)
  }

  ghost function DecoderOf(table: seq<LongOption>): CString -> LongWord {
    (body: CString) => DecodeLong(table, body)
  }

  function EntryKindsOf(table: Option<seq<LongOption>>): nat -> Kind {
    (k: nat) => if table.Some? && k < |table.value| then LongKind(table.value[k].hasArg) else Unknown
  }

  /** The command line of a call, read with its declarations. */
  ghost function LineOf(a: Args): Line {
    Line(a.argv, KindsOf(a.optstring), CharAt(a.optstring, 0) == ':',
         if a.table.None? then None else Some(DecoderOf(a.table.value)), EntryKindsOf(a.table))
  }

  /** Once a typed name means one entry, every longer prefix of that entry's name means the same, with the
      same `=value` or none. */
  lemma LongerPrefix(table: seq<LongOption>, name: CString, longer: CString, suffix: CString, k: nat)
    requires UniqueMatch(table, name, k) && name <= longer <= table[k].name && '=' !in longer
    requires suffix == "" || suffix[0] == '='
    ensures UniqueMatch(table, longer, k)
    ensures DecodeLong(table, longer + suffix) == DecodeLong(table, name + suffix)
    ensures DecodeLong(table, name + suffix).found == Some(EntryOf(table, k))
  {
    LongerIsUnique(table, name, longer, k);
    hide UniqueMatch;
    assert '=' !in name by {
      assert forall i :: 0 <= i < |name| ==> name[i] == longer[i];
    }
    if suffix == "" {
      assert longer + suffix == longer && name + suffix == name;
    } else {
      var value: CString := suffix[1..];
      assert suffix == "=" + value;
      assert longer + suffix == longer + "=" + value && name + suffix == name + "=" + value;
      SplitAtEquals(longer, value);
      SplitAtEquals(name, value);
    }
  }

  lemma LongerIsUnique(table: seq<LongOption>, name: CString, longer: CString, k: nat)
    requires UniqueMatch(table, name, k) && name <= longer <= table[k].name
    ensures UniqueMatch(table, longer, k)
  {
    assert forall j :: 0 <= j < |table| && longer <= table[j].name ==> name <= table[j].name;
  }

  /** An exact name is not preferred: it means its entry if and only if no other entry's name extends it or
      repeats it; otherwise it is refused like an unknown one. */
  lemma ExactNames(table: seq<LongOption>, k: nat)
    requires k < |table|
    ensures var name := table[k].name;
      if exists j :: 0 <= j < |table| && j != k && name <= table[j].name
      then Resolve(table, name) == None else Resolve(table, name) == Some(k)
  {
    var name := table[k].name;
    if j :| 0 <= j < |table| && j != k && name <= table[j].name {
      forall i: nat ensures !UniqueMatch(table, name, i) {
        assert name <= table[k].name;
      }
    } else {
      assert UniqueMatch(table, name, k);
    }
  }
}
