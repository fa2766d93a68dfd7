/** What each kind of word is reported as, read off the text of `optstring` and the entries of `longopts`
    themselves: with these results the reports of a whole command line are determined. */
module OptionReports {
  import opened CStrings
  import opened OptionSyntax
  import opened OptionTables
  import opened OptionTheorems

  /** From `p` on, `e` is reported first and the rest as from `q`. */
  ghost predicate ReportsFirst(a: Args, p: Pos, e: Event, q: Pos) {
    var l := LineOf(a);
    && InRange(l, p) && InRange(l, q)
    && Parse(l, p) == Outcome([e] + Parse(l, q).events, Parse(l, q).optind)
  }

  /** `text` is what is left of word `i` at `p`: the rest of a cluster, or a whole word after its dash. */
  ghost predicate Reads(a: Args, p: Pos, i: nat, text: CString) {
    && i < |a.argv| && text != ""
    && (p == Pos(i, text)
        || (p == Pos(i, "") && a.argv[i] == "-" + text && text != "-" && (a.table.None? || text[0] != '-')))
  }

  lemma {:induction false} StrChrFirst(pre: CString, c: Char, post: CString)
    requires c !in pre
    ensures StrChr(pre + [c] + post, c) == Some(|pre|)
  {
    var s: CString := pre + [c] + post;
    if pre == "" {
      assert s[0] == c;
    } else {
      assert s[1..] == pre[1..] + [c] + post;
      StrChrFirst(pre[1..], c, post);
    }
  }

  lemma ReadsStep(a: Args, p: Pos, i: nat, text: CString)
    requires Reads(a, p, i, text)
    ensures InRange(LineOf(a), p) && p.word == i && NextStep(LineOf(a), p) == Some(ShortStep(LineOf(a), i, text))
  {
    if p.text == "" {
      assert a.argv[i][1..] == text;
    }
  }

  lemma FirstThenRest(a: Args, p: Pos, s: Step)
    requires InRange(LineOf(a), p) && NextStep(LineOf(a), p) == Some(s)
    ensures ReportsFirst(a, p, s.event, Advance(p, s))
  {
  }

  /** The kind of a declared character, from the text that follows it. */
  lemma KindFromText(optstring: CString, pre: CString, c: Char, post: CString)
    requires optstring == pre + [c] + post && c !in pre
    ensures ShortKind(optstring, c)
         == if post == "" || post[0] != ':' then Flag
            else if |post| == 1 || post[1] != ':' then Required
            else Optional
  {
    StrChrFirst(pre, c, post);
    var k := |pre|;
    assert k + 1 < |optstring| ==> optstring[k + 1] == post[0];
    assert k + 2 < |optstring| ==> optstring[k + 2] == post[1];
  }

  /** A declared character, `optstring == pre + [c] + post` with `c` first there: without a colon after it, it
      takes no argument; with two, only what is attached; with one, what is attached or else the next word. */
  lemma DeclaredCharacter(a: Args, p: Pos, i: nat, text: CString, pre: CString, post: CString)
    requires Reads(a, p, i, text) && a.optstring == pre + [text[0]] + post && text[0] !in pre
    ensures var c, more: CString := text[0], text[1..];
      if post == "" || post[0] != ':' then
        ReportsFirst(a, p, Event(c as int, None, c, None, None), if more == "" then Pos(i + 1, "") else Pos(i, more))
      else if more != "" then
        ReportsFirst(a, p, Event(c as int, Some(more), c, None, None), Pos(i + 1, ""))
      else if |post| >= 2 && post[1] == ':' then
        ReportsFirst(a, p, Event(c as int, None, c, None, None), Pos(i + 1, ""))
      else if i + 1 < |a.argv| then
        ReportsFirst(a, p, Event(c as int, Some(a.argv[i + 1]), c, None, None), Pos(i + 2, ""))
      else
        ReportsFirst(a, p, Event((if a.optstring[0] == ':' then ':' else '?') as int, None, c, None, None), Pos(i + 2, ""))
  {
    var l := LineOf(a);
    LineFromText(a, pre, text[0], post);
    ReadsStep(a, p, i, text);
    hide LineOf, NextStep, Reads, ReportsFirst, StrChr;
    var s := ShortStep(l, i, text);
    FirstThenRest(a, p, s);
    assert Advance(p, s) == if s.used == 0 then Pos(i, s.rest) else Pos(i + s.used, "");
    hide Advance;
  }

  lemma LineFromText(a: Args, pre: CString, c: Char, post: CString)
    requires a.optstring == pre + [c] + post && c !in pre
    ensures var l := LineOf(a);
      && l.argv == a.argv && l.quiet == (a.optstring[0] == ':')
      && l.kind(c) == if post == "" || post[0] != ':' then Flag
                      else if |post| == 1 || post[1] != ':' then Required
                      else Optional
  {
    KindFromText(a.optstring, pre, c, post);
    hide ShortKind;
  }

  /** A character that is not in `optstring` is an error and takes nothing with it. */
  lemma UndeclaredCharacter(a: Args, p: Pos, i: nat, text: CString)
    requires Reads(a, p, i, text) && text[0] !in a.optstring
    ensures var c, more: CString := text[0], text[1..];
      ReportsFirst(a, p, Event('?' as int, None, c, None, None), if more == "" then Pos(i + 1, "") else Pos(i, more))
  {
    var l := LineOf(a);
    assert l.kind(text[0]) == Unknown;
    ReadsStep(a, p, i, text);
    hide LineOf, NextStep, Reads, ReportsFirst;
    FirstThenRest(a, p, ShortStep(l, i, text));
  }

  /** Where the options end: after the last word, at a word that does not start with a dash, at the lone dash,
      and after `--`. */
  lemma OptionsEnd(a: Args, i: nat)
    ensures var end := Parse(LineOf(a), Pos(i, ""));
      if i >= |a.argv| || a.argv[i] == "" || a.argv[i][0] != '-' || a.argv[i] == "-" then end == Outcome([], i)
      else if a.argv[i] == "--" then end == Outcome([], i + 1)
      else end.events != []
  {
  }

  /** `name` is the start of entry `k`'s name and of no other. */
  ghost predicate MeansOnly(table: seq<LongOption>, name: CString, k: nat) {
    && k < |table| && name != "" && '=' !in name && name <= table[k].name
    && forall j :: 0 <= j < |table| && name <= table[j].name ==> j == k
  }

  lemma MeansDecode(a: Args, i: nat, name: CString, body: CString, k: nat)
    requires a.table.Some? && i < |a.argv| && MeansOnly(a.table.value, name, k)
    requires body != "" && BeforeEquals(body) == name && a.argv[i] == "--" + body
    ensures var l := LineOf(a);
      && IsLongWord(l, a.argv[i]) && NextStep(l, Pos(i, "")) == Some(LongStep(l, i))
      && l.decode.value(a.argv[i][2..]) == LongWord(Some(EntryOf(a.table.value, k)), AfterEquals(body))
      && l.entryKind(k) == LongKind(a.table.value[k].hasArg)
  {
    LongWordShape(body, a.argv[i]);
    assert UniqueMatch(a.table.value, name, k);
  }

  /** `--name` for an entry: `val` is returned, or written through `flag` and 0 returned; has_arg 1 takes no
      argument, 2 the next word, anything else none. */
  lemma LongName(a: Args, i: nat, name: CString, k: nat)
    requires a.table.Some? && i < |a.argv| && MeansOnly(a.table.value, name, k) && a.argv[i] == "--" + name
    ensures var o := a.table.value[k];
      var (r, w) := if o.flag.None? then (o.val, None) else (0, Some((o.flag.value, o.val)));
      if o.hasArg != 2 then
        ReportsFirst(a, Pos(i, ""), Event(r, None, '\0', Some(k), w), Pos(i + 1, ""))
      else if i + 1 < |a.argv| then
        ReportsFirst(a, Pos(i, ""), Event(r, Some(a.argv[i + 1]), '\0', Some(k), w), Pos(i + 2, ""))
      else
        ReportsFirst(a, Pos(i, ""), Event(':' as int, None, '\0', Some(k), w), Pos(i + 2, ""))
  {
    assert BeforeEquals(name) == name && AfterEquals(name) == None;
    MeansDecode(a, i, name, name, k);
    hide NextStep, BeforeEquals, AfterEquals, UniqueMatch, MeansOnly, LineOf, ReportsFirst;
    FirstThenRest(a, Pos(i, ""), LongStep(LineOf(a), i));
  }

  /** `--name=value` for an entry: an error for has_arg 1, which is written through `flag` all the same; the
      argument otherwise. */
  lemma LongNameWithValue(a: Args, i: nat, name: CString, value: CString, k: nat)
    requires a.table.Some? && i < |a.argv| && MeansOnly(a.table.value, name, k)
    requires a.argv[i] == "--" + (name + "=" + value)
    ensures var o := a.table.value[k];
      var (r, w) := if o.flag.None? then (o.val, None) else (0, Some((o.flag.value, o.val)));
      ReportsFirst(a, Pos(i, ""),
                   if o.hasArg == 1 then Event('?' as int, None, '\0', Some(k), w)
                   else Event(r, Some(value), '\0', Some(k), w),
                   Pos(i + 1, ""))
  {
    SplitAtEquals(name, value);
    MeansDecode(a, i, name, name + "=" + value, k);
    hide NextStep, BeforeEquals, AfterEquals, UniqueMatch, MeansOnly, LineOf, ReportsFirst;
    FirstThenRest(a, Pos(i, ""), LongStep(LineOf(a), i));
  }

  /** A long word whose name starts no entry's name, or more than one's, is an error and takes nothing with it. */
  lemma LongNameRefused(a: Args, i: nat, body: CString)
    requires a.table.Some? && i < |a.argv| && body != "" && a.argv[i] == "--" + body
    requires forall k :: 0 <= k < |a.table.value| && BeforeEquals(body) <= a.table.value[k].name ==>
               exists j :: 0 <= j < |a.table.value| && j != k && BeforeEquals(body) <= a.table.value[j].name
    ensures ReportsFirst(a, Pos(i, ""), Event('?' as int, None, '\0', None, None), Pos(i + 1, ""))
  {
    NoUniqueMatch(a.table.value, BeforeEquals(body));
    RefusedWord(a, i, body);
    hide LineOf, NextStep, ReportsFirst, LongStep;
    FirstThenRest(a, Pos(i, ""), LongStep(LineOf(a), i));
  }

  lemma NoUniqueMatch(table: seq<LongOption>, name: CString)
    requires forall k :: 0 <= k < |table| && name <= table[k].name ==>
               exists j :: 0 <= j < |table| && j != k && name <= table[j].name
    ensures Resolve(table, name) == None
  {
    forall k: nat ensures !UniqueMatch(table, name, k) {
      if k < |table| && name <= table[k].name {
        var j :| 0 <= j < |table| && j != k && name <= table[j].name;
      }
    }
  }

  lemma RefusedWord(a: Args, i: nat, body: CString)
    requires a.table.Some? && i < |a.argv| && body != "" && a.argv[i] == "--" + body
    requires Resolve(a.table.value, BeforeEquals(body)) == None
    ensures var l := LineOf(a);
      && IsLongWord(l, a.argv[i]) && NextStep(l, Pos(i, "")) == Some(LongStep(l, i))
      && LongStep(l, i) == Step(Event('?' as int, None, '\0', None, None), 1, "")
  {
    LongWordShape(body, a.argv[i]);
    assert LineOf(a).decode.value(body) == DecodeLong(a.table.value, body);
  }
}
