/** examples/getopt.cpp: the option parser whose state is `optind` and a hidden cursor. */
module Getopt {
  import opened CStrings
  import opened OptionSyntax
  import opened OptionTables

  /** A `char*` into `argv`. */
  datatype Cursor = Null | At(word: nat, off: nat)

  class Parser {
    var optarg: Option<CString>
    var optopt: char  // an int in C; '\0' is 0
    var optind: nat
    var opterr: int
    var optcursor: Cursor
    var flags: map<nat, int>  // the variables that table entries point to

    constructor ()
      ensures optind == 1 && optcursor == Null
    {
      optarg, optopt, optind, opterr, optcursor := None, '\0', 1, 0, Null;
      flags := map[];
    }

    /** The cursor is null, at a terminator, or strictly inside `argv[optind]` past its first option
        character; a word read by cluster is never one that `getopt_long` would take as long. */
    ghost predicate Valid(a: Args)
      reads this
    {
      && |a.argv| >= 1
      && 1 <= optind <= |a.argv| + 1
      && match optcursor
         case Null => true
         case At(w, k) => w < |a.argv| && k <= |a.argv[w]| && (k < |a.argv[w]| ==> InCluster(a, w, k))
    }

    ghost predicate InCluster(a: Args, w: nat, k: nat)
      requires w < |a.argv|
      reads this
    {
      w == optind && 2 <= k < |a.argv[w]| && a.argv[w][0] == '-' && !IsLongWord(LineOf(a), a.argv[w])
    }

    ghost predicate MidWord(a: Args)
      requires Valid(a)
      reads this
    {
      optcursor.At? && optcursor.off < |a.argv[optcursor.word]|
    }

    /** The state without its cursor. */
    ghost function Position(a: Args): (p: Pos)
      requires Valid(a)
      ensures InRange(LineOf(a), p)
      reads this
    {
      Pos(optind, if MidWord(a) then a.argv[optind][optcursor.off..] else "")
    }

    /** The call made at `p` reported the reference parser's next step and moved past it. */
    ghost predicate Took(a: Args, p: Pos, s: Step, r: int, index: Option<nat>, stored: Option<(nat, int)>)
      requires Valid(a)
      reads this
    {
      Event(r, optarg, optopt, index, stored) == s.event && Position(a) == Advance(p, s)
    }

    function Peek(a: Args, p: Cursor): char
      requires p.At? && p.word < |a.argv| && p.off <= |a.argv[p.word]|
    {
      CharAt(a.argv[p.word], p.off)
    }

    method GetOpt(a: Args) returns (r: int)
      requires Valid(a)
      requires optind < |a.argv| ==> !IsLongWord(LineOf(a), a.argv[optind])
      modifies `optarg, `optopt, `optind, `opterr, `optcursor
      ensures Valid(a)
      ensures match NextStep(LineOf(a), old(Position(a)))
              case None =>
                r == -1 && optarg == None && optopt == '\0'
                && Position(a) == Pos(EndIndex(LineOf(a), old(Position(a))), "")
              case Some(s) => r >= 0 && Took(a, old(Position(a)), s, r, None, None)
      ensures opterr == 0
    {
      optarg, opterr, optopt := None, 0, '\0';
      if optind >= |a.argv| {
        optcursor := Null;
        return -1;
      }
      if CharAt(a.argv[optind], 0) != '-' {
        optcursor := Null;
        return -1;
      }
      if a.argv[optind] == "-" {
        optcursor := Null;
        return -1;
      }
      if a.argv[optind] == "--" {
        optind := optind + 1;
        optcursor := Null;
        return -1;
      }
      if optcursor == Null || Peek(a, optcursor) == '\0' {
        optcursor := At(optind, 1);
      }
      r := TakeOption(a);
    }

    /** Reads the option character under the cursor. */
    method TakeOption(a: Args) returns (r: int)
      requires optcursor.At? && optcursor.word == optind && 1 <= optind < |a.argv|
      requires 1 <= optcursor.off < |a.argv[optind]|
      requires IsOptionWord(a.argv[optind]) && !IsLongWord(LineOf(a), a.argv[optind])
      requires optarg == None
      modifies `optarg, `optopt, `optind, `optcursor
      ensures Valid(a)
      ensures r >= 0
      ensures var text := old(a.argv[optind][optcursor.off..]);
        Took(a, Pos(old(optind), text), ShortStep(LineOf(a), old(optind), text), r, None, None)
    {
      ghost var i, k := optind, optcursor.off;
      assert a.argv[i][k..][1..] == a.argv[i][k + 1..];
      var optchar := Peek(a, optcursor);
      r := optchar as int;
      optopt := optchar;
      var optdecl := StrChr(a.optstring, optchar);
      if optdecl.Some? {
        if CharAt(a.optstring, optdecl.value + 1) == ':' {
          var missing := BindArgument(a, CharAt(a.optstring, optdecl.value + 2) == ':');
          if missing {
            r := (if CharAt(a.optstring, 0) == ':' then ':' else '?') as int;
          }
        }
      } else {
        r := '?' as int;
      }
      if optcursor == Null {
        optind := optind + 1;
      } else {
        optcursor := optcursor.(off := optcursor.off + 1);
        if Peek(a, optcursor) == '\0' {
          optind := optind + 1;
        }
      }
    }

    /** The argument of the option under the cursor: the text after it, or the next word, which is
        passed over; an optional argument must be in the same word. */
    method BindArgument(a: Args, optional: bool) returns (missing: bool)
      requires optcursor.At? && optcursor.word == optind < |a.argv|
      requires optcursor.off < |a.argv[optind]|
      modifies `optarg, `optind, `optcursor
      ensures optcursor == Null
      ensures var text := old(a.argv[optind][optcursor.off + 1..]);
        if text != "" then !missing && optarg == Some(text) && optind == old(optind)
        else if optional then !missing && optarg == None && optind == old(optind)
        else (optind == old(optind) + 1 && missing == (optind == |a.argv|)
              && optarg == if missing then None else Some(a.argv[optind]))
    {
      optcursor := optcursor.(off := optcursor.off + 1);
      optarg := Some(a.argv[optcursor.word][optcursor.off..]);
      missing := false;
      if Peek(a, optcursor) == '\0' {
        if !optional {
          optind := optind + 1;
          if optind < |a.argv| {
            optarg := Some(a.argv[optind]);
          } else {
            optarg := None;
            missing := true;
          }
        } else {
          optarg := None;
        }
      }
      optcursor := Null;
    }

    /** `longindex` is the out-parameter `index`, None when nothing is written through it. */
    method GetOptLong(a: Args) returns (r: int, index: Option<nat>)
      requires Valid(a) && a.table.Some?
      modifies this
      ensures Valid(a)
      ensures match NextStep(LineOf(a), old(Position(a)))
              case None =>
                r == -1 && index == None && flags == old(flags) && optarg == None && optopt == '\0'
                && Position(a) == Pos(EndIndex(LineOf(a), old(Position(a))), "")
              case Some(s) =>
                Took(a, old(Position(a)), s, r, index, s.event.stored) && Stored(old(flags), s.event.stored)
    {
      optarg, optopt, index := None, '\0', None;
      if optind >= |a.argv| {
        return -1, None;
      }
      if |a.argv[optind]| < 3 || a.argv[optind][..2] != "--" {
        r := GetOpt(a);
        return;
      }
      r, index := TakeLong(a);
    }

    /** Reads a word that starts with `--` and is longer than that. */
    method TakeLong(a: Args) returns (r: int, index: Option<nat>)
      requires Valid(a) && optind < |a.argv| && IsLongWord(LineOf(a), a.argv[optind])
      requires optarg == None && optopt == '\0'
      modifies `optarg, `optind, `flags
      ensures Valid(a)
      ensures var s := LongStep(LineOf(a), old(optind));
        Took(a, Pos(old(optind), ""), s, r, index, s.event.stored) && Stored(old(flags), s.event.stored)
    {
      index := None;
      var current: CString := a.argv[optind][2..];
      var match_, numMatches := FindMatches(a.table.value, BeforeEquals(current));
      if numMatches == 1 {
        index := Some(match_);
        var o := a.table.value[match_];
        if o.flag.Some? {
          flags := flags[o.flag.value := o.val];
        }
        r := if o.flag.Some? then 0 else o.val;
        r := BindLongArgument(a, o, current, r);
      } else {
        r := '?' as int;
      }
      optind := optind + 1;
    }

    method BindLongArgument(a: Args, o: LongOption, current: CString, retval: int) returns (r: int)
      requires optarg == None && optind < |a.argv|
      modifies `optarg, `optind
      ensures optind >= old(optind)
      ensures (r, optarg, optind + 1 - old(optind))
           == BindLong(a.argv, old(optind), LongKind(o.hasArg), AfterEquals(current), retval)
    {
      r := retval;
      if o.hasArg != NO_ARGUMENT {
        optarg := AfterEquals(current);
        if o.hasArg == REQUIRED_ARGUMENT {
          if optarg == None {
            optind := optind + 1;
            if optind < |a.argv| {
              optarg := Some(a.argv[optind]);
            }
          }
          if optarg == None {
            r := ':' as int;
          }
        }
      } else if AfterEquals(current).Some? {
        r := '?' as int;
      }
    }

    ghost predicate Stored(before: map<nat, int>, stored: Option<(nat, int)>)
      reads this
    {
      flags == match stored case None => before case Some((flag, val)) => before[flag := val]
    }
  }

  /** The lookup loop of `getopt_long`: it accepts exactly when one entry has `name` as a prefix. */
  method FindMatches(table: seq<LongOption>, name: CString) returns (match_: nat, numMatches: nat)
    ensures numMatches == |set j | 0 <= j < |table| && name <= table[j].name|
    ensures numMatches == 1 ==> Resolve(table, name) == Some(match_)
    ensures numMatches != 1 ==> Resolve(table, name) == None
    ensures numMatches > 0 ==> match_ < |table|
  {
    match_, numMatches := 0, 0;
    ghost var seen := {};
    for i := 0 to |table|
      invariant seen == set j | 0 <= j < i && name <= table[j].name
      invariant numMatches == |seen|
      invariant numMatches > 0 ==> match_ in seen
    {
      if name <= table[i].name {
        match_, numMatches := i, numMatches + 1;
        seen := seen + {i};
      }
    }
    assert seen == set j | 0 <= j < |table| && name <= table[j].name;
    ResolveCounts(table, name, seen, match_);
  }

  lemma ResolveCounts(table: seq<LongOption>, name: CString, seen: set<int>, k: nat)
    requires seen == set j | 0 <= j < |table| && name <= table[j].name
    requires seen != {} ==> k in seen
    ensures |seen| == 1 <==> UniqueMatch(table, name, k)
    ensures |seen| == 1 ==> Resolve(table, name) == Some(k)
    ensures |seen| != 1 ==> Resolve(table, name) == None
  {
    if seen != {} {
      assert |seen| == 1 + |seen - {k}|;
      assert |seen| == 1 <==> seen - {k} == {};
      forall j: nat | UniqueMatch(table, name, j) ensures j == k {
        assert k in seen;
      }
      assert seen - {k} == {} <==> forall j :: j in seen ==> j == k by {
        assert forall j :: j in seen - {k} <==> j in seen && j != k;
      }
      assert forall j: nat :: j in seen <==> j < |table| && name <= table[j].name;
    } else {
      forall j: nat ensures !UniqueMatch(table, name, j) {
        assert j !in seen;
      }
    }
  }

  /** The driver loop of the programs (`while ((arg = getopt(...)) != EOF)`), which leaves early at a result in
      `exits`, as the programs do at `?`: it reads what the reference parser lists, up to and including the
      first such result; without one, all of it, and ends with the reference parser's `optind`. */
  method ParseAll(a: Args, parser: Parser, exits: set<int>) returns (events: seq<Event>, exited: bool)
    requires parser.Valid(a) && a.table.None?
    modifies parser
    ensures parser.Valid(a)
    ensures events <= Parse(LineOf(a), old(parser.Position(a))).events
    ensures !exited ==>
              && Outcome(events, parser.optind) == Parse(LineOf(a), old(parser.Position(a)))
              && forall j :: 0 <= j < |events| ==> events[j].result !in exits
    ensures exited ==>
              && events != [] && events[|events| - 1].result in exits
              && forall j :: 0 <= j < |events| - 1 ==> events[j].result !in exits
  {
    events, exited := [], false;
    ghost var l, start := LineOf(a), parser.Position(a);
    ghost var p := start;
    while true
      invariant parser.Valid(a) && p == parser.Position(a)
      invariant Runs(l, start, events, p)
      invariant forall j :: 0 <= j < |events| ==> events[j].result !in exits
      decreases WordsLeft(l, p), CharsLeft(l, p)
    {
      hide Parse, Runs, LineOf;
      var r := parser.GetOpt(a);
      if r == -1 {
        RunsToEnd(l, start, events, p);
        return;
      }
      var e := Event(r, parser.optarg, parser.optopt, None, None);
      StepCloser(l, p);
      RunsSnoc(l, start, events, p);
      events := events + [e];
      p := parser.Position(a);
      if r in exits {
        RunsBegin(l, start, events, p);
        return events, true;
      }
    }
  }

  /** The writes through the `flag` pointers of the reported entries. */
  function Writes(flags: map<nat, int>, events: seq<Event>): map<nat, int> {
    if events == [] then flags
    else
      var e, before := events[|events| - 1], Writes(flags, events[..|events| - 1]);
      match e.stored case None => before case Some((flag, val)) => before[flag := val]
  }

  lemma WritesSnoc(flags: map<nat, int>, events: seq<Event>, e: Event)
    ensures Writes(flags, events + [e])
         == match e.stored case None => Writes(flags, events) case Some((flag, val)) => Writes(flags, events)[flag := val]
  {
    assert (events + [e])[..|events|] == events;
  }

  /** What one call of `getopt_long` reports, from what its caller sees. */
  function Reported(table: seq<LongOption>, r: int, arg: Option<CString>, opt: char, index: Option<nat>): Event {
    Event(r, arg, opt, index,
          if index.Some? && index.value < |table| then EntryOf(table, index.value).stored else None)
  }

  predicate IsSeen(table: seq<LongOption>, e: Event) {
    e == Reported(table, e.result, e.arg, e.opt, e.index) && (e.result == -1 ==> e.stored == None)
  }

  lemma ShortIsSeen(l: Line, i: nat, text: CString, table: seq<LongOption>)
    requires i < |l.argv| && text != ""
    ensures IsSeen(table, ShortStep(l, i, text).event)
  {
  }

  lemma LongIsSeen(a: Args, i: nat)
    requires a.table.Some? && i < |a.argv| && IsLongWord(LineOf(a), a.argv[i])
    ensures IsSeen(a.table.value, LongStep(LineOf(a), i).event)
  {
    hide BeforeEquals, AfterEquals;
    var table := a.table.value;
    var body: CString := a.argv[i][2..];
    assert LineOf(a).decode.value(body) == DecodeLong(table, body);
    var k := Resolve(table, BeforeEquals(body));
    assert k.Some? ==> k.value < |table| by {
      assert k.Some? ==> UniqueMatch(table, BeforeEquals(body), k.value);
    }
  }

  /** The caller sees everything of a report; a report of -1 is of an entry without `flag` and writes nothing. */
  lemma StepIsSeen(a: Args, p: Pos)
    requires a.table.Some? && InRange(LineOf(a), p) && NextStep(LineOf(a), p).Some?
    ensures IsSeen(a.table.value, NextStep(LineOf(a), p).value.event)
  {
    var l, table := LineOf(a), a.table.value;
    hide LineOf, IsSeen, ShortStep, LongStep;
    if p.text != "" {
      ShortIsSeen(l, p.word, p.text, table);
    } else if IsLongWord(l, l.argv[p.word]) {
      LongIsSeen(a, p.word);
    } else {
      ShortIsSeen(l, p.word, l.argv[p.word][1..], table);
    }
  }

  /** A loop that calls `getopt_long` until it returns -1.  It reads what the reference parser lists, up to the
      first report whose result is -1 (a table entry with that `val`); without one, all of it, with the
      reference parser's `optind`; and the writes through `flag` are those of the reports. */
  method ParseAllLong(a: Args, parser: Parser) returns (events: seq<Event>)
    requires parser.Valid(a) && a.table.Some?
    modifies parser
    ensures parser.Valid(a)
    ensures var all := Parse(LineOf(a), old(parser.Position(a)));
      && events <= all.events
      && (forall j :: 0 <= j < |events| ==> events[j].result != -1)
      && (if |events| == |all.events| then parser.optind == all.optind else all.events[|events|].result == -1)
    ensures parser.flags == Writes(old(parser.flags), events)
  {
    events := [];
    ghost var l, start, flags0 := LineOf(a), parser.Position(a), parser.flags;
    ghost var p := start;
    while true
      invariant parser.Valid(a) && p == parser.Position(a)
      invariant Runs(l, start, events, p) && parser.flags == Writes(flags0, events)
      invariant forall j :: 0 <= j < |events| ==> events[j].result != -1
      decreases WordsLeft(l, p), CharsLeft(l, p)
    {
      hide Parse, Runs, LineOf, Writes, Reported;
      var r, index := parser.GetOptLong(a);
      var e := Reported(a.table.value, r, parser.optarg, parser.optopt, index);
      if NextStep(l, p).Some? {
        StepIsSeen(a, p);
        StepCloser(l, p);
        RunsSnoc(l, start, events, p);
        RunsBegin(l, start, events + [e], Advance(p, NextStep(l, p).value));
        WritesSnoc(flags0, events, e);
      } else {
        RunsToEnd(l, start, events, p);
      }
      if r == -1 {
        return;
      }
      events := events + [e];
      p := parser.Position(a);
    }
  }
}
