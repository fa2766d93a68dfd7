/** The reference meaning of a command line: a recursive parser over the list of words.  It has no
    cursor and no hidden state; `Getopt` is proved to report exactly what it lists. */
module OptionSyntax {
  import opened CStrings

  /** How an option is declared. */
  datatype Kind = Unknown | Flag | Required | Optional

  /** What a word `--body` stands for: a table entry, if exactly one is meant, and the text after `=`. */
  datatype LongWord = LongWord(found: Option<Entry>, value: Option<CString>)
  datatype Entry = Entry(index: nat, result: int, stored: Option<(nat, int)>)

  /** A command line and the declarations it is read with.  `decode` is None when words starting with
      `--` have no special meaning, as in runs of `getopt`. */
  datatype Line = Line(argv: seq<CString>, kind: Char -> Kind, quiet: bool,
                       decode: Option<CString -> LongWord>, entryKind: nat -> Kind)

  /** What one call reports: its result, `optarg`, `optopt`, the value written through `longindex`
      and the write through the table entry's `flag`. */
  datatype Event = Event(result: int, arg: Option<CString>, opt: char,
                         index: Option<nat>, stored: Option<(nat, int)>)

  /** A whole run: the reports before end-of-options and the final `optind`. */
  datatype Outcome = Outcome(events: seq<Event>, optind: nat)

  function ShortEvent(result: char, arg: Option<CString>, c: char): Event {
    Event(result as int, arg, c, None, None)
  }

  predicate IsDashDash(w: CString) {
    |w| == 2 && w[0] == '-' && w[1] == '-'
  }

  /** The other words end the options: operands, the lone "-" and "--". */
  predicate IsOptionWord(w: CString) {
    |w| >= 2 && w[0] == '-' && !IsDashDash(w)
  }

  predicate IsLongWord(l: Line, w: CString) {
    l.decode.Some? && |w| >= 3 && w[0] == '-' && w[1] == '-'
  }

  /** One report, and what it uses up: `used` words, or only a part of the current word, of which
      `rest` is left. */
  datatype Step = Step(event: Event, used: nat, rest: CString)

  /** The report for the option character at the head of `text`, a tail of the word `argv[i]`. */
  function ShortStep(l: Line, i: nat, text: CString): Step
    requires i < |l.argv| && text != ""
  {
    var c, more: CString := text[0], text[1..];
    match l.kind(c)
    case Unknown => Step(ShortEvent('?', None, c), if more == "" then 1 else 0, more)
    case Flag => Step(ShortEvent(c, None, c), if more == "" then 1 else 0, more)
    case Optional => Step(ShortEvent(c, if more == "" then None else Some(more), c), 1, "")
    case Required =>
      if more != "" then Step(ShortEvent(c, Some(more), c), 1, "")
      else if i + 1 < |l.argv| then Step(ShortEvent(c, Some(l.argv[i + 1]), c), 2, "")
      else Step(ShortEvent(if l.quiet then ':' else '?', None, c), 2, "")
  }

  /** The report for the long option word `argv[i]`. */
  function LongStep(l: Line, i: nat): Step
    requires i < |l.argv| && IsLongWord(l, l.argv[i])
  {
    var word := l.decode.value(l.argv[i][2..]);
    match word.found
    case None => Step(Event('?' as int, None, '\0', None, None), 1, "")
    case Some(e) =>
      var (r, arg, used) := BindLong(l.argv, i, l.entryKind(e.index), word.value, e.result);
      Step(Event(r, arg, '\0', Some(e.index), e.stored), used, "")
  }

  /** The result, argument and words used of a long option found at word `i` with `=value` or without. */
  function BindLong(argv: seq<CString>, i: nat, kind: Kind, value: Option<CString>, result: int)
    : (int, Option<CString>, nat)
  {
    match kind
    case Flag => (if value.Some? then '?' as int else result, None, 1)
    case Required =>
      if value.Some? then (result, value, 1)
      else if i + 1 < |argv| then (result, Some(argv[i + 1]), 2)
      else (':' as int, None, 2)
    case _ => (result, value, 1)
  }

  /** A place on the command line: word `word`, of which only `text` is left to read if a cluster has
      been begun there (`text` is empty otherwise). */
  datatype Pos = Pos(word: nat, text: CString)

  predicate InRange(l: Line, p: Pos) {
    p.text != "" ==> p.word < |l.argv|
  }

  /** The next report, if the options have not ended at `p`. */
  function NextStep(l: Line, p: Pos): Option<Step>
    requires InRange(l, p)
  {
    if p.text != "" then Some(ShortStep(l, p.word, p.text))
    else if p.word >= |l.argv| || !IsOptionWord(l.argv[p.word]) then None
    else if IsLongWord(l, l.argv[p.word]) then Some(LongStep(l, p.word))
    else Some(ShortStep(l, p.word, l.argv[p.word][1..]))
  }

  function Advance(p: Pos, s: Step): Pos {
    if s.used == 0 then Pos(p.word, s.rest) else Pos(p.word + s.used, "")
  }

  /** The final `optind`: the word `--` is passed over. */
  function EndIndex(l: Line, p: Pos): nat {
    if p.word < |l.argv| && IsDashDash(l.argv[p.word]) then p.word + 1 else p.word
  }

  function WordsLeft(l: Line, p: Pos): nat {
    if p.word < |l.argv| then |l.argv| - p.word else 0
  }

  function CharsLeft(l: Line, p: Pos): nat {
    if p.text != "" then |p.text| else if p.word < |l.argv| then |l.argv[p.word]| else 0
  }

  /** The reference parser: everything reported from `p` on.  Its termination measure is the words
      left, then the characters left in the current word. */
  function Parse(l: Line, p: Pos): Outcome
    requires InRange(l, p)
    decreases WordsLeft(l, p), CharsLeft(l, p)
  {
    match NextStep(l, p)
    case None => Outcome([], EndIndex(l, p))
    case Some(s) =>
      var rest := Parse(l, Advance(p, s));
      Outcome([s.event] + rest.events, rest.optind)
  }

  /** Lexicographically smaller: fewer words, or the same word with fewer characters left. */
  predicate Closer(l: Line, q: Pos, p: Pos) {
    WordsLeft(l, q) < WordsLeft(l, p)
    || (WordsLeft(l, q) == WordsLeft(l, p) && CharsLeft(l, q) < CharsLeft(l, p))
  }

  /** The report of a required argument that is not there, told from what the caller sees. */
  predicate Missing(l: Line, e: Event) {
    e.arg.None? &&
    if e.index.Some? then l.entryKind(e.index.value) == Required
    else e.opt != '\0' && l.kind(e.opt) == Required
  }

  /** A run of calls: from `p` they report exactly `es` and stop at `q`, whether or not more could follow. */
  ghost predicate Runs(l: Line, p: Pos, es: seq<Event>, q: Pos)
    requires InRange(l, p)
    decreases |es|
  {
    if es == [] then p == q
    else
      match NextStep(l, p)
      case None => false
      case Some(s) => s.event == es[0] && Runs(l, Advance(p, s), es[1..], q)
  }

  lemma RunsOne(l: Line, p: Pos, s: Step)
    requires InRange(l, p) && NextStep(l, p) == Some(s)
    ensures InRange(l, Advance(p, s)) && Runs(l, p, [s.event], Advance(p, s))
  {
    assert Runs(l, Advance(p, s), [s.event][1..], Advance(p, s));
  }

  lemma {:induction false} RunsInRange(l: Line, p: Pos, es: seq<Event>, q: Pos)
    requires InRange(l, p) && Runs(l, p, es, q)
    ensures InRange(l, q)
    decreases |es|
  {
    if es != [] {
      RunsInRange(l, Advance(p, NextStep(l, p).value), es[1..], q);
    }
  }

  lemma {:induction false} RunsJoin(l: Line, p: Pos, es: seq<Event>, q: Pos, fs: seq<Event>, r: Pos)
    requires InRange(l, p) && InRange(l, q) && Runs(l, p, es, q) && Runs(l, q, fs, r)
    ensures Runs(l, p, es + fs, r)
    decreases |es|
  {
    if es == [] {
      assert es + fs == fs;
    } else {
      RunsJoin(l, Advance(p, NextStep(l, p).value), es[1..], q, fs, r);
      assert (es + fs)[1..] == es[1..] + fs;
    }
  }

  /** Running to the end of the options is what the reference parser lists. */
  lemma {:induction false} RunsToEnd(l: Line, p: Pos, es: seq<Event>, q: Pos)
    requires InRange(l, p) && InRange(l, q) && Runs(l, p, es, q) && NextStep(l, q) == None
    ensures Parse(l, p) == Outcome(es, EndIndex(l, q))
    decreases |es|
  {
    if es != [] {
      var s := NextStep(l, p).value;
      RunsToEnd(l, Advance(p, s), es[1..], q);
      assert [es[0]] + es[1..] == es;
    }
  }

  lemma {:induction false} ParseRuns(l: Line, p: Pos) returns (q: Pos)
    requires InRange(l, p)
    ensures InRange(l, q) && Runs(l, p, Parse(l, p).events, q) && NextStep(l, q) == None
    ensures Parse(l, p).optind == EndIndex(l, q)
    decreases WordsLeft(l, p), CharsLeft(l, p)
  {
    match NextStep(l, p)
    case None => q := p;
    case Some(s) =>
      q := ParseRuns(l, Advance(p, s));
      assert Parse(l, p).events[1..] == Parse(l, Advance(p, s)).events;
  }

  /** What the reference parser lists begins with the reports of any run and goes on from where it stops. */
  lemma RunsBegin(l: Line, p: Pos, es: seq<Event>, q: Pos)
    requires InRange(l, p) && InRange(l, q) && Runs(l, p, es, q)
    ensures Parse(l, p).events == es + Parse(l, q).events
  {
    var end := ParseRuns(l, q);
    RunsJoin(l, p, es, q, Parse(l, q).events, end);
    RunsToEnd(l, p, es + Parse(l, q).events, end);
  }

  lemma RunsSnoc(l: Line, p: Pos, es: seq<Event>, q: Pos)
    requires InRange(l, p) && InRange(l, q) && Runs(l, p, es, q) && NextStep(l, q).Some?
    ensures Runs(l, p, es + [NextStep(l, q).value.event], Advance(q, NextStep(l, q).value))
  {
    var s := NextStep(l, q).value;
    RunsOne(l, q, s);
    RunsJoin(l, p, es, q, [s.event], Advance(q, s));
  }

  /** Every report brings the end closer in the lexicographic measure. */
  lemma StepCloser(l: Line, p: Pos)
    requires InRange(l, p) && NextStep(l, p).Some?
    ensures InRange(l, Advance(p, NextStep(l, p).value)) && Closer(l, Advance(p, NextStep(l, p).value), p)
  {
  }
}
