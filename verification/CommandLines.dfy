/** Printing command lines, and the round trip with the parser of `OptionSyntax`. */
module CommandLines {
  import opened CStrings
  import opened OptionSyntax

  /** How a word of clustered flags ends: with nothing, an option and its argument in the same word, an
      option whose argument is the next word, or an option whose optional argument is absent. */
  datatype Tail = NoTail
                | Attached(c: Char, arg: CString)
                | Separate(c: Char, arg: CString)
                | Bare(c: Char)

  datatype Cluster = Cluster(flags: CString, tail: Tail)

  function TailText(tail: Tail): CString {
    match tail
    case NoTail => ""
    case Attached(c, arg) => [c] + arg
    case Separate(c, _) => [c]
    case Bare(c) => [c]
  }

  function Words(k: Cluster): (ws: seq<CString>)
    ensures 1 <= |ws| <= 2
  {
    ["-" + k.flags + TailText(k.tail)] + if k.tail.Separate? then [k.tail.arg] else []
  }

  function TailEvents(tail: Tail): seq<Event> {
    match tail
    case NoTail => []
    case Attached(c, arg) => [ShortEvent(c, Some(arg), c)]
    case Separate(c, arg) => [ShortEvent(c, Some(arg), c)]
    case Bare(c) => [ShortEvent(c, None, c)]
  }

  function FlagEvents(flags: CString): (es: seq<Event>)
    ensures |es| == |flags|
  {
    if flags == "" then [] else [ShortEvent(flags[0], None, flags[0])] + FlagEvents(flags[1..])
  }

  function Events(k: Cluster): seq<Event> {
    FlagEvents(k.flags) + TailEvents(k.tail)
  }

  predicate Declared(l: Line, tail: Tail) {
    match tail
    case NoTail => true
    case Attached(c, arg) => arg != "" && l.kind(c) in {Required, Optional}
    case Separate(c, _) => l.kind(c) == Required
    case Bare(c) => l.kind(c) == Optional
  }

  ghost predicate AllFlags(l: Line, flags: CString) {
    forall j :: 0 <= j < |flags| ==> l.kind(flags[j]) == Flag
  }

  /** A word that renders declared options and cannot be read otherwise. */
  ghost predicate Renderable(l: Line, k: Cluster) {
    && AllFlags(l, k.flags)
    && Declared(l, k.tail)
    && IsOptionWord(Words(k)[0])
    && !IsLongWord(l, Words(k)[0])
  }

  function Render(ks: seq<Cluster>): (ws: seq<CString>)
    ensures |ws| >= |ks|
  {
    if ks == [] then [] else Words(ks[0]) + Render(ks[1..])
  }

  function AllEvents(ks: seq<Cluster>): seq<Event> {
    if ks == [] then [] else Events(ks[0]) + AllEvents(ks[1..])
  }

  ghost predicate AllRenderable(l: Line, ks: seq<Cluster>) {
    forall j :: 0 <= j < |ks| ==> Renderable(l, ks[j])
  }

  function Used(tail: Tail): nat {
    if tail.Separate? then 2 else 1
  }

  lemma TailRuns(l: Line, i: nat, tail: Tail)
    requires i < |l.argv| && Declared(l, tail) && !tail.NoTail?
    requires tail.Separate? ==> i + 1 < |l.argv| && l.argv[i + 1] == tail.arg
    ensures Runs(l, Pos(i, TailText(tail)), TailEvents(tail), Pos(i + Used(tail), ""))
  {
    var text := TailText(tail);
    assert tail.Attached? ==> text[1..] == tail.arg;
    RunsOne(l, Pos(i, text), ShortStep(l, i, text));
  }

  lemma {:induction false} FlagsRun(l: Line, i: nat, flags: CString, tail: Tail)
    requires i < |l.argv| && AllFlags(l, flags) && Declared(l, tail) && flags + TailText(tail) != ""
    requires tail.Separate? ==> i + 1 < |l.argv| && l.argv[i + 1] == tail.arg
    ensures Runs(l, Pos(i, flags + TailText(tail)), Events(Cluster(flags, tail)), Pos(i + Used(tail), ""))
    decreases |flags|
  {
    var text: CString := flags + TailText(tail);
    if flags == "" {
      assert text == TailText(tail) && Events(Cluster(flags, tail)) == TailEvents(tail);
      TailRuns(l, i, tail);
    } else {
      var s := ShortStep(l, i, text);
      assert text[0] == flags[0] && text[1..] == flags[1..] + TailText(tail);
      RunsOne(l, Pos(i, text), s);
      if text[1..] != "" {
        FlagsRun(l, i, flags[1..], tail);
        assert [s.event] + Events(Cluster(flags[1..], tail)) == Events(Cluster(flags, tail));
        RunsJoin(l, Pos(i, text), [s.event], Pos(i, text[1..]),
                 Events(Cluster(flags[1..], tail)), Pos(i + Used(tail), ""));
      } else {
        assert Events(Cluster(flags, tail)) == [s.event];
      }
    }
  }

  /** A cluster rendered at word `i` is reported from there. */
  lemma ClusterRuns(l: Line, i: nat, k: Cluster)
    requires Renderable(l, k) && RenderedAt(l, i, Words(k))
    ensures Runs(l, Pos(i, ""), Events(k), Pos(i + |Words(k)|, ""))
  {
    ClusterAt(l, i, k);
    hide Words, TailText;
    FlagsRun(l, i, k.flags, k.tail);
    FirstStep(l, i, Events(k), Pos(i + Used(k.tail), ""));
  }

  lemma ClusterAt(l: Line, i: nat, k: Cluster)
    requires Renderable(l, k) && RenderedAt(l, i, Words(k))
    ensures i < |l.argv| && |Words(k)| == Used(k.tail) && l.argv[i] == Words(k)[0]
    ensures l.argv[i][1..] == k.flags + TailText(k.tail) && k.flags + TailText(k.tail) != ""
    ensures k.tail.Separate? ==> i + 1 < |l.argv| && l.argv[i + 1] == k.tail.arg
  {
    assert l.argv[i + 0] == Words(k)[0] && (k.tail.Separate? ==> l.argv[i + 1] == Words(k)[1]);
  }

  /** Reading a word from its start is reading its text after the dash. */
  lemma FirstStep(l: Line, i: nat, es: seq<Event>, q: Pos)
    requires i < |l.argv| && IsOptionWord(l.argv[i]) && !IsLongWord(l, l.argv[i])
    requires Runs(l, Pos(i, l.argv[i][1..]), es, q) && es != []
    ensures Runs(l, Pos(i, ""), es, q)
  {
    assert NextStep(l, Pos(i, "")) == NextStep(l, Pos(i, l.argv[i][1..]));
  }

  lemma ClusterThen(l: Line, i: nat, k: Cluster, es: seq<Event>, q: Pos)
    requires Renderable(l, k) && RenderedAt(l, i, Words(k))
    requires Runs(l, Pos(i + |Words(k)|, ""), es, q)
    ensures Runs(l, Pos(i, ""), Events(k) + es, q)
  {
    ClusterRuns(l, i, k);
    RunsJoin(l, Pos(i, ""), Events(k), Pos(i + |Words(k)|, ""), es, q);
  }

  lemma {:induction false} ClustersRun(l: Line, i: nat, ks: seq<Cluster>)
    requires AllRenderable(l, ks)
    requires RenderedAt(l, i, Render(ks))
    ensures Runs(l, Pos(i, ""), AllEvents(ks), Pos(i + |Render(ks)|, ""))
    decreases |ks|
  {
    hide NextStep, Words, Events, Renderable;
    if ks == [] {
    } else {
      var k, rest := ks[0], ks[1..];
      RenderedSplit(l, i, Words(k), Render(rest));
      ClustersRun(l, i + |Words(k)|, rest);
      ClusterThen(l, i, k, AllEvents(rest), Pos(i + |Render(ks)|, ""));
    }
  }

  /** The words `ws` stand at index `i` of `argv`. */
  ghost predicate RenderedAt(l: Line, i: nat, ws: seq<CString>) {
    i + |ws| <= |l.argv| && forall j :: 0 <= j < |ws| ==> l.argv[i + j] == ws[j]
  }

  lemma RenderedSplit(l: Line, i: nat, vs: seq<CString>, ws: seq<CString>)
    ensures RenderedAt(l, i, vs + ws) <==> RenderedAt(l, i, vs) && RenderedAt(l, i + |vs|, ws)
  {
    var us := vs + ws;
    assert forall j :: 0 <= j < |vs| ==> us[j] == vs[j];
    assert forall j :: 0 <= j < |ws| ==> us[|vs| + j] == ws[j] && i + (|vs| + j) == i + |vs| + j;
    if RenderedAt(l, i, vs) && RenderedAt(l, i + |vs|, ws) {
      forall j | 0 <= j < |us| ensures l.argv[i + j] == us[j] {
        if j >= |vs| {
          assert l.argv[i + |vs| + (j - |vs|)] == ws[j - |vs|];
        }
      }
    }
  }

  /** Round trip: options rendered in any mix of clusters, attached arguments and next-word arguments
      (which may look like options or be `--`), then `--` and any operands, parse back to themselves with
      `optind` at the first operand. */
  lemma RoundTrip(l: Line, program: CString, ks: seq<Cluster>, operands: seq<CString>)
    requires AllRenderable(l, ks)
    requires l.argv == [program] + Render(ks) + (["--"] + operands)
    ensures Parse(l, Pos(1, "")) == Outcome(AllEvents(ks), |l.argv| - |operands|)
  {
    hide Renderable, Render, AllEvents, Runs;
    Layout(l, program, Render(ks), ["--"] + operands);
    ClustersRun(l, 1, ks);
    RunsToEnd(l, Pos(1, ""), AllEvents(ks), Pos(1 + |Render(ks)|, ""));
  }

  /** The same without `--`, when nothing follows or the first operand is not an option word. */
  lemma RoundTripBare(l: Line, program: CString, ks: seq<Cluster>, operands: seq<CString>)
    requires AllRenderable(l, ks)
    requires l.argv == [program] + Render(ks) + operands
    requires operands == [] || (!IsDashDash(operands[0]) && !IsOptionWord(operands[0]))
    ensures Parse(l, Pos(1, "")) == Outcome(AllEvents(ks), |l.argv| - |operands|)
  {
    hide Renderable, Render, AllEvents, Runs;
    Layout(l, program, Render(ks), operands);
    ClustersRun(l, 1, ks);
    RunsToEnd(l, Pos(1, ""), AllEvents(ks), Pos(1 + |Render(ks)|, ""));
  }

  lemma Layout(l: Line, program: CString, ws: seq<CString>, rest: seq<CString>)
    requires l.argv == [program] + ws + rest
    ensures RenderedAt(l, 1, ws)
    ensures rest != [] ==> l.argv[1 + |ws|] == rest[0]
  {
  }

  ghost predicate Accepted(l: Line, e: Event) {
    e.opt != '\0' && l.kind(e.opt) != Unknown && !Missing(l, e)
  }

  ghost predicate AllAccepted(l: Line, es: seq<Event>) {
    forall j :: 0 <= j < |es| ==> Accepted(l, es[j])
  }

  lemma EventsCons(c: Char, flags: CString, tail: Tail)
    ensures Events(Cluster([c] + flags, tail)) == [ShortEvent(c, None, c)] + Events(Cluster(flags, tail))
  {
    assert ([c] + flags)[1..] == flags;
  }

  /** How the last option of a word is rendered. */
  lemma UnparseTail(l: Line, i: nat, text: CString) returns (tail: Tail)
    requires i < |l.argv| && text != ""
    requires Accepted(l, ShortStep(l, i, text).event) && l.kind(text[0]) != Flag
    ensures Spells(l, i, text, Cluster("", tail))
    ensures Events(Cluster("", tail)) == [ShortStep(l, i, text).event]
    ensures Used(tail) == ShortStep(l, i, text).used
  {
    var c, more: CString := text[0], text[1..];
    assert text == [c] + more;
    tail := if more != "" then Attached(c, more)
            else if l.kind(c) == Optional then Bare(c)
            else Separate(c, l.argv[i + 1]);
  }

  /** `k` renders `text` at word `i`. */
  ghost predicate Spells(l: Line, i: nat, text: CString, k: Cluster) {
    && AllFlags(l, k.flags) && Declared(l, k.tail) && text == k.flags + TailText(k.tail)
    && (k.tail.Separate? ==> i + 1 < |l.argv| && l.argv[i + 1] == k.tail.arg)
  }

  lemma SpellsCons(l: Line, i: nat, c: Char, text: CString, k: Cluster)
    requires Spells(l, i, text, k) && l.kind(c) == Flag
    ensures Spells(l, i, [c] + text, Cluster([c] + k.flags, k.tail))
  {
  }

  /** Reads back how one word renders its options. */
  lemma {:induction false} UnparseWord(l: Line, i: nat, text: CString, es: seq<Event>, q: Pos)
    returns (k: Cluster, rest: seq<Event>)
    requires l.decode == None && i < |l.argv| && text != ""
    requires AllAccepted(l, es) && InRange(l, q) && Runs(l, Pos(i, text), es, q) && NextStep(l, q) == None
    ensures Spells(l, i, text, k)
    ensures es == Events(k) + rest && Runs(l, Pos(i + Used(k.tail), ""), rest, q)
    decreases |text|
  {
    hide Events, Accepted, Spells, IsOptionWord, IsLongWord, LongStep;
    assert es == [es[0]] + es[1..] && Accepted(l, es[0]);
    rest := es[1..];
    if l.kind(text[0]) != Flag {
      var tail := UnparseTail(l, i, text);
      k := Cluster("", tail);
    } else {
      if |text| == 1 {
        k := Cluster("", NoTail);
        UnparseNothing(l, i);
      } else {
        k, rest := UnparseWord(l, i, text[1..], rest, q);
      }
      assert text == [text[0]] + text[1..];
      EventsCons(text[0], k.flags, k.tail);
      SpellsCons(l, i, text[0], text[1..], k);
      k := Cluster([text[0]] + k.flags, k.tail);
    }
  }

  lemma UnparseNothing(l: Line, i: nat)
    ensures Spells(l, i, "", Cluster("", NoTail)) && Events(Cluster("", NoTail)) == []
  {
  }

  lemma UnparseFirst(l: Line, i: nat, es: seq<Event>, q: Pos) returns (k: Cluster, rest: seq<Event>)
    requires l.decode == None && es != []
    requires AllAccepted(l, es) && InRange(l, q) && Runs(l, Pos(i, ""), es, q) && NextStep(l, q) == None
    ensures Renderable(l, k) && RenderedAt(l, i, Words(k))
    ensures es == Events(k) + rest && AllAccepted(l, rest) && Runs(l, Pos(i + |Words(k)|, ""), rest, q)
  {
    hide Events, Accepted, RenderedAt, Words, AllAccepted, Spells, Renderable;
    k, rest := UnparseWord(l, i, l.argv[i][1..], es, q);
    AcceptedTail(l, Events(k), rest);
    WordsAt(l, i, k);
  }

  lemma AcceptedTail(l: Line, fs: seq<Event>, gs: seq<Event>)
    requires AllAccepted(l, fs + gs)
    ensures AllAccepted(l, gs)
  {
    assert forall j :: 0 <= j < |gs| ==> gs[j] == (fs + gs)[|fs| + j];
  }

  lemma WordsAt(l: Line, i: nat, k: Cluster)
    requires l.decode == None && i < |l.argv| && IsOptionWord(l.argv[i]) && Spells(l, i, l.argv[i][1..], k)
    ensures Renderable(l, k) && RenderedAt(l, i, Words(k)) && |Words(k)| == Used(k.tail)
  {
    assert l.argv[i] == "-" + l.argv[i][1..];
    assert Words(k)[0] == l.argv[i];
    assert forall j :: 0 <= j < |Words(k)| ==> l.argv[i + j] == Words(k)[j];
    hide Words, TailText, IsOptionWord;
  }

  /** The converse: a command line on which `getopt` reports no error is the rendering of the options it
      reports, up to the word at which it stops. */
  lemma {:induction false} Unparse(l: Line, i: nat, es: seq<Event>, q: Pos) returns (ks: seq<Cluster>)
    requires l.decode == None && i <= |l.argv|
    requires AllAccepted(l, es) && InRange(l, q) && Runs(l, Pos(i, ""), es, q) && NextStep(l, q) == None
    ensures AllRenderable(l, ks) && AllEvents(ks) == es
    ensures q == Pos(i + |Render(ks)|, "") && RenderedAt(l, i, Render(ks))
    decreases |l.argv| - i
  {
    hide Words, Events, Renderable, Accepted;
    if es == [] {
      ks := [];
    } else {
      var k, es' := UnparseFirst(l, i, es, q);
      var rest := Unparse(l, i + |Words(k)|, es', q);
      ks := [k] + rest;
      assert ks[1..] == rest;
      RenderedSplit(l, i, Words(k), Render(rest));
    }
  }

  lemma NoErrorsMeansRendered(l: Line) returns (ks: seq<Cluster>)
    requires l.decode == None && |l.argv| >= 1
    requires AllAccepted(l, Parse(l, Pos(1, "")).events)
    ensures AllRenderable(l, ks) && AllEvents(ks) == Parse(l, Pos(1, "")).events
    ensures RenderedAt(l, 1, Render(ks)) && NextStep(l, Pos(1 + |Render(ks)|, "")) == None
  {
    var q := ParseRuns(l, Pos(1, ""));
    ks := Unparse(l, 1, Parse(l, Pos(1, "")).events, q);
  }
}
