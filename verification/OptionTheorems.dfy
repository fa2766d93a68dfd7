/** Properties of every run of the option parser, stated on the reference parser it is proved equal to. */
module OptionTheorems {
  import opened CStrings
  import opened OptionSyntax
  import opened OptionTables

  /** The characters of `argv[i..]`. */
  function TotalChars(argv: seq<CString>, i: nat): nat
    decreases |argv| - i
  {
    if i >= |argv| then 0 else |argv[i]| + TotalChars(argv, i + 1)
  }

  function Budget(l: Line, p: Pos): nat {
    if p.text != "" then |p.text| + TotalChars(l.argv, p.word + 1) else TotalChars(l.argv, p.word)
  }

  lemma StepBudget(l: Line, p: Pos)
    requires InRange(l, p) && NextStep(l, p).Some?
    ensures Budget(l, Advance(p, NextStep(l, p).value)) < Budget(l, p)
  {
    var i := p.word;
    assert TotalChars(l.argv, i) == |l.argv[i]| + TotalChars(l.argv, i + 1);
    assert TotalChars(l.argv, i + 2) <= TotalChars(l.argv, i + 1);
  }

  /** Termination bound: a run makes at most one call per character of the words it reads; from the
      initial state, at most as many as there are characters in `argv[1..]`. */
  lemma {:induction false} RunsBound(l: Line, p: Pos, es: seq<Event>, q: Pos)
    requires InRange(l, p) && Runs(l, p, es, q)
    ensures |es| + Budget(l, q) <= Budget(l, p)
    decreases |es|
  {
    if es != [] {
      StepBudget(l, p);
      RunsBound(l, Advance(p, NextStep(l, p).value), es[1..], q);
    }
  }

  lemma StepIndex(l: Line, p: Pos)
    requires InRange(l, p) && NextStep(l, p).Some?
    ensures var s := NextStep(l, p).value;
      p.word <= Advance(p, s).word <= |l.argv| + 1
      && (Advance(p, s).word == |l.argv| + 1 <==> Missing(l, s.event))
  {
  }

  /** Index bound: `optind` never decreases and never passes argc + 1, which it reaches exactly in the
      runs that have reported a missing required argument; nothing is reported after that. */
  lemma {:induction false} RunsIndex(l: Line, p: Pos, es: seq<Event>, q: Pos)
    requires InRange(l, p) && p.word <= |l.argv| && Runs(l, p, es, q)
    ensures p.word <= q.word <= |l.argv| + 1
    ensures q.word == |l.argv| + 1 <==> exists j :: 0 <= j < |es| && Missing(l, es[j])
    ensures forall j :: 0 <= j < |es| - 1 ==> !Missing(l, es[j])
    decreases |es|
  {
    if es != [] {
      var p' := Advance(p, NextStep(l, p).value);
      StepIndex(l, p);
      if p'.word == |l.argv| + 1 {
        assert NextStep(l, p') == None;
        assert |es| == 1 && Missing(l, es[0]);
      } else {
        RunsIndex(l, p', es[1..], q);
        assert forall j :: 0 <= j < |es| - 1 ==> es[j + 1] == es[1..][j];
        if j :| 0 <= j < |es| && Missing(l, es[j]) {
          assert es[1..][j - 1] == es[j];
        }
      }
    }
  }

  /** What a missing argument is reported as: `:` by `getopt_long` for a long option whatever `optstring`
      begins with, and for a short one `:` if `optstring` begins with a colon and `?` otherwise. */
  lemma {:induction false} MissingResults(l: Line, p: Pos, es: seq<Event>, q: Pos, j: nat)
    requires InRange(l, p) && Runs(l, p, es, q) && j < |es| && Missing(l, es[j])
    ensures es[j].result == (if es[j].index.Some? || l.quiet then ':' else '?') as int
    decreases |es|
  {
    if j > 0 {
      MissingResults(l, Advance(p, NextStep(l, p).value), es[1..], q, j - 1);
    }
  }

  /** Two command lines read with the same declarations that agree from words `i` and `j` on. */
  ghost predicate SameFrom(l: Line, i: nat, m: Line, j: nat) {
    && l.kind == m.kind && l.quiet == m.quiet && l.decode == m.decode && l.entryKind == m.entryKind
    && |l.argv| - i == |m.argv| - j
    && forall k :: i <= k < |l.argv| ==> l.argv[k] == m.argv[k - i + j]
  }

  lemma SameStep(l: Line, p: Pos, m: Line, q: Pos)
    requires InRange(l, p) && InRange(m, q)
    requires SameFrom(l, p.word, m, q.word) && p.text == q.text
    ensures NextStep(l, p) == NextStep(m, q)
    ensures EndIndex(l, p) - p.word == EndIndex(m, q) - q.word
  {
  }

  /** What is reported depends only on the words not yet used. */
  lemma {:induction false} SameParse(l: Line, p: Pos, m: Line, q: Pos)
    requires InRange(l, p) && InRange(m, q)
    requires SameFrom(l, p.word, m, q.word) && p.text == q.text
    ensures Parse(l, p).events == Parse(m, q).events
    ensures Parse(l, p).optind - p.word == Parse(m, q).optind - q.word
    decreases WordsLeft(l, p), CharsLeft(l, p)
  {
    SameStep(l, p, m, q);
    if NextStep(l, p).Some? {
      var s := NextStep(l, p).value;
      SameParse(l, Advance(p, s), m, Advance(q, s));
    }
  }

  /** The two ways of giving a long option its required argument report the same. */
  lemma LongFormSteps(a: Args, b: Args, i: nat, j: nat, name: CString, value: CString, k: nat)
    requires a.table.Some? && b.table == a.table && UniqueMatch(a.table.value, name, k)
    requires name != "" && '=' !in name && LongKind(a.table.value[k].hasArg) == Required
    requires i < |a.argv| && a.argv[i] == "--" + name + "=" + value
    requires j + 1 < |b.argv| && b.argv[j] == "--" + name && b.argv[j + 1] == value
    ensures var l, m := LineOf(a), LineOf(b);
      && IsLongWord(l, a.argv[i]) && IsLongWord(m, b.argv[j])
      && LongStep(l, i).event == LongStep(m, j).event && LongStep(l, i).event.arg == Some(value)
      && LongStep(l, i).used == 1 && LongStep(m, j).used == 2
  {
    assert a.argv[i] == "--" + (name + "=" + value);
    LongWordShape(name + "=" + value, a.argv[i]);
    LongWordShape(name, b.argv[j]);
    SplitAtEquals(name, value);
    assert BeforeEquals(name) == name && AfterEquals(name) == None;
    hide BeforeEquals, AfterEquals, UniqueMatch, KindsOf;
  }

  /** Long forms: for a required-argument entry, `--name=value` and `--name value` give the same reports
      for every value and every rest of the line, with the final `optind` differing by one. */
  lemma LongForms(a: Args, b: Args, i: nat, name: CString, value: CString, k: nat)
    requires a.table.Some? && UniqueMatch(a.table.value, name, k) && name != "" && '=' !in name
    requires LongKind(a.table.value[k].hasArg) == Required
    requires i < |a.argv| && a.argv[i] == "--" + name + "=" + value
    requires b == a.(argv := a.argv[..i] + ["--" + name, value] + a.argv[i + 1..])
    ensures var l, m := LineOf(a), LineOf(b);
      && Parse(l, Pos(i, "")).events != [] && Parse(l, Pos(i, "")).events[0].arg == Some(value)
      && Parse(m, Pos(i, "")).events == Parse(l, Pos(i, "")).events
      && Parse(m, Pos(i, "")).optind == Parse(l, Pos(i, "")).optind + 1
  {
    var l, m := LineOf(a), LineOf(b);
    hide UniqueMatch, LongKind, SameFrom;
    LongFormSteps(a, b, i, i, name, value, k);
    assert SameFrom(l, i + 1, m, i + 2) by {
      SameAfterSplit(l, m, i, b.argv[i], value);
    }
    hide LineOf;
    SameParse(l, Pos(i + 1, ""), m, Pos(i + 2, ""));
  }

  lemma SameAfterSplit(l: Line, m: Line, i: nat, v: CString, w: CString)
    requires i < |l.argv| && m == l.(argv := l.argv[..i] + [v, w] + l.argv[i + 1..])
    ensures SameFrom(l, i + 1, m, i + 2)
  {
  }

  lemma LongWordShape(body: CString, w: CString)
    requires body != "" && w == "--" + body
    ensures |w| >= 3 && w[0] == '-' && w[1] == '-' && w[2..] == body
  {
  }

  /** A long word may be replaced by another that means the same. */
  lemma SameMeaning(l: Line, m: Line, i: nat, w: CString)
    requires i < |l.argv| && m == l.(argv := l.argv[i := w]) && IsLongWord(l, l.argv[i]) && IsLongWord(m, w)
    requires l.decode.value(l.argv[i][2..]) == l.decode.value(w[2..])
    ensures LongStep(l, i) == LongStep(m, i) && NextStep(l, Pos(i, "")) == NextStep(m, Pos(i, "")) == Some(LongStep(l, i))
    ensures Parse(m, Pos(i, "")) == Parse(l, Pos(i, "")) && Parse(l, Pos(i, "")).events != []
    ensures Parse(l, Pos(i, "")).events[0] == LongStep(l, i).event
  {
    var j := i + LongStep(l, i).used;
    assert SameFrom(l, j, m, j);
    hide LongStep, SameFrom;
    SameParse(l, Pos(j, ""), m, Pos(j, ""));
  }

  lemma SameMeaningInTable(a: Args, b: Args, i: nat, body: CString, body': CString, k: nat)
    requires a.table.Some? && k < |a.table.value| && body != "" && body' != ""
    requires DecodeLong(a.table.value, body) == DecodeLong(a.table.value, body')
    requires DecodeLong(a.table.value, body).found == Some(EntryOf(a.table.value, k))
    requires i < |a.argv| && a.argv[i] == "--" + body && b == a.(argv := a.argv[i := "--" + body'])
    ensures var l, m := LineOf(a), LineOf(b);
      && Parse(m, Pos(i, "")) == Parse(l, Pos(i, ""))
      && Parse(l, Pos(i, "")).events != [] && Parse(l, Pos(i, "")).events[0].index == Some(k)
  {
    LongWordShape(body, a.argv[i]);
    LongWordShape(body', b.argv[i]);
    hide DecodeLong, Parse;
    SameMeaning(LineOf(a), LineOf(b), i, b.argv[i]);
  }

  /** Abbreviation: once a typed name means one entry, typing any longer prefix of the entry's name, with the
      same `=value` or none, gives the same reports and the same final `optind`, whatever follows. */
  lemma Abbreviation(a: Args, b: Args, i: nat, name: CString, longer: CString, suffix: CString, k: nat)
    requires a.table.Some? && UniqueMatch(a.table.value, name, k)
    requires name <= longer <= a.table.value[k].name && '=' !in longer
    requires (suffix == "" || suffix[0] == '=') && name + suffix != ""
    requires i < |a.argv| && a.argv[i] == "--" + (name + suffix)
    requires b == a.(argv := a.argv[i := "--" + (longer + suffix)])
    ensures var l, m := LineOf(a), LineOf(b);
      && Parse(m, Pos(i, "")) == Parse(l, Pos(i, ""))
      && Parse(l, Pos(i, "")).events != [] && Parse(l, Pos(i, "")).events[0].index == Some(k)
  {
    LongerPrefix(a.table.value, name, longer, suffix, k);
    assert longer + suffix != "";
    hide UniqueMatch, DecodeLong, LineOf, Parse;
    SameMeaningInTable(a, b, i, name + suffix, longer + suffix, k);
  }

  /** `--a` with the entries "a" and "ab": the exact name is refused. */
  lemma ExactNameRefused()
    ensures var table := [LongOption("a", NO_ARGUMENT, None, 97), LongOption("ab", NO_ARGUMENT, None, 98)];
      Parse(LineOf(Args(["program", "--a"], "", Some(table))), Pos(1, ""))
      == Outcome([Event('?' as int, None, '\0', None, None)], 2)
  {
    var table := [LongOption("a", NO_ARGUMENT, None, 97), LongOption("ab", NO_ARGUMENT, None, 98)];
    var l := LineOf(Args(["program", "--a"], "", Some(table)));
    assert table[0].name <= table[1].name;
    ExactNames(table, 0);
    LongWordShape("a", l.argv[1]);
    assert BeforeEquals("a") == "a";
    assert l.decode.value("a").found == None;
    assert NextStep(l, Pos(2, "")) == None;
  }
}
