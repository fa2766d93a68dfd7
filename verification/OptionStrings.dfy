/** Printing declarations to an `optstring`, and the round trip of command lines read with it. */
module OptionStrings {
  import opened CStrings
  import opened OptionSyntax
  import opened OptionTables
  import opened OptionReports
  import opened CommandLines

  datatype Declaration = Declaration(c: Char, kind: Kind)

  /** An option character is followed by no colon, one or two. */
  function Colons(kind: Kind): CString {
    match kind
    case Required => ":"
    case Optional => "::"
    case _ => ""
  }

  function Print(ds: seq<Declaration>): CString {
    if ds == [] then "" else [ds[0].c] + Colons(ds[0].kind) + Print(ds[1..])
  }

  /** The text of the declarations, after a colon if missing arguments are to be told apart. */
  function OptString(quiet: bool, ds: seq<Declaration>): CString {
    (if quiet then ":" else "") + Print(ds)
  }

  /** Distinct characters other than the dash and the colon, each a flag or with an argument. */
  ghost predicate WellFormed(ds: seq<Declaration>) {
    && (forall i :: 0 <= i < |ds| ==> ds[i].c != '-' && ds[i].c != ':' && ds[i].kind != Unknown)
    && (forall i, j :: 0 <= i < j < |ds| ==> ds[i].c != ds[j].c)
  }

  ghost predicate Mentions(ds: seq<Declaration>, c: Char) {
    exists i :: 0 <= i < |ds| && ds[i].c == c
  }

  lemma {:induction false} PrintMentions(ds: seq<Declaration>, c: Char)
    requires c != ':' && c in Print(ds)
    ensures Mentions(ds, c)
  {
    if ds[0].c != c {
      assert c in Print(ds[1..]);
      PrintMentions(ds[1..], c);
      var i :| 0 <= i < |ds[1..]| && ds[1..][i].c == c;
      assert ds[i + 1].c == c;
    }
  }

  /** Where declaration `i` stands in the text: after others' characters, before its colons and no more. */
  lemma {:induction false} PrintSplits(ds: seq<Declaration>, i: nat) returns (pre: CString, post: CString)
    requires WellFormed(ds) && i < |ds|
    ensures Print(ds) == pre + [ds[i].c] + (Colons(ds[i].kind) + post)
    ensures ds[i].c !in pre && (post == "" || post[0] != ':')
  {
    var rest := ds[1..];
    if i == 0 {
      pre, post := "", Print(rest);
      if rest != [] {
        assert post[0] == rest[0].c == ds[1].c;
      }
    } else {
      assert forall j :: 0 <= j < |rest| ==> rest[j] == ds[j + 1];
      var front: CString := [ds[0].c] + Colons(ds[0].kind);
      pre, post := PrintSplits(rest, i - 1);
      assert Print(ds) == front + Print(rest);
      assert ds[i].c !in front;
      pre := front + pre;
    }
  }

  /** Each character gets its declared kind, and only those. */
  lemma DeclaredKind(quiet: bool, ds: seq<Declaration>, i: nat)
    requires WellFormed(ds) && i < |ds|
    ensures ShortKind(OptString(quiet, ds), ds[i].c) == ds[i].kind
  {
    var pre, post := PrintSplits(ds, i);
    var lead: CString := if quiet then ":" else "";
    var tail: CString := Colons(ds[i].kind) + post;
    assert OptString(quiet, ds) == (lead + pre) + [ds[i].c] + tail;
    hide Print, OptString, ShortKind;
    KindFromText(OptString(quiet, ds), lead + pre, ds[i].c, tail);
    ColonsTell(ds[i].kind, post);
  }

  /** The colons and what follows them tell the kind. */
  lemma ColonsTell(kind: Kind, post: CString)
    requires kind != Unknown && (post == "" || post[0] != ':')
    ensures var tail: CString := Colons(kind) + post;
      kind == if tail == "" || tail[0] != ':' then Flag
              else if |tail| == 1 || tail[1] != ':' then Required
              else Optional
  {
  }

  lemma UndeclaredKind(quiet: bool, ds: seq<Declaration>, c: Char)
    requires c != ':' && !Mentions(ds, c)
    ensures ShortKind(OptString(quiet, ds), c) == Unknown
  {
    if c in Print(ds) {
      PrintMentions(ds, c);
    }
    assert c !in OptString(quiet, ds);
  }

  ghost predicate TailIn(ds: seq<Declaration>, tail: Tail) {
    match tail
    case NoTail => true
    case Attached(c, arg) => arg != "" && (Declaration(c, Required) in ds || Declaration(c, Optional) in ds)
    case Separate(c, _) => Declaration(c, Required) in ds
    case Bare(c) => Declaration(c, Optional) in ds
  }

  /** The options of a cluster, of which there is one, are declared, each as it is used. */
  ghost predicate DeclaredIn(ds: seq<Declaration>, k: Cluster) {
    && (forall j :: 0 <= j < |k.flags| ==> Declaration(k.flags[j], Flag) in ds)
    && TailIn(ds, k.tail)
    && (k.flags != "" || !k.tail.NoTail?)
  }

  lemma KindOf(quiet: bool, ds: seq<Declaration>, d: Declaration)
    requires WellFormed(ds) && d in ds
    ensures ShortKind(OptString(quiet, ds), d.c) == d.kind && d.c != '-'
  {
    var i :| 0 <= i < |ds| && ds[i] == d;
    DeclaredKind(quiet, ds, i);
  }

  lemma DeclaredIsRenderable(a: Args, quiet: bool, ds: seq<Declaration>, k: Cluster)
    requires WellFormed(ds) && a.optstring == OptString(quiet, ds) && DeclaredIn(ds, k)
    ensures Renderable(LineOf(a), k)
  {
    var l := LineOf(a);
    forall j | 0 <= j < |k.flags| ensures l.kind(k.flags[j]) == Flag && k.flags[j] != '-' {
      KindOf(quiet, ds, Declaration(k.flags[j], Flag));
    }
    TailIsDeclared(a, quiet, ds, k.tail);
    var word := Words(k)[0];
    assert word[1] == if k.flags != "" then k.flags[0] else TailText(k.tail)[0];
  }

  lemma TailIsDeclared(a: Args, quiet: bool, ds: seq<Declaration>, tail: Tail)
    requires WellFormed(ds) && a.optstring == OptString(quiet, ds) && TailIn(ds, tail)
    ensures Declared(LineOf(a), tail)
    ensures !tail.NoTail? ==> TailText(tail) != "" && TailText(tail)[0] != '-'
  {
    if !tail.NoTail? {
      if Declaration(tail.c, Required) in ds {
        KindOf(quiet, ds, Declaration(tail.c, Required));
      } else {
        KindOf(quiet, ds, Declaration(tail.c, Optional));
      }
    }
  }

  /** Round trip on text: print distinct declarations to an `optstring`, render declared options in any mix of
      clusters, attached, next-word and absent optional arguments, add `--` and operands; `getopt`, and
      `getopt_long` with any table, reads back exactly those options, with `optind` at the first operand. */
  lemma RoundTripText(a: Args, quiet: bool, ds: seq<Declaration>, program: CString, ks: seq<Cluster>, operands: seq<CString>)
    requires WellFormed(ds) && a.optstring == OptString(quiet, ds)
    requires forall j :: 0 <= j < |ks| ==> DeclaredIn(ds, ks[j])
    requires a.argv == [program] + Render(ks) + (["--"] + operands)
    ensures Parse(LineOf(a), Pos(1, "")) == Outcome(AllEvents(ks), |a.argv| - |operands|)
  {
    forall j | 0 <= j < |ks| ensures Renderable(LineOf(a), ks[j]) {
      DeclaredIsRenderable(a, quiet, ds, ks[j]);
    }
    hide Renderable;
    RoundTrip(LineOf(a), program, ks, operands);
  }
}
