/**
 Where the marks of every alignment of the pipeline stand in the formatted
 program: later alignments move them by the spaces that they insert before them
 on their line, and indentation by the margin of that line.
 */
module PipelineColumns {
  import opened Seqs
  import opened Tokens
  import opened Preservation
  import opened RuleSets
  import opened Alignment
  import opened Writer
  import opened AlignedColumns
  import opened AlignedTrace
  import opened AddingIndentation
  import opened TrailingSpaces
  import opened FinalColumns
  import opened BlockMarkers
  import Formatter
  import HexMarks
  import LineEnds
  import WordSpacing

  // ----- Another alignment

  /** The input of an alignment without its marks. */
  function Plain(trace: seq<Origin>): seq<Token> {
    if trace == [] then []
    else (if trace[0].Own? && !IsMark(trace[0].t) then [trace[0].t] else []) + Plain(trace[1..])
  }

  /** The trace before the n-th token of the plain input. */
  function Prefix(trace: seq<Origin>, n: nat): seq<Origin> {
    if trace == [] then []
    else if trace[0].Own? && !IsMark(trace[0].t) then
      if n == 0 then [] else [trace[0]] + Prefix(trace[1..], n - 1)
    else [trace[0]] + Prefix(trace[1..], n)
  }

  function Suffix(trace: seq<Origin>, n: nat): seq<Origin> {
    if trace == [] then []
    else if trace[0].Own? && !IsMark(trace[0].t) then if n == 0 then trace else Suffix(trace[1..], n - 1)
    else Suffix(trace[1..], n)
  }

  lemma {:induction false} SplitTrace(trace: seq<Origin>, n: nat)
    ensures trace == Prefix(trace, n) + Suffix(trace, n)
    ensures n <= |Plain(trace)| ==>
              Plain(Prefix(trace, n)) == Plain(trace)[..n] && Plain(Suffix(trace, n)) == Plain(trace)[n..]
    decreases |trace|
  {
    if trace != [] {
      var t, rest := trace[0], trace[1..];
      var own := t.Own? && !IsMark(t.t);
      if !own || n > 0 {
        var m := if own then n - 1 else n;
        SplitTrace(rest, m);
        Assoc([t], Prefix(rest, m), Suffix(rest, m));
        assert ([t] + Prefix(rest, m))[1..] == Prefix(rest, m);
        assert trace == [t] + rest;
      } else {
        assert Plain(trace)[..0] == [] && Plain(trace)[0..] == Plain(trace);
      }
    }
  }

  /** How much wider the indentation is after a trace, and how much further the text reaches, for what was inserted. */
  function Pushed(m: nat, k: nat, trace: seq<Origin>): (nat, nat)
    decreases |trace|
  {
    if trace == [] then (m, k)
    else if trace[0].Added? then Pushed(m + 1, k + 1, trace[1..])
    else if IsMark(trace[0].t) then Pushed(m, k, trace[1..])
    else Pushed(if trace[0].t.Newline? then 0 else m, KeptAfter(m, k, trace[0].t), trace[1..])
  }

  lemma {:induction false} PushedIsWider(p: seq<Token>, q: seq<Token>, m: nat, k: nat, trace: seq<Origin>)
    requires Wider(p, q, m, k)
    ensures Wider(p + Shown(trace), q + Plain(trace), Pushed(m, k, trace).0, Pushed(m, k, trace).1)
    decreases |trace|
  {
    hide Wider, KeptAfter;
    if trace == [] {
      assert p + [] == p && q + [] == q;
    } else {
      var t, rest := trace[0], trace[1..];
      if t.Added? {
        OneBlank(p, q, m, k, Whitespace);
        PushedIsWider(p + [Whitespace], q, m + 1, k + 1, rest);
        Assoc(p, [Whitespace], Shown(rest));
        assert [] + Plain(rest) == Plain(rest);
      } else if IsMark(t.t) {
        PushedIsWider(p, q, m, k, rest);
        assert [] + Plain(rest) == Plain(rest) && [] + Shown(rest) == Shown(rest);
      } else {
        OneMore(p, q, m, k, t.t);
        PushedIsWider(p + [t.t], q + [t.t], if t.t.Newline? then 0 else m, KeptAfter(m, k, t.t), rest);
        Assoc(p, [t.t], Shown(rest));
        Assoc(q, [t.t], Plain(rest));
      }
    }
  }

  lemma {:induction false} ShownAtLineEnd(trace: seq<Origin>)
    ensures AtLineEnd(Shown(trace)) <==> AtLineEnd(Plain(trace))
    decreases |trace|
  {
    if trace != [] {
      var t, rest := trace[0], trace[1..];
      ShownAtLineEnd(rest);
      assert [] + Plain(rest) == Plain(rest) && [] + Shown(rest) == Shown(rest);
      if t.Added? {
        AtLineEndCons(Whitespace, Shown(rest));
      } else if !IsMark(t.t) {
        AtLineEndCons(t.t, Shown(rest));
        AtLineEndCons(t.t, Plain(rest));
      }
    }
  }

  function NoMark(t: Token): seq<Token> { if IsMark(t) then [] else [t] }

  lemma {:induction false} PlainIsErased(trace: seq<Origin>)
    ensures Plain(trace) == FlatMap(NoMark, Erased(trace))
    decreases |trace|
  {
    if trace != [] {
      var rest := trace[1..];
      PlainIsErased(rest);
      if trace[0].Own? {
        assert Erased(trace) == [trace[0].t] + Erased(rest);
        FlatMapConcat(NoMark, [trace[0].t], Erased(rest));
        FlatMapOne(NoMark, trace[0].t);
      } else {
        assert Erased(trace) == [] + Erased(rest) == Erased(rest);
        assert [] + Plain(rest) == Plain(rest);
      }
    }
  }

  lemma {:induction false} UnmarkedIsPlain(ts: seq<Token>)
    requires Unmarked(ts)
    ensures FlatMap(NoMark, ts) == ts
    decreases |ts|
  {
    if ts != [] {
      assert Tokens.Marks(ts[0]) == [];
      UnmarkedIsPlain(ts[1..]);
      assert ts == [ts[0]] + ts[1..];
    }
  }

  ghost predicate MarkingOk(k: Marking) { Formatter.StageOk(Formatter.AlignBlocks(k)) }

  /** How an alignment stage makes its output. */
  ghost function TraceOf(k: Marking, x: seq<Token>): seq<Origin>
    requires MarkingOk(k)
  {
    Trace(k.Rules().Run(x))
  }

  lemma TraceIsStage(k: Marking, x: seq<Token>)
    requires MarkingOk(k) && Formatter.Ready(x)
    ensures Shown(TraceOf(k, x)) == Formatter.Apply(Formatter.AlignBlocks(k), x) && Plain(TraceOf(k, x)) == x
  {
    var m := k.Rules().Run(x);
    MarkingIsProper(k, x);
    MarksAreNoTokens(k);
    UnmarkedIsPlain(x);
    hide Marking.Rules, WellMarked, FlatMap, Erased, Shown, Unmarked, Nested, Blocks, Trace, Flow;
    FlowIsExact(m);
    PlainIsErased(Trace(m));
    RewritePreserves(k.Rules(), NoMark, [], x);
    FlatMapNothing(NoMark, []);
    assert [] + FlatMap(NoMark, x) == FlatMap(NoMark, x);
  }

  lemma MarksAreNoTokens(k: Marking)
    requires MarkingOk(k)
    ensures k.Rules().Valid() && Harmless(k.Rules(), NoMark)
  {}

  // ----- All later stages

  ghost predicate MarkingsOk(ks: seq<Marking>) { forall i :: 0 <= i < |ks| ==> MarkingOk(ks[i]) }

  function Aligns(ks: seq<Marking>): seq<Formatter.Stage> {
    if ks == [] then [] else [Formatter.AlignBlocks(ks[0])] + Aligns(ks[1..])
  }

  lemma {:induction false} AlignsOk(ks: seq<Marking>)
    requires MarkingsOk(ks)
    ensures Formatter.AllOk(Aligns(ks)) && Formatter.NoComments(Aligns(ks))
    decreases |ks|
  {
    hide Formatter.StageOk;
    if ks != [] {
      assert MarkingOk(ks[0]);
      AlignsOk(ks[1..]);
    }
  }

  lemma PrefixIsShorter(trace: seq<Origin>, n: nat)
    ensures |Shown(Prefix(trace, n))| <= |Shown(trace)|
  {
    SplitTrace(trace, n);
    ShownConcat(Prefix(trace, n), Suffix(trace, n));
  }

  /** How far the alignments `ks` and the indentation move what comes after the first `n` tokens of `x`. */
  ghost function Moved(style: Style, ks: seq<Marking>, x: seq<Token>, n: nat): nat
    requires MarkingsOk(ks) && n <= |x|
    decreases |ks|
  {
    if ks == [] then TextMargin(style, 0, x[..n])
    else
      assert MarkingOk(ks[0]);
      var trace := TraceOf(ks[0], x);
      PrefixIsShorter(trace, n);
      Pushed(0, 0, Prefix(trace, n)).1 + Moved(style, ks[1..], Shown(trace), |Shown(Prefix(trace, n))|)
  }

  function Ending(style: Style): seq<Formatter.Stage> { [Formatter.IndentLines(style), Formatter.TrimLines] }

  lemma EndingIs(style: Style, x: seq<Token>)
    ensures Formatter.AllOk(Ending(style))
    ensures Formatter.ApplyAll(Ending(style), x) == Trim([], Indent(style, 0, x))
  {
    var last: seq<Formatter.Stage> := [Formatter.TrimLines];
    assert Ending(style)[1..] == last && last[1..] == [];
    Formatter.ApplyFirst(Ending(style), x);
    Formatter.ApplyFirst(last, Indent(style, 0, x));
  }

  lemma IndentedColumn(style: Style, x: seq<Token>, n: nat)
    returns (left: seq<Token>, right: seq<Token>)
    requires n <= |x| && !AtLineEnd(x[n..])
    ensures Trim([], Indent(style, 0, x)) == left + right && !AtLineEnd(right)
    ensures Column(Written(left)) == Column(Written(x[..n])) + TextMargin(style, 0, x[..n])
  {
    hide Write, Overhang, Column, Trim, Indent, AtLineEnd, TextMargin, Level;
    assert x == x[..n] + x[n..];
    left, right := FinalColumn(style, x[..n], x[n..]);
    IndentedLineEnd(style, Level(x[..n]), x[n..]);
    StripStrips(Indent(style, Level(x[..n]), x[n..]));
  }

  lemma NoneLeft(style: Style, x: seq<Token>)
    ensures Formatter.AllOk(Aligns([]) + Ending(style))
    ensures Formatter.ApplyAll(Aligns([]) + Ending(style), x) == Trim([], Indent(style, 0, x))
  {
    EndingIs(style, x);
    assert Aligns([]) + Ending(style) == Ending(style);
  }

  lemma OneLeft(style: Style, ks: seq<Marking>, x: seq<Token>)
    requires MarkingsOk(ks) && ks != [] && Formatter.AllOk(Aligns(ks[1..]) + Ending(style))
    ensures Formatter.AllOk(Aligns(ks) + Ending(style)) && MarkingOk(ks[0]) && MarkingsOk(ks[1..])
    ensures Formatter.ApplyAll(Aligns(ks) + Ending(style), x) ==
            Formatter.ApplyAll(Aligns(ks[1..]) + Ending(style), Formatter.Apply(Formatter.AlignBlocks(ks[0]), x))
  {
    assert MarkingOk(ks[0]);
    MarkingsPart(ks, 1);
    hide Formatter.StageOk, Formatter.ApplyAll, Ending;
    Assoc([Formatter.AlignBlocks(ks[0])], Aligns(ks[1..]), Ending(style));
    FirstOfStages(Formatter.AlignBlocks(ks[0]), Aligns(ks[1..]) + Ending(style), x);
  }

  lemma {:induction false} LaterColumn(style: Style, ks: seq<Marking>, x: seq<Token>, n: nat)
    returns (left: seq<Token>, right: seq<Token>)
    requires MarkingsOk(ks) && Formatter.Ready(x) && n <= |x| && !AtLineEnd(x[n..])
    ensures Formatter.AllOk(Aligns(ks) + Ending(style)) && !AtLineEnd(right)
    ensures Formatter.ApplyAll(Aligns(ks) + Ending(style), x) == left + right
    ensures Column(Written(left)) == Column(Written(x[..n])) + Moved(style, ks, x, n)
    decreases |ks|
  {
    hide Formatter.StageOk, Formatter.Ready, Formatter.ApplyAll, Write, Overhang, Column, AtLineEnd, Aligns, Ending,
      MarkingOk;
    hide Shown, Prefix, Suffix, TraceOf, Pushed;
    if ks == [] {
      NoneLeft(style, x);
      left, right := IndentedColumn(style, x, n);
    } else {
      assert MarkingOk(ks[0]);
      MarkingsPart(ks, 1);
      AlignmentMoves(ks[0], x, n);
      var trace := TraceOf(ks[0], x);
      var p, s := Shown(Prefix(trace, n)), Shown(Suffix(trace, n));
      assert (p + s)[..|p|] == p && (p + s)[|p|..] == s;
      left, right := LaterColumn(style, ks[1..], Shown(trace), |p|);
      OneLeft(style, ks, x);
    }
  }

  lemma FirstOfStages(st: Formatter.Stage, stages: seq<Formatter.Stage>, x: seq<Token>)
    requires Formatter.StageOk(st) && Formatter.AllOk(stages)
    ensures Formatter.AllOk([st] + stages)
    ensures Formatter.ApplyAll([st] + stages, x) == Formatter.ApplyAll(stages, Formatter.Apply(st, x))
  {
    hide Formatter.StageOk, Formatter.Apply;
    assert ([st] + stages)[1..] == stages;
  }

  /** What one alignment does to the text before a token. */
  lemma AlignmentMoves(k: Marking, x: seq<Token>, n: nat)
    requires MarkingOk(k) && Formatter.Ready(x) && n <= |x| && !AtLineEnd(x[n..])
    ensures
      var trace := TraceOf(k, x);
      var p, s := Prefix(trace, n), Suffix(trace, n);
      && Shown(trace) == Shown(p) + Shown(s) && Formatter.Ready(Shown(trace)) && !AtLineEnd(Shown(s))
      && Shown(trace) == Formatter.Apply(Formatter.AlignBlocks(k), x)
      && Column(Written(Shown(p))) == Column(Written(x[..n])) + Pushed(0, 0, p).1
  {
    var trace := TraceOf(k, x);
    var p, s := Prefix(trace, n), Suffix(trace, n);
    TraceIsStage(k, x);
    Formatter.StageKeeps(Formatter.AlignBlocks(k), x);
    hide Formatter.Ready, Formatter.StageOk, Write, Overhang, Column, AtLineEnd, Shown, Plain, TraceOf, Prefix,
      Suffix, Wider;
    SplitTrace(trace, n);
    ShownConcat(p, s);
    ShownAtLineEnd(s);
    NothingWider();
    PushedIsWider([], [], 0, 0, p);
    assert [] + Shown(p) == Shown(p) && [] + Plain(p) == Plain(p);
    WiderColumns(Shown(p), x[..n], Pushed(0, 0, p).0, Pushed(0, 0, p).1);
  }

  lemma NothingWider()
    ensures Wider([], [], 0, 0)
  {}

  lemma WiderColumns(a: seq<Token>, b: seq<Token>, m: nat, k: nat)
    requires Wider(a, b, m, k)
    ensures Column(Written(a)) == Column(Written(b)) + k
  {
    hide Write, Overhang, Column;
    ColumnExactly(a);
    ColumnExactly(b);
  }

  // ----- The marks of a block

  /** Every block that begins in `ts` also ends there. */
  predicate Complete(ts: seq<Token>)
    decreases |ts|
  {
    ts == [] ||
    if ts[0] == AlignmentBlockBegin then AlignmentBlockEnd in ts[1..] && Complete(AfterBlock(ts[1..]))
    else Complete(ts[1..])
  }

  lemma {:induction false} BlockConcat(a: seq<Token>, b: seq<Token>)
    requires AlignmentBlockEnd in a
    ensures Block(a + b) == Block(a) && AfterBlock(a + b) == AfterBlock(a) + b
    decreases |a|
  {
    assert (a + b)[0] == a[0] && (a + b)[1..] == a[1..] + b;
    if a[0] != AlignmentBlockEnd {
      assert a == [a[0]] + a[1..];
      BlockConcat(a[1..], b);
    }
  }

  lemma {:induction false} FlowConcat(a: seq<Token>, b: seq<Token>)
    requires Complete(a)
    ensures Flow(a + b) == Flow(a) + Flow(b)
    decreases |a|
  {
    if a == [] {
      assert a + b == b;
    } else {
      assert (a + b)[0] == a[0] && (a + b)[1..] == a[1..] + b;
      hide Aligned, Unmark;
      if a[0] == AlignmentBlockBegin {
        BlockConcat(a[1..], b);
        FlowConcat(AfterBlock(a[1..]), b);
        Assoc(Unmark(Aligned(Block(a[1..]))), Flow(AfterBlock(a[1..])), Flow(b));
      } else {
        FlowConcat(a[1..], b);
        Assoc([a[0]], Flow(a[1..]), Flow(b));
      }
    }
  }

  /** The aligned stream before the i-th mark of the block that begins after `pre`. */
  function BeforeMark(pre: seq<Token>, rest: seq<Token>, i: nat): seq<Token> {
    Flow(pre) + UpTo(i, Aligned(Block(rest)))
  }

  /** What comes after that mark. */
  function AfterMark(rest: seq<Token>, i: nat): seq<Token> {
    From(i, Aligned(Block(rest))) + Flow(AfterBlock(rest))
  }

  lemma SplitFlow(pre: seq<Token>, rest: seq<Token>, i: nat)
    requires Complete(pre) && i < |Columns(0, Block(rest))|
    ensures Flow(pre + ([AlignmentBlockBegin] + rest)) == BeforeMark(pre, rest, i) + AfterMark(rest, i)
    ensures Column(Written(BeforeMark(pre, rest, i))) ==
        Max(Columns(0, Block(rest))) + Excess(Flow(pre), Block(rest), i)
  {
    var before, block, after := Flow(pre), Block(rest), Flow(AfterBlock(rest));
    PaddingCount(Lacking(Max(Columns(0, block)), Columns(0, block)), block);
    WrittenColumns(before, block);
    FlowConcat(pre, [AlignmentBlockBegin] + rest);
    assert ([AlignmentBlockBegin] + rest)[1..] == rest;
    NothingWiderThan(before);
    hide Aligned, Columns, Max, Excess, Write, Overhang, Column, Wider;
    MarkColumnAt(before, before, i, Aligned(block));
    SplitAtMark(i, Aligned(block));
    Regroup(before, UpTo(i, Aligned(block)), From(i, Aligned(block)), after);
  }

  lemma NothingWiderThan(a: seq<Token>)
    ensures Wider(a, a, 0, 0)
  {}

  lemma Regroup(a: seq<Token>, b: seq<Token>, c: seq<Token>, d: seq<Token>)
    ensures a + ((b + c) + d) == (a + b) + (c + d)
  {}

  // ----- Text comes after each mark

  predicate NoHoles(ts: seq<Token>) { forall i :: 0 <= i < |ts| ==> !ts[i].NoToken? }

  lemma ItemIsText(k: Marking, ts: seq<Token>)
    requires ts != [] && HexMarks.IsItem(k, ts[0])
    ensures !AtLineEnd(ts)
  {}

  /** What is marked, or nothing at all, comes after the i-th mark. */
  lemma {:induction false} FromStarts(k: Marking, marked: bool, i: nat, pads: seq<nat>, rest: seq<Token>)
    requires HexMarks.ItemsNext(k, marked, rest) && NoHoles(rest)
    requires |pads| == |Columns(0, Block(rest))| && i < |pads|
    ensures
      var from := From(i, PadWith(pads, Block(rest)));
      if from == [] then AfterBlock(rest) == [] else HexMarks.IsItem(k, from[0])
    decreases |rest|
  {
    var t, tail := rest[0], rest[1..];
    assert Block(rest)[1..] == Block(tail);
    MarkerCount(0, Block(rest));
    hide Columns, HexMarks.IsItem;
    if t.AlignmentMarker? {
      FromSpaces(i, pads[0], PadWith(pads[1..], Block(tail)));
      if i == 0 {
        FirstAfterMark(k, pads[1..], tail);
      } else {
        FromStarts(k, true, i - 1, pads[1..], tail);
      }
    } else {
      FromStarts(k, false, i, pads, tail);
    }
  }

  lemma {:induction false} FromSpaces(i: nat, n: nat, ts: seq<Token>)
    ensures From(i, Repeat(Whitespace, n) + [AlignmentMarker] + ts) == if i == 0 then Unmark(ts) else From(i - 1, ts)
    decreases n
  {
    var all := Repeat(Whitespace, n) + [AlignmentMarker] + ts;
    if n == 0 {
      assert all[0] == AlignmentMarker && all[1..] == ts;
    } else {
      assert all[0] == Whitespace && all[1..] == Repeat(Whitespace, n - 1) + [AlignmentMarker] + ts;
      FromSpaces(i, n - 1, ts);
    }
  }

  lemma FirstAfterMark(k: Marking, pads: seq<nat>, rest: seq<Token>)
    requires HexMarks.ItemsNext(k, true, rest) && NoHoles(rest) && |pads| == |Columns(0, Block(rest))|
    ensures
      var from := Unmark(PadWith(pads, Block(rest)));
      if from == [] then AfterBlock(rest) == [] else HexMarks.IsItem(k, from[0])
  {
    if rest != [] {
      assert HexMarks.IsItem(k, rest[0]) && !rest[0].NoToken?;
      assert rest[0] != AlignmentBlockEnd && !rest[0].AlignmentMarker?;
      PadStep(pads, Block(rest));
    }
  }

  lemma {:induction false} ItemsNextAfter(k: Marking, marked: bool, a: seq<Token>, b: seq<Token>)
    requires HexMarks.ItemsNext(k, marked, a + b) && NoHoles(a + b)
    ensures NoHoles(b) && exists m :: HexMarks.ItemsNext(k, m, b)
    decreases |a|
  {
    if a == [] {
      assert a + b == b;
    } else {
      assert (a + b)[0] == a[0] && (a + b)[1..] == a[1..] + b;
      ItemsNextAfter(k, a[0].AlignmentMarker?, a[1..], b);
    }
  }

  lemma MarkedHasNoHoles(k: Marking, x: seq<Token>)
    requires MarkingOk(k) && Unmarked(x)
    ensures NoHoles(k.Rules().Run(x))
  {
    var m := k.Rules().Run(x);
    MarksAreNoHoles(k);
    forall i | 0 <= i < |x| ensures Holes(x[i]) == [] {
      assert Tokens.Marks(x[i]) == [];
    }
    FlatMapNothing(Holes, x);
    hide Marking.Rules, Formatter.StageOk, FlatMap;
    RewritePreserves(k.Rules(), Holes, [], x);
    FlatMapNothing(Holes, []);
    NothingMapped(Holes, m);
    forall i | 0 <= i < |m| ensures !m[i].NoToken? {
      assert Holes(m[i]) == [];
    }
  }

  lemma MarksAreNoHoles(k: Marking)
    requires MarkingOk(k)
    ensures k.Rules().Valid() && Harmless(k.Rules(), Holes)
  {}

  /** No line ends right after a mark. */
  lemma TextAfterMark(k: Marking, x: seq<Token>, pre: seq<Token>, rest: seq<Token>, i: nat)
    requires MarkingOk(k) && Unmarked(x) && k.Rules().Run(x) == pre + ([AlignmentBlockBegin] + rest)
    requires i < |Columns(0, Block(rest))|
    ensures !AtLineEnd(AfterMark(rest, i))
  {
    HexMarks.MarksAreFollowed(k, x);
    MarkedHasNoHoles(k, x);
    hide Marking.Rules, Formatter.StageOk, HexMarks.ItemsNext, HexMarks.IsItem, AtLineEnd, Columns, Flow, Max;
    assert pre + ([AlignmentBlockBegin] + rest) == (pre + [AlignmentBlockBegin]) + rest;
    ItemsNextAfter(k, false, pre + [AlignmentBlockBegin], rest);
    var marked :| HexMarks.ItemsNext(k, marked, rest);
    var columns := Columns(0, Block(rest));
    FromStarts(k, marked, i, Lacking(Max(columns), columns), rest);
    var from, after := From(i, Aligned(Block(rest))), Flow(AfterBlock(rest));
    if from == [] {
      NothingAtLineEnd();
      assert from + after == [];
    } else {
      assert (from + after)[0] == from[0];
      ItemIsText(k, from + after);
    }
  }

  lemma NothingAtLineEnd()
    ensures Flow([]) == [] && !AtLineEnd([])
  {}

  // ----- In the pipeline

  /** The alignments that the options ask for, in order. */
  function Markings(o: Formatter.Options): seq<Marking> {
    [HexComments] + (if o.alignMetadata then [Formatter.META] else [])
    + if o.alignPatterns then [Formatter.PATTERNS] else []
  }

  lemma MarkingsAreOk(o: Formatter.Options)
    ensures MarkingsOk(Markings(o)) && Formatter.AllOk(Formatter.SpacingStages(o))
  {
    Formatter.SpacingStagesOk(o);
    RulesFit(HexComments);
    RulesFit(Formatter.META);
    RulesFit(Formatter.PATTERNS);
    hide Fit;
  }

  lemma LastStagesAre(o: Formatter.Options)
    ensures Formatter.LastStages(o) == Aligns(Markings(o)) + Ending(o.indentation)
  {
    var hex, meta, patterns := HexComments, Formatter.META, Formatter.PATTERNS;
    AlignsConcat([hex], if o.alignMetadata then [meta] else []);
    AlignsConcat([hex] + (if o.alignMetadata then [meta] else []), if o.alignPatterns then [patterns] else []);
    AlignsOne(hex);
    AlignsOne(meta);
    AlignsOne(patterns);
  }

  lemma AlignsOne(k: Marking)
    ensures Aligns([k]) == [Formatter.AlignBlocks(k)]
  {
    assert [k][1..] == [];
  }

  lemma {:induction false} AlignsConcat(a: seq<Marking>, b: seq<Marking>)
    ensures Aligns(a + b) == Aligns(a) + Aligns(b)
    decreases |a|
  {
    if a == [] {
      assert a + b == b;
    } else {
      assert (a + b)[0] == a[0] && (a + b)[1..] == a[1..] + b;
      AlignsConcat(a[1..], b);
      Assoc([Formatter.AlignBlocks(a[0])], Aligns(a[1..]), Aligns(b));
    }
  }

  lemma {:induction false} MarkingsPart(ks: seq<Marking>, j: nat)
    requires MarkingsOk(ks) && j <= |ks|
    ensures MarkingsOk(ks[..j]) && MarkingsOk(ks[j..])
  {
    hide MarkingOk;
  }

  /** The input of the j-th alignment. */
  ghost function Unaligned(o: Formatter.Options, ts: seq<Token>, j: nat): seq<Token>
    requires j < |Markings(o)|
  {
    MarkingsAreOk(o);
    MarkingsPart(Markings(o), j);
    AlignsOk(Markings(o)[..j]);
    Formatter.ApplyAll(Aligns(Markings(o)[..j]), HexMarks.Spaced(o, ts))
  }

  /** The stream with the marks of the j-th alignment. */
  ghost function Marked(o: Formatter.Options, ts: seq<Token>, j: nat): seq<Token>
    requires j < |Markings(o)|
  {
    MarkingsAreOk(o);
    assert MarkingOk(Markings(o)[j]);
    Markings(o)[j].Rules().Run(Unaligned(o, ts, j))
  }

  lemma FormatIsLastStages(o: Formatter.Options, ts: seq<Token>)
    ensures Formatter.AllOk(Formatter.LastStages(o))
    ensures Formatter.Format(o, ts) == Formatter.ApplyAll(Formatter.LastStages(o), HexMarks.Spaced(o, ts))
  {
    NewlineAfterCommentsFit();
    SpacingFit();
    Formatter.SpacingStagesOk(o);
    LineEnds.FormatIsSpacedEarly(o, ts);
    var stages, early := Formatter.SpacingStages(o), LineEnds.Early(o, ts);
    hide Formatter.Format, LineEnds.Early, Formatter.StageOk, Formatter.LastStages, NewlineAfterComments, Spacing, Fit;
    assert stages[1..] == [Formatter.ApplyRules(Spacing())] + Formatter.LastStages(o);
    assert stages[1..][1..] == Formatter.LastStages(o);
    Formatter.ApplyFirst(stages, early);
    Formatter.ApplyFirst(stages[1..], NewlineAfterComments().Run(early));
  }

  /** The j-th alignment and what comes after it. */
  lemma FormatFromAlignment(o: Formatter.Options, ts: seq<Token>, j: nat)
    requires Formatter.Source(ts) && j < |Markings(o)|
    ensures MarkingsOk(Markings(o)[j + 1..]) && Formatter.Ready(Flow(Marked(o, ts, j)))
    ensures Formatter.AllOk(Aligns(Markings(o)[j + 1..]) + Ending(o.indentation))
    ensures Formatter.Format(o, ts) ==
            Formatter.ApplyAll(Aligns(Markings(o)[j + 1..]) + Ending(o.indentation), Flow(Marked(o, ts, j)))
  {
    var ks, x := Markings(o), HexMarks.Spaced(o, ts);
    MarkingsAreOk(o);
    MarkingsPart(ks, j + 1);
    FormatIsLastStages(o, ts);
    LastStagesAre(o);
    HexMarks.SpacedIsReady(o, ts);
    UnalignedIs(o, ts, j);
    var y := Unaligned(o, ts, j);
    hide Formatter.StageOk, Formatter.Ready, Formatter.Source, Formatter.Format, Formatter.LastStages, HexMarks.Spaced;
    hide Markings, Aligns, Unaligned, Marked, Ending, Flow, Formatter.ApplyAll, MarkingOk;
    AlignInTheMiddle(ks, o.indentation, x, j);
    Formatter.StageKeeps(Formatter.AlignBlocks(ks[j]), y);
  }

  lemma UnalignedIs(o: Formatter.Options, ts: seq<Token>, j: nat)
    requires Formatter.Source(ts) && j < |Markings(o)|
    ensures MarkingsOk(Markings(o)) && MarkingOk(Markings(o)[j])
    ensures Formatter.AllOk(Aligns(Markings(o)[..j]))
    ensures Unaligned(o, ts, j) == Formatter.ApplyAll(Aligns(Markings(o)[..j]), HexMarks.Spaced(o, ts))
    ensures Formatter.Ready(Unaligned(o, ts, j))
    ensures Flow(Marked(o, ts, j)) == Formatter.Apply(Formatter.AlignBlocks(Markings(o)[j]), Unaligned(o, ts, j))
  {
    MarkingsAreOk(o);
    MarkingsPart(Markings(o), j);
    AlignsOk(Markings(o)[..j]);
    assert MarkingOk(Markings(o)[j]);
    HexMarks.SpacedIsReady(o, ts);
    hide Formatter.Ready, Formatter.Source, Formatter.StageOk, HexMarks.Spaced, Markings, Aligns, Formatter.SameProgram;
    Formatter.StagesKeep(Aligns(Markings(o)[..j]), HexMarks.Spaced(o, ts));
  }

  lemma AlignInTheMiddle(ks: seq<Marking>, style: Style, x: seq<Token>, j: nat)
    requires MarkingsOk(ks) && j < |ks|
    ensures Formatter.AllOk(Aligns(ks) + Ending(style)) && Formatter.AllOk(Aligns(ks[..j])) && MarkingOk(ks[j])
    ensures Formatter.AllOk(Aligns(ks[j + 1..]) + Ending(style))
    ensures
      var y := Formatter.ApplyAll(Aligns(ks[..j]), x);
      Formatter.ApplyAll(Aligns(ks) + Ending(style), x) ==
      Formatter.ApplyAll(Aligns(ks[j + 1..]) + Ending(style), Formatter.Apply(Formatter.AlignBlocks(ks[j]), y))
  {
    MarkingsPart(ks, j);
    MarkingsPart(ks, j + 1);
    AlignsOk(ks[..j]);
    AlignsOk(ks[j + 1..]);
    EndingIs(style, x);
    assert MarkingOk(ks[j]);
    hide Formatter.StageOk, Formatter.AllOk, Formatter.ApplyAll, Ending, Aligns, MarkingsOk;
    AlignsSplit(ks, style, j);
    BothOk(Aligns(ks[j + 1..]), Ending(style));
    ApplyMiddle(Aligns(ks[..j]), Formatter.AlignBlocks(ks[j]), Aligns(ks[j + 1..]) + Ending(style), x);
  }

  lemma AlignsSplit(ks: seq<Marking>, style: Style, j: nat)
    requires j < |ks|
    ensures Aligns(ks) + Ending(style) ==
            Aligns(ks[..j]) + ([Formatter.AlignBlocks(ks[j])] + (Aligns(ks[j + 1..]) + Ending(style)))
  {
    hide Ending, Aligns;
    AlignsAround(ks[..j], ks[j], ks[j + 1..]);
    Around(ks, j);
    Grouped(Aligns(ks[..j]), Formatter.AlignBlocks(ks[j]), Aligns(ks[j + 1..]), Ending(style));
  }

  lemma Around(ks: seq<Marking>, j: nat)
    requires j < |ks|
    ensures ks == ks[..j] + ([ks[j]] + ks[j + 1..])
  {}

  lemma AlignsAround(a: seq<Marking>, k: Marking, b: seq<Marking>)
    ensures Aligns(a + ([k] + b)) == Aligns(a) + ([Formatter.AlignBlocks(k)] + Aligns(b))
  {
    hide Aligns;
    AlignsConcat(a, [k] + b);
    AlignsConcat([k], b);
    AlignsOne(k);
  }

  lemma ApplyMiddle(a: seq<Formatter.Stage>, st: Formatter.Stage, b: seq<Formatter.Stage>, x: seq<Token>)
    requires Formatter.AllOk(a) && Formatter.StageOk(st) && Formatter.AllOk(b)
    ensures Formatter.AllOk(a + ([st] + b))
    ensures Formatter.ApplyAll(a + ([st] + b), x) ==
            Formatter.ApplyAll(b, Formatter.Apply(st, Formatter.ApplyAll(a, x)))
  {
    hide Formatter.StageOk, Formatter.AllOk, Formatter.ApplyAll, Formatter.Apply;
    FirstOfStages(st, b, Formatter.ApplyAll(a, x));
    BothOk(a, [st] + b);
    WordSpacing.ApplyAllConcat(a, [st] + b, x);
  }

  lemma BothOk(a: seq<Formatter.Stage>, b: seq<Formatter.Stage>)
    requires Formatter.AllOk(a) && Formatter.AllOk(b)
    ensures Formatter.AllOk(a + b)
  {
    hide Formatter.StageOk;
  }

  lemma Grouped(a: seq<Formatter.Stage>, st: Formatter.Stage, b: seq<Formatter.Stage>, c: seq<Formatter.Stage>)
    ensures a + ([st] + b) + c == a + ([st] + (b + c))
  {}

  /** How far the i-th mark of the block after `pre` ends up beyond the column that its block is aligned to. */
  ghost function FinalExcess(
      o: Formatter.Options, ts: seq<Token>, j: nat, pre: seq<Token>, rest: seq<Token>, i: nat): int
    requires j < |Markings(o)| && i < |Columns(0, Block(rest))| && Complete(pre)
    requires Marked(o, ts, j) == pre + ([AlignmentBlockBegin] + rest)
  {
    MarkingsAreOk(o);
    MarkingsPart(Markings(o), j + 1);
    SplitFlow(pre, rest, i);
    Excess(Flow(pre), Block(rest), i)
    + Moved(o.indentation, Markings(o)[j + 1..], Flow(Marked(o, ts, j)), |BeforeMark(pre, rest, i)|)
  }

  lemma TextAfterEachMark(o: Formatter.Options, ts: seq<Token>, j: nat, pre: seq<Token>, rest: seq<Token>, i: nat)
    requires Formatter.Source(ts) && j < |Markings(o)|
    requires Marked(o, ts, j) == pre + ([AlignmentBlockBegin] + rest) && i < |Columns(0, Block(rest))|
    ensures !AtLineEnd(AfterMark(rest, i))
  {
    UnalignedIs(o, ts, j);
    assert Unmarked(Unaligned(o, ts, j));
    hide Formatter.Source, Formatter.Ready, Unaligned, Markings, AtLineEnd, AfterMark, MarkingOk, Columns;
    TextAfterMark(Markings(o)[j], Unaligned(o, ts, j), pre, rest, i);
  }

  /**
   Where the marks of the j-th alignment stand in the formatted program: `left`
   is the formatted text before the i-th mark of the block that begins after
   `pre`, and `right` comes after it. The column is that which the block was
   aligned to, and what is not counted, the spaces of later alignments and the
   margin of the line add to it.
   */
  lemma FormattedColumns(o: Formatter.Options, ts: seq<Token>, j: nat, pre: seq<Token>, rest: seq<Token>, i: nat)
    returns (left: seq<Token>, right: seq<Token>)
    requires Formatter.Source(ts) && j < |Markings(o)|
    requires Marked(o, ts, j) == pre + ([AlignmentBlockBegin] + rest) && Complete(pre)
    requires i < |Columns(0, Block(rest))|
    ensures Formatter.Format(o, ts) == left + right && !AtLineEnd(right)
    ensures Column(Written(left)) == Max(Columns(0, Block(rest))) + FinalExcess(o, ts, j, pre, rest, i)
  {
    FormatFromAlignment(o, ts, j);
    SplitFlow(pre, rest, i);
    TextAfterEachMark(o, ts, j, pre, rest, i);
    hide Formatter.Format, Formatter.Source, Formatter.Ready, Formatter.StageOk, Marked, Markings, Columns, Excess, Max;
    hide BeforeMark, AfterMark, Moved, Write, Column, AtLineEnd, MarkingOk, Aligns, Ending;
    var y, n := Flow(Marked(o, ts, j)), |BeforeMark(pre, rest, i)|;
    assert y[..n] == BeforeMark(pre, rest, i) && y[n..] == AfterMark(rest, i);
    left, right := LaterColumn(o.indentation, Markings(o)[j + 1..], y, n);
  }

  /**
   Two marks of a block share a column of the formatted program exactly if they
   end up equally far beyond the column of the block. With one mark on each line,
   and if later stages move both as far, that is exactly if the same width that
   is not counted comes before them on their lines.
   */
  lemma FormattedColumnsExactly(
      o: Formatter.Options, ts: seq<Token>, j: nat, pre: seq<Token>, rest: seq<Token>, i: nat, h: nat)
    returns (left: seq<Token>, right: seq<Token>, left': seq<Token>, right': seq<Token>)
    requires Formatter.Source(ts) && j < |Markings(o)|
    requires Marked(o, ts, j) == pre + ([AlignmentBlockBegin] + rest) && Complete(pre)
    requires i < |Columns(0, Block(rest))| && h < |Columns(0, Block(rest))|
    ensures Formatter.Format(o, ts) == left + right == left' + right'
    ensures Column(Written(left)) == Max(Columns(0, Block(rest))) + FinalExcess(o, ts, j, pre, rest, i)
    ensures Column(Written(left')) == Max(Columns(0, Block(rest))) + FinalExcess(o, ts, j, pre, rest, h)
    ensures
      var before, block := Flow(pre), Block(rest);
      var moved := FinalExcess(o, ts, j, pre, rest, i) - Excess(before, block, i);
      OnePerLine(block) && moved == FinalExcess(o, ts, j, pre, rest, h) - Excess(before, block, h) ==>
        (Column(Written(left)) == Column(Written(left')) <==>
         UncountedAfter(before, block)[i] == UncountedAfter(before, block)[h])
  {
    hide Formatter.Format, Formatter.Source, Marked, Columns, Excess, FinalExcess, Write, Column, AtLineEnd;
    left, right := FormattedColumns(o, ts, j, pre, rest, i);
    left', right' := FormattedColumns(o, ts, j, pre, rest, h);
    if OnePerLine(Block(rest)) {
      OnePerLineExcess(Flow(pre), Block(rest), i);
      OnePerLineExcess(Flow(pre), Block(rest), h);
    }
  }
}
