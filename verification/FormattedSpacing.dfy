/** The blanks between neighbouring tokens, followed through the stages behind the spacing rules. */
module FormattedSpacing {
  import opened Seqs
  import opened Tokens
  import opened Processors
  import opened Preservation
  import opened RuleSets
  import opened RuleTables
  import opened MarkTables
  import opened TextSpacing
  import opened AlignedTrace
  import AddingIndentation
  import Alignment
  import BlockMarkers
  import Bubbles
  import Comments
  import Formatter
  import HexMarks
  import HexPatterns
  import LineEnds
  import LineLevels
  import PipelineColumns
  import RuleEffects
  import TrailingSpaces
  import WordSpacing

  // ----- Marks do not matter for the blanks

  lemma {:induction false} SpacedWithoutMarks(items: set<Kind>, stack: seq<Kind>, g: Gap, ts: seq<Token>)
    ensures Spaced(items, stack, g, ts) <==> Spaced(items, stack, g, FlatMap(PipelineColumns.NoMark, ts))
    decreases |ts|
  {
    if ts != [] {
      var t, rest := ts[0], ts[1..];
      var plain := FlatMap(PipelineColumns.NoMark, rest);
      FlatMapCons(PipelineColumns.NoMark, ts);
      hide FlatMap, Right, Next, OpenOne, IsMark;
      if IsMark(t) {
        MarkSaysNothing(items, stack, g, t);
        SpacedWithoutMarks(items, stack, g, rest);
        assert [] + plain == plain;
      } else {
        SpacedWithoutMarks(items, OpenOne(stack, t), Next(g, t), rest);
        assert ([t] + plain)[1..] == plain;
      }
    }
  }

  lemma MarkSaysNothing(items: set<Kind>, stack: seq<Kind>, g: Gap, t: Token)
    requires IsMark(t)
    ensures Right(items, stack, g, t) && Next(g, t) == g && OpenOne(stack, t) == stack
  {}

  /** What comes right after a mark is what alignment may move. */
  predicate MarkedOk(items: set<Kind>, stack: seq<Kind>, marked: bool, ts: seq<Token>)
    decreases |ts|
  {
    ts == [] || (
      && (marked ==> Aligned(items, stack, ts[0]))
      && MarkedOk(items, OpenOne(stack, ts[0]), ts[0].AlignmentMarker?, ts[1..])
    )
  }

  predicate EndsMarked(marked: bool, ts: seq<Token>) {
    if ts == [] then marked else ts[|ts| - 1].AlignmentMarker?
  }

  lemma {:induction false} MarkedConcat(
      items: set<Kind>, stack: seq<Kind>, marked: bool, a: seq<Token>, b: seq<Token>)
    ensures MarkedOk(items, stack, marked, a + b) <==>
            MarkedOk(items, stack, marked, a) && MarkedOk(items, Open(stack, a), EndsMarked(marked, a), b)
    decreases |a|
  {
    if a == [] {
      assert a + b == b;
    } else {
      assert (a + b)[0] == a[0] && (a + b)[1..] == a[1..] + b;
      hide Aligned, OpenOne;
      MarkedConcat(items, OpenOne(stack, a[0]), a[0].AlignmentMarker?, a[1..], b);
    }
  }

  lemma MarkedOne(items: set<Kind>, stack: seq<Kind>, marked: bool, t: Token)
    ensures MarkedOk(items, stack, marked, [t]) <==> (marked ==> Aligned(items, stack, t))
  {
    hide Aligned;
    assert [t][1..] == [];
  }

  lemma {:induction false} NoMarkers(items: set<Kind>, stack: seq<Kind>, ts: seq<Token>)
    requires NoMarker(ts) && forall i :: 0 <= i < |ts| ==> !ts[i].Begin? && !ts[i].End?
    ensures MarkedOk(items, stack, false, ts) && Open(stack, ts) == stack && !EndsMarked(false, ts)
    decreases |ts|
  {
    if ts != [] {
      assert !ts[0].AlignmentMarker?;
      NoMarkers(items, stack, ts[1..]);
    }
  }

  // ----- Marking

  /** The rules mark equal signs of these items, or tail comments of hex patterns. */
  predicate Covers(items: set<Kind>, k: BlockMarkers.Marking) { k.EqualSigns? ==> k.item in items }

  function HeadOf(layout: seq<Token>): seq<Token> {
    if layout != [] && layout[|layout| - 1] == AlignmentMarker then layout[..|layout| - 1] else layout
  }

  /** A mark is inserted right before what may be moved. */
  lemma MarkLayout(items: set<Kind>, k: BlockMarkers.Marking, p: Place, t: Token)
    requires Covers(items, k) && p.Ahead(1) == t
    ensures
      var e := MarkTable(k)(p);
      && e.stays && (forall i :: 0 <= i < |HeadOf(e.layout)| ==> IsDelimiter(HeadOf(e.layout)[i]))
      && (e.layout == HeadOf(e.layout)
          || (e.layout == HeadOf(e.layout) + MARKED && Aligned(items, p.inside, t) && !t.End?))
  {
    if k.HexComments? { HexLayout(items, p, t); } else { SectionLayout(items, k.block, k.item, p, t); }
  }

  predicate IsDelimiter(t: Token) { t == AlignmentBlockBegin || t == AlignmentBlockEnd }

  lemma HeadAndTail(head: seq<Token>, tail: seq<Token>)
    requires (forall i :: 0 <= i < |head| ==> IsDelimiter(head[i])) && tail in {[], ENDING, MARKED}
    ensures
      var layout := head + tail;
      && (forall i :: 0 <= i < |HeadOf(layout)| ==> IsDelimiter(HeadOf(layout)[i]))
      && HeadOf(layout) == if tail == MARKED then head else layout
  {
    var layout := head + tail;
    if tail == [] {
      assert layout == head;
    } else {
      assert layout[|layout| - 1] == tail[0] && layout[..|layout| - 1] == head;
    }
  }

  lemma HexLayout(items: set<Kind>, p: Place, t: Token)
    requires p.Ahead(1) == t
    ensures
      var e := HexTable(p);
      && e.stays && (forall i :: 0 <= i < |HeadOf(e.layout)| ==> IsDelimiter(HeadOf(e.layout)[i]))
      && (e.layout == HeadOf(e.layout)
          || (e.layout == HeadOf(e.layout) + MARKED && Aligned(items, p.inside, t) && !t.End?))
  {
    hide Place.Back, Place.Ahead, HeadOf;
    var ends := p.Ahead(1) == End(HexPattern) && p.Back(1) != AlignmentBlockEnd;
    var marks := HexPattern in p.inside && p.Ahead(1).TailComment? && p.Back(1) != AlignmentMarker;
    HeadAndTail(if p.Back(1) == Begin(HexPattern) then BEGINNING else [],
                if ends then ENDING else if marks then MARKED else []);
  }

  lemma SectionLayout(items: set<Kind>, block: Kind, item: Kind, p: Place, t: Token)
    requires p.Ahead(1) == t && item in items
    ensures
      var e := SectionTable(block, item, p);
      && e.stays && (forall i :: 0 <= i < |HeadOf(e.layout)| ==> IsDelimiter(HeadOf(e.layout)[i]))
      && (e.layout == HeadOf(e.layout)
          || (e.layout == HeadOf(e.layout) + MARKED && Aligned(items, p.inside, t) && !t.End?))
  {
    hide Place.Back, Place.Ahead, HeadOf;
    var ends := p.Ahead(1) == End(block) && p.Back(1) != AlignmentBlockEnd;
    var splits := !ends && p.In(block) && p.Back(2) == p.Back(1) == Newline;
    var marks := p.In(item) && p.Ahead(1) == EQUAL && p.Back(1) != AlignmentMarker;
    HeadAndTail(if p.Back(1) == Begin(block) then BEGINNING else if splits then ENDING + BEGINNING else [],
                if ends then ENDING else if marks then MARKED else []);
  }

  ghost predicate MarkedSoFar(items: set<Kind>, out: seq<Token>) {
    MarkedOk(items, [], false, out) && !EndsMarked(false, out)
  }

  lemma OneMarked(items: set<Kind>, k: BlockMarkers.Marking, out: seq<Token>, rest: seq<Token>)
    requires Covers(items, k) && MarkedSoFar(items, out) && rest != [] && rest[0] != NoToken
    requires !rest[0].AlignmentMarker?
    ensures MarkedSoFar(items, RuleTables.Written(out, MarkTable(k)(PlaceOf(NONE, out, rest)), rest[0]))
  {
    hide PlaceOf, MarkTable, Aligned, OpenOne, Seen, HeadOf, Covers, Open;
    var p, t, stack := PlaceOf(NONE, out, rest), rest[0], Open([], out);
    PlaceAhead(out, rest);
    MarkLayout(items, k, p, t);
    var layout := MarkTable(k)(p).layout;
    DelimitersOnly(HeadOf(layout));
    NoMarkers(items, stack, HeadOf(layout));
    if layout == HeadOf(layout) {
      MarkedOne(items, stack, false, t);
      MarkedConcat(items, stack, false, layout, [t]);
    } else {
      MarkedMark(items, stack, HeadOf(layout), t);
    }
    MarkedConcat(items, [], false, out, layout + [t]);
    Assoc(out, layout, [t]);
  }

  lemma PlaceAhead(out: seq<Token>, rest: seq<Token>)
    requires rest != [] && rest[0] != NoToken
    ensures
      var p := PlaceOf(NONE, out, rest);
      p.Ahead(1) == rest[0] && (!rest[0].End? ==> p.inside == Open([], out))
  {
    hide Open;
    assert Seen(NONE, rest)[0] == rest[0];
  }

  lemma DelimitersOnly(ts: seq<Token>)
    requires forall i :: 0 <= i < |ts| ==> IsDelimiter(ts[i])
    ensures NoMarker(ts) && forall i :: 0 <= i < |ts| ==> !ts[i].Begin? && !ts[i].End?
  {}

  lemma MarkedMark(items: set<Kind>, stack: seq<Kind>, head: seq<Token>, t: Token)
    requires MarkedOk(items, stack, false, head) && Open(stack, head) == stack && !EndsMarked(false, head)
    requires Aligned(items, stack, t)
    ensures MarkedOk(items, stack, false, head + MARKED + [t])
  {
    hide Aligned;
    var last := MARKED + [t];
    assert last[0] == AlignmentMarker && last[1..] == [t];
    MarkedOne(items, stack, true, t);
    MarkedConcat(items, stack, false, head, last);
    Assoc(head, MARKED, [t]);
  }

  lemma {:induction false} MarksAreRight(
      items: set<Kind>, k: BlockMarkers.Marking, out: seq<Token>, rest: seq<Token>)
    requires Covers(items, k) && MarkedSoFar(items, out) && BlockMarkers.Unmarked(rest)
    ensures MarkedOk(items, [], false, Edited(NONE, MarkTable(k), out, rest))
    decreases |rest|
  {
    if rest != [] {
      FirstIsPlain(rest);
      hide MarkedSoFar, BlockMarkers.Unmarked, PlaceOf, RuleTables.Written, MarkTable;
      OneMarked(items, k, out, rest);
      MarksAreRight(items, k, RuleTables.Written(out, MarkTable(k)(PlaceOf(NONE, out, rest)), rest[0]), rest[1..]);
    }
  }

  lemma FirstIsPlain(rest: seq<Token>)
    requires rest != [] && BlockMarkers.Unmarked(rest)
    ensures rest[0] != NoToken && !rest[0].AlignmentMarker? && BlockMarkers.Unmarked(rest[1..])
    ensures CategoryOf(rest[0]) !in NONE && Seen(NONE, rest) != []
  {
    assert Tokens.Marks(rest[0]) == [];
  }

  // ----- Alignment

  /** Spaces were inserted here, or will be: a mark comes next, or has just come. */
  predicate Pending(marked: bool, trace: seq<Origin>) {
    marked || (trace != [] && (trace[0].Added? || trace[0] == Own(AlignmentMarker)))
  }

  lemma RightGrows(items: set<Kind>, stack: seq<Kind>, g: Gap, h: Gap, t: Token)
    requires Right(items, stack, g, t) && Aligned(items, stack, t) && h.prev == g.prev && h.blanks >= g.blanks
    ensures Right(items, stack, h, t)
  {}

  lemma AlignedIsSeen(items: set<Kind>, stack: seq<Kind>, t: Token)
    requires Aligned(items, stack, t)
    ensures !IsSpace(t) && !IsSilent(t) && !IsMark(t)
  {}

  /** Alignment adds blanks only before what may be moved. */
  lemma {:induction false} TraceIsSpaced(
      items: set<Kind>, stack: seq<Kind>, g: Gap, h: Gap, marked: bool, trace: seq<Origin>)
    requires Spaced(items, stack, g, Erased(trace)) && MarkedOk(items, stack, marked, Erased(trace))
    requires BeforeMarkers(trace) && h.prev == g.prev && h.blanks >= g.blanks
    requires h.blanks == g.blanks || Pending(marked, trace)
    ensures Spaced(items, stack, h, Shown(trace))
    decreases |trace|
  {
    hide Erased, Shown, BeforeMarkers, Right, Aligned, Next, IsMark, OpenOne, MarkedOk, Spaced, Pending;
    if trace == [] {
      NothingShown(items, stack, h);
    } else {
      var rest := trace[1..];
      if trace[0].Added? {
        AddedFirst(trace);
        var more := Gap(h.prev, h.blanks + 1);
        TraceIsSpaced(items, stack, g, more, marked, rest);
        SpaceFirst(items, stack, h, Shown(rest));
      } else {
        OwnFirst(trace);
        var t := trace[0].t;
        FirstFacts(items, stack, g, marked, t, Erased(rest));
        if IsMark(t) {
          MarkFirst(items, stack, marked, t, trace);
          TraceIsSpaced(items, stack, g, h, t.AlignmentMarker?, rest);
        } else {
          OwnIsRight(items, stack, g, h, marked, trace);
          TraceIsSpaced(items, OpenOne(stack, t), Next(g, t), Next(h, t), false, rest);
          ConsSpaced(items, stack, h, t, Shown(rest));
        }
      }
    }
  }

  lemma NothingShown(items: set<Kind>, stack: seq<Kind>, h: Gap)
    ensures Spaced(items, stack, h, Shown([]))
  {}

  lemma SpaceFirst(items: set<Kind>, stack: seq<Kind>, h: Gap, ts: seq<Token>)
    requires Spaced(items, stack, Gap(h.prev, h.blanks + 1), ts)
    ensures Spaced(items, stack, h, [Whitespace] + ts)
  {
    assert ([Whitespace] + ts)[1..] == ts;
  }

  lemma ConsSpaced(items: set<Kind>, stack: seq<Kind>, h: Gap, t: Token, ts: seq<Token>)
    requires Right(items, stack, h, t) && Spaced(items, OpenOne(stack, t), Next(h, t), ts)
    ensures Spaced(items, stack, h, [t] + ts)
  {
    hide Right, Next, OpenOne;
    assert ([t] + ts)[1..] == ts;
  }

  lemma FirstFacts(items: set<Kind>, stack: seq<Kind>, g: Gap, marked: bool, t: Token, ts: seq<Token>)
    requires Spaced(items, stack, g, [t] + ts) && MarkedOk(items, stack, marked, [t] + ts)
    ensures Right(items, stack, g, t) && Spaced(items, OpenOne(stack, t), Next(g, t), ts)
    ensures (marked ==> Aligned(items, stack, t)) && MarkedOk(items, OpenOne(stack, t), t.AlignmentMarker?, ts)
  {
    hide Right, Next, OpenOne, Aligned;
    assert ([t] + ts)[1..] == ts;
  }

  /** A mark is not shown; it has come now. */
  lemma MarkFirst(items: set<Kind>, stack: seq<Kind>, marked: bool, t: Token, trace: seq<Origin>)
    requires trace != [] && trace[0] == Own(t) && IsMark(t) && (marked ==> Aligned(items, stack, t))
    ensures OpenOne(stack, t) == stack && (forall g :: Next(g, t) == g) && !marked
    ensures Pending(marked, trace) ==> Pending(t.AlignmentMarker?, trace[1..])
  {
    if marked { AlignedIsSeen(items, stack, t); }
  }

  lemma AddedFirst(trace: seq<Origin>)
    requires trace != [] && trace[0].Added? && BeforeMarkers(trace)
    ensures Erased(trace) == Erased(trace[1..]) && Shown(trace) == [Whitespace] + Shown(trace[1..])
    ensures (forall m :: Pending(m, trace[1..])) && BeforeMarkers(trace[1..])
  {
    assert [] + Erased(trace[1..]) == Erased(trace[1..]);
  }

  lemma OwnFirst(trace: seq<Origin>)
    requires trace != [] && trace[0].Own? && BeforeMarkers(trace)
    ensures Erased(trace) == [trace[0].t] + Erased(trace[1..]) && BeforeMarkers(trace[1..])
    ensures Erased(trace)[0] == trace[0].t && Erased(trace)[1..] == Erased(trace[1..])
    ensures Shown(trace) == (if IsMark(trace[0].t) then [] else [trace[0].t]) + Shown(trace[1..])
    ensures IsMark(trace[0].t) ==> Shown(trace) == Shown(trace[1..])
  {
    assert [] + Shown(trace[1..]) == Shown(trace[1..]);
  }

  lemma OwnIsRight(items: set<Kind>, stack: seq<Kind>, g: Gap, h: Gap, marked: bool, trace: seq<Origin>)
    requires trace != [] && trace[0].Own? && !IsMark(trace[0].t) && Right(items, stack, g, trace[0].t)
    requires marked ==> Aligned(items, stack, trace[0].t)
    requires h.prev == g.prev && h.blanks >= g.blanks && (h.blanks == g.blanks || Pending(marked, trace))
    ensures
      var t := trace[0].t;
      && Right(items, stack, h, t)
      && Next(h, t).prev == Next(g, t).prev && Next(h, t).blanks >= Next(g, t).blanks
      && Next(h, t).blanks == Next(g, t).blanks && !t.AlignmentMarker?
  {
    var t := trace[0].t;
    if marked {
      RightGrows(items, stack, g, h, t);
      AlignedIsSeen(items, stack, t);
    }
    hide Right, Aligned;
  }

  /** An alignment stage keeps the blanks right. */
  lemma AlignIsSpaced(items: set<Kind>, k: BlockMarkers.Marking, x: seq<Token>)
    requires PipelineColumns.MarkingOk(k) && Formatter.Ready(x) && Covers(items, k) && Spaced(items, [], START, x)
    ensures Spaced(items, [], START, Formatter.Apply(Formatter.AlignBlocks(k), x))
  {
    var m := k.Rules().Run(x);
    PipelineColumns.TraceIsStage(k, x);
    BlockMarkers.MarkingIsProper(k, x);
    PipelineColumns.MarksAreNoTokens(k);
    PipelineColumns.UnmarkedIsPlain(x);
    assert BlockMarkers.Unmarked(x);
    hide Formatter.Ready, BlockMarkers.Unmarked, BlockMarkers.Marking.Rules, FlatMap, Spaced, MarkedOk, Trace,
      Erased, Shown, BlockMarkers.WellMarked, Nested, BlockMarkers.Blocks, Formatter.Apply;
    RewritePreserves(k.Rules(), PipelineColumns.NoMark, [], x);
    FlatMapNothing(PipelineColumns.NoMark, []);
    assert [] + FlatMap(PipelineColumns.NoMark, x) == FlatMap(PipelineColumns.NoMark, x);
    SpacedWithoutMarks(items, [], START, m);
    MarkingExactly(k, x);
    NothingMarked(items);
    MarksAreRight(items, k, [], x);
    FlowIsExact(m);
    TraceIsSpaced(items, [], START, START, false, Trace(m));
  }

  lemma NothingMarked(items: set<Kind>)
    ensures MarkedSoFar(items, [])
  {}

  // ----- Indentation and trailing blanks

  lemma {:induction false} BlanksBehindNewline(items: set<Kind>, stack: seq<Kind>, g: Gap, ts: seq<Token>)
    requires forall i :: 0 <= i < |ts| ==> IsSpace(ts[i])
    ensures Spaced(items, stack, g, ts) && Open(stack, ts) == stack && Reach(g, ts) == Gap(g.prev, g.blanks + |ts|)
    decreases |ts|
  {
    if ts != [] {
      assert IsSpace(ts[0]);
      BlanksBehindNewline(items, stack, Next(g, ts[0]), ts[1..]);
    }
  }

  /** Behind a newline nothing is said about blanks. */
  predicate SameOrNewline(g: Gap, h: Gap) { h == g || (g.prev == Newline && h.prev == Newline) }

  lemma StillRight(items: set<Kind>, stack: seq<Kind>, g: Gap, h: Gap, t: Token)
    requires Right(items, stack, g, t) && SameOrNewline(g, h)
    ensures Right(items, stack, h, t) && SameOrNewline(Next(g, t), Next(h, t))
  {}

  lemma {:induction false} IndentIsSpaced(
      items: set<Kind>, stack: seq<Kind>, g: Gap, h: Gap, style: AddingIndentation.Style, level: int, ts: seq<Token>)
    requires Spaced(items, stack, g, ts) && SameOrNewline(g, h)
    ensures Spaced(items, stack, h, AddingIndentation.Indent(style, level, ts))
    decreases |ts|
  {
    if ts != [] {
      var t, rest := ts[0], ts[1..];
      StillRight(items, stack, g, h, t);
      hide Right;
      if t.Indentation? {
        IndentIsSpaced(items, stack, g, h, style, level + t.delta, rest);
      } else if t.Newline? {
        var margin := AddingIndentation.Margin(style, level);
        var tail := AddingIndentation.Indent(style, level, rest);
        BlanksBehindNewline(items, stack, Gap(Newline, 0), margin);
        IndentIsSpaced(items, stack, Gap(Newline, 0), Gap(Newline, |margin|), style, level, rest);
        SpacedConcat(items, stack, Gap(Newline, 0), margin, tail);
        Assoc([Newline], margin, tail);
        assert ([Newline] + (margin + tail))[1..] == margin + tail;
      } else {
        IndentIsSpaced(items, OpenOne(stack, t), Next(g, t), Next(h, t), style, level, rest);
        var tail := AddingIndentation.Indent(style, level, rest);
        assert ([t] + tail)[1..] == tail;
      }
    }
  }

  lemma {:induction false} StripIsSpaced(items: set<Kind>, stack: seq<Kind>, g: Gap, h: Gap, ts: seq<Token>)
    requires Spaced(items, stack, g, ts) && h.prev == g.prev && (h == g || TrailingSpaces.AtLineEnd(ts))
    requires BlockMarkers.Unmarked(ts)
    ensures Spaced(items, stack, h, TrailingSpaces.Strip(ts))
    decreases |ts|
  {
    if ts != [] {
      var t, rest := ts[0], ts[1..];
      assert BlockMarkers.Unmarked(rest) && Tokens.Marks(t) == [];
      if IsBlank(t) && TrailingSpaces.AtLineEnd(rest) {
        StripIsSpaced(items, stack, Next(g, t), h, rest);
      } else {
        RightAtLineEnd(items, stack, g, h, ts);
        StripIsSpaced(items, OpenOne(stack, t), Next(g, t), Next(h, t), rest);
        assert ([t] + TrailingSpaces.Strip(rest))[1..] == TrailingSpaces.Strip(rest);
      }
    }
  }

  lemma RightAtLineEnd(items: set<Kind>, stack: seq<Kind>, g: Gap, h: Gap, ts: seq<Token>)
    requires ts != [] && Right(items, stack, g, ts[0]) && h.prev == g.prev
    requires h == g || TrailingSpaces.AtLineEnd(ts)
    requires Tokens.Marks(ts[0]) == []
    ensures
      var t := ts[0];
      && Right(items, stack, h, t) && Next(h, t).prev == Next(g, t).prev
      && (Next(h, t) == Next(g, t) || TrailingSpaces.AtLineEnd(ts[1..]))
  {
    if h != g {
      LineEndIsFree(items, stack, h, ts);
      hide Right, Wanted, Aligned;
    }
  }

  /** At the end of a line nothing is said about blanks. */
  lemma LineEndIsFree(items: set<Kind>, stack: seq<Kind>, h: Gap, ts: seq<Token>)
    requires TrailingSpaces.AtLineEnd(ts) && Tokens.Marks(ts[0]) == []
    ensures Right(items, stack, h, ts[0]) && (ts[0].Newline? || TrailingSpaces.AtLineEnd(ts[1..]))
    ensures ts[0].Newline? || IsSpace(ts[0]) || IsSilent(ts[0])
  {
    if TrailingSpaces.IsControl(ts[0]) { HiddenIsSilent(ts[0]); }
    hide Wanted, Aligned;
  }

  // ----- No blank of the source is left

  function BlankOf(t: Token): seq<Token> { if IsSpace(t) then [t] else [] }

  ghost predicate AddsNoBlank(st: Formatter.Stage) {
    match st
    case ApplyRules(s) => s.Valid() && Harmless(s, BlankOf)
    case Reorder(m) => m == Formatter.TAILS_UP || m == Formatter.ENDS_UP || m == Formatter.INDENTATION_UP
    case LayoutHexPatterns => true
    case _ => false
  }

  lemma RulesSee(s: RuleSet, ts: seq<Token>)
    requires s.Valid() && Harmless(s, BlankOf)
    ensures FlatMap(BlankOf, s.Run(ts)) == FlatMap(BlankOf, ts)
  {
    hide RuleSet.Rewrite, FlatMap, RuleSet.Valid, Harmless;
    RewritePreserves(s, BlankOf, [], ts);
    FlatMapNothing(BlankOf, []);
    var all := FlatMap(BlankOf, ts);
    assert [] + all == all;
  }

  lemma StageAddsNoBlank(st: Formatter.Stage, ts: seq<Token>)
    requires Formatter.StageOk(st) && AddsNoBlank(st)
    ensures FlatMap(BlankOf, Formatter.Apply(st, ts)) == FlatMap(BlankOf, ts)
  {
    hide FlatMap, RuleSet.Run, RuleSet.Valid, Harmless, Fit;
    FlatMapNothing(BlankOf, []);
    var all := FlatMap(BlankOf, ts);
    assert [] + all == all;
    match st
    case ApplyRules(s) => RulesSee(s, ts);
    case Reorder(m) => Bubbles.FlowPreserves(m, BlankOf, [], ts);
    case LayoutHexPatterns => HexPatterns.FlowPreserves(BlankOf, HexPatterns.START, [], ts);
    case _ =>
  }

  lemma {:induction false} StagesAddNoBlank(stages: seq<Formatter.Stage>, ts: seq<Token>)
    requires Formatter.AllOk(stages) && forall i :: 0 <= i < |stages| ==> AddsNoBlank(stages[i])
    ensures FlatMap(BlankOf, Formatter.ApplyAll(stages, ts)) == FlatMap(BlankOf, ts)
    decreases |stages|
  {
    hide Formatter.StageOk, AddsNoBlank, FlatMap;
    if stages != [] {
      StageAddsNoBlank(stages[0], ts);
      StagesAddNoBlank(stages[1..], Formatter.Apply(stages[0], ts));
    }
  }

  /** A rule that inserts newlines or changes of the level, or drops newlines. */
  ghost predicate AddsLines(r: Rule) {
    match r.action
    case Insert(ts) =>
      ts in {[Newline], [Newline, Newline], [Indentation(1)], [Indentation(-1)]}
    case Drop => forall v :: r.cond(v) ==> AtNewline(v)
    case Copy => true
  }

  ghost predicate AllAddLines(s: RuleSet) { forall i :: 0 <= i < |s.rules| ==> AddsLines(s.rules[i]) }

  lemma LinesAreNoBlanks(s: RuleSet)
    requires AllAddLines(s)
    ensures Harmless(s, BlankOf)
  {
    forall i, j | 0 <= i < |s.rules| && s.rules[i].action.Insert? && 0 <= j < |s.rules[i].action.tokens|
      ensures BlankOf(s.rules[i].action.tokens[j]) == []
    {
      assert AddsLines(s.rules[i]);
    }
    forall i, v: View | 0 <= i < |s.rules| && s.rules[i].action.Drop? && s.rules[i].cond(v)
      ensures BlankOf(v.Tok(1)) == []
    {
      assert AddsLines(s.rules[i]) && AtNewline(v);
    }
  }

  lemma NewlineRulesAddLines()
    ensures AllAddLines(FewerNewlines()) && AllAddLines(BraceOnOwnLine()) && AllAddLines(BraceOnSameLine())
    ensures AllAddLines(EmptyLineBeforeRule()) && AllAddLines(NewlineAfterComments())
  {
    hide AtNewline, AfterNewline, BetweenTagsOrModifiers, RuleAfterSingleNewline, CommentInLine;
    assert forall v :: NewlineBeforeBrace(v) ==> AtNewline(v);
    hide NewlineBeforeBrace;
  }

  lemma RequiredNewlinesAddLines()
    ensures AllAddLines(RequiredNewlines())
  {
    hide AtNewline, AfterNewline, IdentifierIn;
  }

  lemma HeaderRulesAddLines()
    ensures AllAddLines(EmptyLineBeforeHeader()) && AllAddLines(NewlineBeforeHeader())
    ensures AllAddLines(NoEmptyLineBeforeFirstHeader())
    ensures AllAddLines(EmptyLineAfterHeader()) && AllAddLines(NewlineAfterHeader())
  {
    hide AtNewline, AfterNewline, AfterHeader, IsHeader;
  }

  lemma LevelRulesAddLines()
    ensures AllAddLines(IndentBody()) && AllAddLines(IndentSections()) && AllAddLines(IndentHexPatterns())
    ensures AllAddLines(IndentParenthesized()) && AllAddLines(IndentWith())
  {}

  lemma {:induction false} ObeyedHasNoBlank(s: RuleSet, out: seq<Token>)
    requires s.pass == NONE && RuleEffects.Obeys(s, RuleEffects.NoBlank, out)
    ensures FlatMap(BlankOf, out) == []
    decreases |out|
  {
    if out != [] {
      var init, t := out[..|out| - 1], out[|out| - 1];
      assert out == init + [t];
      ObeyedHasNoBlank(s, init);
      assert s.Hidden(t) || RuleEffects.NoBlank(RuleEffects.Place(s, init, t));
      BlankIsSeen(s, init, t);
      hide RuleEffects.Obeys, FlatMap, RuleEffects.Place, RuleEffects.NoBlank, RuleSet.Hidden;
      FlatMapConcat(BlankOf, init, [t]);
      FlatMapOne(BlankOf, t);
    }
  }

  lemma BlankIsSeen(s: RuleSet, init: seq<Token>, t: Token)
    requires s.pass == NONE && (s.Hidden(t) || RuleEffects.NoBlank(RuleEffects.Place(s, init, t)))
    ensures BlankOf(t) == []
  {}

  lemma EarlyStagesAddNoBlank(o: Formatter.Options)
    ensures
      var stages := Formatter.NewlineStages(o) + Formatter.IndentationStages(o);
      && Formatter.AllOk(stages) && stages[0] == Formatter.ApplyRules(NoWhitespace())
      && forall i :: 1 <= i < |stages| ==> AddsNoBlank(stages[i])
  {
    Formatter.NewlineStagesOk(o);
    Formatter.IndentationStagesOk(o);
    NewlineAddNoBlank(o);
    LevelsAddNoBlank(o);
    hide Formatter.StageOk, AddsNoBlank, Formatter.IndentationStages;
  }

  lemma AddsLinesOnly(s: RuleSet)
    requires Fit(s, IsPlain) && AllAddLines(s)
    ensures AddsNoBlank(Formatter.ApplyRules(s))
  {
    LinesAreNoBlanks(s);
    hide Harmless;
  }

  lemma NewlineAddNoBlank(o: Formatter.Options)
    ensures forall i :: 1 <= i < |Formatter.NewlineStages(o)| ==> AddsNoBlank(Formatter.NewlineStages(o)[i])
  {
    NewlineRulesAddLines();
    RequiredNewlinesAddLines();
    HeaderRulesAddLines();
    FewerNewlinesFit();
    BraceOnOwnLineFit();
    BraceOnSameLineFit();
    EmptyLineBeforeRuleFit();
    EmptyLineBeforeHeaderFit();
    NewlineBeforeHeaderFit();
    NoEmptyLineBeforeFirstHeaderFit();
    EmptyLineAfterHeaderFit();
    NewlineAfterHeaderFit();
    RequiredNewlinesFit();
    hide AllAddLines, Fit, FewerNewlines, BraceOnOwnLine, BraceOnSameLine, EmptyLineBeforeRule,
      EmptyLineBeforeHeader, NewlineBeforeHeader, NoEmptyLineBeforeFirstHeader, EmptyLineAfterHeader,
      NewlineAfterHeader, RequiredNewlines;
    AddsLinesOnly(FewerNewlines());
    AddsLinesOnly(BraceOnOwnLine());
    AddsLinesOnly(BraceOnSameLine());
    AddsLinesOnly(EmptyLineBeforeRule());
    AddsLinesOnly(EmptyLineBeforeHeader());
    AddsLinesOnly(NewlineBeforeHeader());
    AddsLinesOnly(NoEmptyLineBeforeFirstHeader());
    AddsLinesOnly(EmptyLineAfterHeader());
    AddsLinesOnly(NewlineAfterHeader());
    AddsLinesOnly(RequiredNewlines());
    NewlineStagesAre(o);
    hide Formatter.NewlineStages;
  }

  ghost predicate IsKnown(st: Formatter.Stage) {
    || st == Formatter.Reorder(Formatter.TAILS_UP) || st == Formatter.Reorder(Formatter.ENDS_UP)
    || st == Formatter.Reorder(Formatter.INDENTATION_UP) || st == Formatter.LayoutHexPatterns
  }

  ghost predicate IsNewlineRules(st: Formatter.Stage) {
    st.ApplyRules? &&
    (|| st.rules == FewerNewlines() || st.rules == BraceOnOwnLine() || st.rules == BraceOnSameLine()
     || st.rules == EmptyLineBeforeRule() || st.rules == EmptyLineBeforeHeader() || st.rules == NewlineBeforeHeader()
     || st.rules == NoEmptyLineBeforeFirstHeader() || st.rules == EmptyLineAfterHeader()
     || st.rules == NewlineAfterHeader() || st.rules == RequiredNewlines())
  }

  lemma NewlineStagesAre(o: Formatter.Options)
    ensures
      var stages := Formatter.NewlineStages(o);
      forall i :: 1 <= i < |stages| ==> IsKnown(stages[i]) || IsNewlineRules(stages[i])
  {}

  lemma LevelsAddNoBlank(o: Formatter.Options)
    ensures forall i :: 0 <= i < |Formatter.IndentationStages(o)| ==> AddsNoBlank(Formatter.IndentationStages(o)[i])
  {
    LevelRulesAddLines();
    IndentBodyFit();
    IndentSectionsFit();
    IndentHexPatternsFit();
    IndentParenthesizedFit();
    IndentWithFit();
    hide AllAddLines, Fit, IndentBody, IndentSections, IndentHexPatterns, IndentParenthesized, IndentWith;
    AddsLinesOnly(IndentBody());
    AddsLinesOnly(IndentSections());
    AddsLinesOnly(IndentHexPatterns());
    AddsLinesOnly(IndentParenthesized());
    AddsLinesOnly(IndentWith());
  }

  lemma EarlyHasNoBlank(o: Formatter.Options, ts: seq<Token>)
    ensures FlatMap(BlankOf, LineEnds.Early(o, ts)) == []
  {
    var stages := Formatter.NewlineStages(o) + Formatter.IndentationStages(o);
    var processed := Comments.Run(o.tabSize, StatementLines().Run(ts)) by { Formatter.PipelineOk(o); }
    EarlyStagesAddNoBlank(o);
    BlanksGone(processed);
    assert LineEnds.Early(o, ts) == Formatter.ApplyAll(stages, processed);
    hide Formatter.StageOk, AddsNoBlank, FlatMap, Formatter.NewlineStages, Formatter.IndentationStages, LineEnds.Early;
    Formatter.ApplyFirst(stages, processed);
    StagesAddNoBlank(stages[1..], NoWhitespace().Run(processed));
  }

  lemma BlanksGone(ts: seq<Token>)
    ensures NoWhitespace().Valid() && FlatMap(BlankOf, NoWhitespace().Run(ts)) == []
  {
    RuleEffects.BlanksAreGone(ts);
    ObeyedHasNoBlank(NoWhitespace(), NoWhitespace().Run(ts));
  }

  // ----- The formatted program

  /** The items whose equal signs are aligned. */
  function Movable(o: Formatter.Options): set<Kind> {
    (if o.alignMetadata then {MetaDef} else {}) + (if o.alignPatterns then {PatternDef} else {})
  }

  lemma SpacedInput(o: Formatter.Options, ts: seq<Token>)
    requires Formatter.Source(ts)
    ensures Spaced(Movable(o), [], START, HexMarks.Spaced(o, ts)) && Formatter.Ready(HexMarks.Spaced(o, ts))
  {
    NewlineAfterCommentsFit();
    SpacingFit();
    HexMarks.EarlyIsReady(o, ts);
    HexMarks.SpacedIsReady(o, ts);
    EarlyHasNoBlank(o, ts);
    NewlineRulesAddLines();
    LinesAreNoBlanks(NewlineAfterComments());
    var early := LineEnds.Early(o, ts);
    var ended := NewlineAfterComments().Run(early);
    hide LineEnds.Early, Formatter.Ready, Formatter.Source, NewlineAfterComments, Fit, FlatMap, Harmless, AllAddLines,
      Formatter.SameProgram, Spaced, RuleSet.Valid;
    RulesSee(NewlineAfterComments(), early);
    Formatter.RulesKeep(NewlineAfterComments(), early);
    IsBareStream(ended);
    SpacingIsRight(Movable(o), ended);
  }

  lemma IsBareStream(ts: seq<Token>)
    requires FlatMap(BlankOf, ts) == [] && Formatter.Ready(ts)
    ensures Bare(ts)
  {
    NothingMapped(BlankOf, ts);
    forall i | 0 <= i < |ts| ensures IsBare(ts[i]) {
      assert BlankOf(ts[i]) == [] && Tokens.Marks(ts[i]) == [];
    }
  }

  lemma {:induction false} AlignsAreSpaced(items: set<Kind>, ks: seq<BlockMarkers.Marking>, x: seq<Token>)
    requires PipelineColumns.MarkingsOk(ks) && Formatter.AllOk(PipelineColumns.Aligns(ks)) && Formatter.Ready(x)
    requires Spaced(items, [], START, x) && forall i :: 0 <= i < |ks| ==> Covers(items, ks[i])
    ensures
      var y := Formatter.ApplyAll(PipelineColumns.Aligns(ks), x);
      Spaced(items, [], START, y) && Formatter.Ready(y)
    decreases |ks|
  {
    hide Spaced, Formatter.Ready, Covers, Formatter.Apply;
    if ks != [] {
      var st := Formatter.AlignBlocks(ks[0]);
      assert PipelineColumns.MarkingOk(ks[0]) && Formatter.StageOk(st);
      AlignIsSpaced(items, ks[0], x);
      hide Formatter.StageOk;
      Formatter.StageKeeps(st, x);
      assert PipelineColumns.Aligns(ks)[1..] == PipelineColumns.Aligns(ks[1..]);
      AlignsAreSpaced(items, ks[1..], Formatter.Apply(st, x));
    }
  }

  lemma MovableIsCovered(o: Formatter.Options)
    ensures
      var ks := PipelineColumns.Markings(o);
      forall i :: 0 <= i < |ks| ==> Covers(Movable(o), ks[i])
  {}

  /** In the formatted program the blanks between neighbours on a line are as wanted. */
  lemma FormattedIsSpaced(o: Formatter.Options, ts: seq<Token>)
    requires Formatter.Source(ts)
    ensures Spaced(Movable(o), [], START, Formatter.Format(o, ts))
  {
    var items, ks, x := Movable(o), PipelineColumns.Markings(o), HexMarks.Spaced(o, ts);
    SpacedInput(o, ts);
    PipelineColumns.MarkingsAreOk(o);
    PipelineColumns.AlignsOk(ks);
    MovableIsCovered(o);
    LineLevels.FormatIndents(o, ts);
    hide Spaced, Formatter.Ready, Formatter.Source, Formatter.Format, Movable, PipelineColumns.Markings, Covers,
      PipelineColumns.Aligns, Formatter.StageOk, HexMarks.Spaced;
    AlignsAreSpaced(items, ks, x);
    EndingIsSpaced(items, o.indentation, LineLevels.Unindented(o, ts));
  }

  lemma EndingIsSpaced(items: set<Kind>, style: AddingIndentation.Style, y: seq<Token>)
    requires Formatter.Ready(y) && Spaced(items, [], START, y)
    ensures Spaced(items, [], START, TrailingSpaces.Trim([], AddingIndentation.Indent(style, 0, y)))
  {
    var z := AddingIndentation.Indent(style, 0, y);
    Formatter.IndentKeeps(style, y);
    assert BlockMarkers.Unmarked(z);
    hide Spaced, Formatter.Ready, Formatter.SameProgram, BlockMarkers.Unmarked;
    IndentIsSpaced(items, [], START, START, style, 0, y);
    TrailingSpaces.TrimIsStrip([], z);
    assert [] + z == z;
    StripIsSpaced(items, [], START, START, z);
  }

  // ----- Place by place

  function Count(ts: seq<Token>): nat {
    if ts == [] then 0 else (if IsSpace(ts[0]) then 1 else 0) + Count(ts[1..])
  }

  lemma {:induction false} CountedBlanks(g: Gap, ts: seq<Token>)
    requires forall i :: 0 <= i < |ts| ==> IsSpace(ts[i]) || IsSilent(ts[i])
    ensures Reach(g, ts) == Gap(g.prev, g.blanks + Count(ts))
    decreases |ts|
  {
    if ts != [] {
      assert IsSpace(ts[0]) || IsSilent(ts[0]);
      CountedBlanks(Next(g, ts[0]), ts[1..]);
    }
  }

  /**
   In the formatted program, two text tokens with nothing but blanks and control
   tokens between them have no blank between them if the second one is `:`, `,`,
   `.`, `)` or `]`, if the first one is `.`, `-`, `(` or `[`, between an
   identifier and `(`, `[` or `*`, before `(` or `[` in a pattern modifier, and
   before `-` in a pattern modifier or hex jump; otherwise they have one, or more
   before an equal sign that is aligned.
   */
  lemma NeighboursAreSpaced(o: Formatter.Options, ts: seq<Token>, i: nat, j: nat)
    requires Formatter.Source(ts) && i < j < |Formatter.Format(o, ts)|
    requires
      var y := Formatter.Format(o, ts);
      && (forall k :: i < k < j ==> IsSpace(y[k]) || IsSilent(y[k]))
      && IsText(y[i]) && IsText(y[j])
    ensures
      var y := Formatter.Format(o, ts);
      var a, b, n, stack := y[i], y[j], Count(y[i + 1..j]), Open([], y[..j]);
      var tight := Tight(Place([], [], stack), a, b);
      if Aligned(Movable(o), stack, b) then tight || n >= 1 else n == if tight then 0 else 1
  {
    var y := Formatter.Format(o, ts);
    hide Formatter.Format, Formatter.Source, IsText, IsSpace, IsSilent, Tight, Aligned, Spaced, Right;
    FormattedIsSpaced(o, ts);
    TextIsSeen(y[i]);
    RightAt(Movable(o), y, i, j);
    TextIsRight(Movable(o), Open([], y[..j]), Gap(y[i], Count(y[i + 1..j])), y[j]);
  }

  lemma TextIsSeen(t: Token)
    requires IsText(t)
    ensures !IsSpace(t) && !IsSilent(t)
  {}

  lemma TextIsRight(items: set<Kind>, stack: seq<Kind>, g: Gap, t: Token)
    requires Right(items, stack, g, t) && IsText(g.prev) && (IsText(t) || IsComment(t))
    ensures IsText(t) ==>
              var tight := Tight(Place([], [], stack), g.prev, t);
              if Aligned(items, stack, t) then tight || g.blanks >= 1 else g.blanks == if tight then 0 else 1
    ensures IsComment(t) ==>
              if t.TailComment? && HexPattern in stack then g.blanks >= 2 else g.blanks == 2
  {
    hide Tight;
  }

  /** Behind text a comment on the same line is set off by two blanks, or more if it is aligned. */
  lemma CommentsAreSetOff(o: Formatter.Options, ts: seq<Token>, i: nat, j: nat)
    requires Formatter.Source(ts) && i < j < |Formatter.Format(o, ts)|
    requires
      var y := Formatter.Format(o, ts);
      && (forall k :: i < k < j ==> IsSpace(y[k]) || IsSilent(y[k]))
      && IsText(y[i]) && IsComment(y[j])
    ensures
      var y := Formatter.Format(o, ts);
      var n := Count(y[i + 1..j]);
      if y[j].TailComment? && HexPattern in Open([], y[..j]) then n >= 2 else n == 2
  {
    var y := Formatter.Format(o, ts);
    hide Formatter.Format, Formatter.Source, IsText, IsComment, IsSpace, IsSilent, Tight, Aligned, Spaced, Right;
    FormattedIsSpaced(o, ts);
    TextIsSeen(y[i]);
    RightAt(Movable(o), y, i, j);
    TextIsRight(Movable(o), Open([], y[..j]), Gap(y[i], Count(y[i + 1..j])), y[j]);
  }

  lemma RightAt(items: set<Kind>, y: seq<Token>, i: nat, j: nat)
    requires Spaced(items, [], START, y) && i < j < |y|
    requires forall k :: i < k < j ==> IsSpace(y[k]) || IsSilent(y[k])
    requires !IsSpace(y[i]) && !IsSilent(y[i])
    ensures Right(items, Open([], y[..j]), Gap(y[i], Count(y[i + 1..j])), y[j])
  {
    var before, between := y[..i], y[i + 1..j];
    assert y[..j] == before + [y[i]] + between;
    assert y == y[..j] + y[j..] && y[j..][0] == y[j];
    SpacedConcat(items, [], START, y[..j], y[j..]);
    SpacedConcat(items, [], START, before + [y[i]], between);
    ReachSnoc(START, before, y[i]);
    forall k | 0 <= k < |between| ensures IsSpace(between[k]) || IsSilent(between[k]) {
      assert between[k] == y[i + 1 + k];
    }
    CountedBlanks(Gap(y[i], 0), between);
  }

  lemma {:induction false} StrippedAt(y: seq<Token>, i: nat)
    requires TrailingSpaces.Stripped(y) && i < |y| && IsSpace(y[i])
    ensures !TrailingSpaces.AtLineEnd(y[i + 1..])
    decreases |y|
  {
    if i > 0 {
      StrippedAt(y[1..], i - 1);
      assert y[1..][i..] == y[i + 1..];
    }
  }

  lemma {:induction false} LineEndAt(ts: seq<Token>, j: nat)
    requires j < |ts| && ts[j] == Newline
    requires forall k :: 0 <= k < j ==> IsSpace(ts[k]) || (IsSilent(ts[k]) && !ts[k].AlignmentMarker?)
    ensures TrailingSpaces.AtLineEnd(ts)
    decreases |ts|
  {
    if j > 0 {
      assert IsSpace(ts[0]) || (IsSilent(ts[0]) && !ts[0].AlignmentMarker?);
      LineEndAt(ts[1..], j - 1);
    }
  }

  /** In the formatted program no space or tab comes before a newline, control tokens aside. */
  lemma NoTrailingBlanks(o: Formatter.Options, ts: seq<Token>, i: nat, j: nat)
    requires i < j < |Formatter.Format(o, ts)|
    requires
      var y := Formatter.Format(o, ts);
      && y[j] == Newline && (y[i] == Whitespace || y[i] == Tab)
    ensures
      var y := Formatter.Format(o, ts);
      exists k :: i < k < j && !IsSpace(y[k]) && !(IsSilent(y[k]) && !y[k].AlignmentMarker?)
  {
    var y := Formatter.Format(o, ts);
    LineEnds.FormattedIsStripped(o, ts);
    hide Formatter.Format;
    StrippedAt(y, i);
    if forall k :: i < k < j ==> IsSpace(y[k]) || (IsSilent(y[k]) && !y[k].AlignmentMarker?) {
      var rest := y[i + 1..];
      assert rest[j - i - 1] == y[j];
      forall k | 0 <= k < j - i - 1 ensures rest[k] == y[i + 1 + k] {}
      LineEndAt(rest, j - i - 1);
    }
  }
}
