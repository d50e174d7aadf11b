/** Erasing the spaces that alignment inserted gives back its input, marks included. */
module AlignedTrace {
  import opened Seqs
  import opened Tokens
  import opened Alignment
  import opened BlockMarkers

  /** A token of the input, or a space that was inserted. */
  datatype Origin = Own(t: Token) | Added

  /** The trace without what was inserted. */
  function Erased(trace: seq<Origin>): seq<Token> {
    if trace == [] then []
    else (if trace[0].Own? then [trace[0].t] else []) + Erased(trace[1..])
  }

  /** The trace as it is shown: marks are left out and insertions are spaces. */
  function Shown(trace: seq<Origin>): seq<Token> {
    if trace == [] then []
    else
      (if trace[0].Added? then [Whitespace] else if IsMark(trace[0].t) then [] else [trace[0].t]) + Shown(trace[1..])
  }

  /** Spaces were inserted right before markers only. */
  predicate BeforeMarkers(trace: seq<Origin>) {
    trace == [] ||
    ((trace[0].Added? ==> trace[1..] != [] && (trace[1].Added? || trace[1] == Own(AlignmentMarker)))
     && BeforeMarkers(trace[1..]))
  }

  function PadTrace(pads: seq<nat>, block: seq<Token>): seq<Origin>
    requires |pads| == |Columns(0, block)|
    decreases |block|
  {
    if block == [] then []
    else
      MarkerCount(0, block);
      if block[0].AlignmentMarker? then
        Repeat(Added, pads[0]) + ([Own(AlignmentMarker)] + PadTrace(pads[1..], block[1..]))
      else [Own(block[0])] + PadTrace(pads, block[1..])
  }

  /** The trace of a block, its delimiters included. */
  function BlockTrace(rest: seq<Token>): seq<Origin> {
    var columns := Columns(0, Block(rest));
    [Own(AlignmentBlockBegin)] + PadTrace(Lacking(Max(columns), columns), Block(rest))
    + (if Closed(rest) then [Own(AlignmentBlockEnd)] else [])
  }

  /** The trace of a whole stream. */
  function Trace(ts: seq<Token>): seq<Origin>
    decreases |ts|
  {
    if ts == [] then []
    else if ts[0] == AlignmentBlockBegin then
      BlockTrace(ts[1..]) + Trace(AfterBlock(ts[1..]))
    else [Own(ts[0])] + Trace(ts[1..])
  }

  /** The block has an end. */
  predicate Closed(ts: seq<Token>) {
    ts != [] && (ts[0] == AlignmentBlockEnd || Closed(ts[1..]))
  }

  lemma {:induction false} ErasedConcat(a: seq<Origin>, b: seq<Origin>)
    ensures Erased(a + b) == Erased(a) + Erased(b)
    decreases |a|
  {
    if a == [] {
      assert a + b == b;
    } else {
      assert (a + b)[0] == a[0] && (a + b)[1..] == a[1..] + b;
      ErasedConcat(a[1..], b);
      Assoc(if a[0].Own? then [a[0].t] else [], Erased(a[1..]), Erased(b));
    }
  }

  lemma {:induction false} ShownConcat(a: seq<Origin>, b: seq<Origin>)
    ensures Shown(a + b) == Shown(a) + Shown(b)
    decreases |a|
  {
    if a == [] {
      assert a + b == b;
    } else {
      assert (a + b)[0] == a[0] && (a + b)[1..] == a[1..] + b;
      ShownConcat(a[1..], b);
      var head := if a[0].Added? then [Whitespace] else if IsMark(a[0].t) then [] else [a[0].t];
      Assoc(head, Shown(a[1..]), Shown(b));
    }
  }

  lemma {:induction false} BeforeMarkersConcat(a: seq<Origin>, b: seq<Origin>)
    requires BeforeMarkers(a) && BeforeMarkers(b)
    ensures BeforeMarkers(a + b)
    decreases |a|
  {
    if a == [] {
      assert a + b == b;
    } else {
      assert (a + b)[1..] == a[1..] + b;
      BeforeMarkersConcat(a[1..], b);
      assert a[0].Added? ==> (a + b)[1] == a[1];
    }
  }

  lemma AddedTrace(rest: seq<Origin>)
    requires BeforeMarkers(rest) && rest != [] && (rest[0].Added? || rest[0] == Own(AlignmentMarker))
    ensures
      var all := [Added] + rest;
      Erased(all) == Erased(rest) && Shown(all) == [Whitespace] + Shown(rest) && BeforeMarkers(all)
  {
    assert ([Added] + rest)[1..] == rest;
    assert [] + Erased(rest) == Erased(rest);
  }

  lemma {:induction false} SpacesTrace(n: nat, rest: seq<Origin>)
    requires BeforeMarkers(rest) && rest != [] && rest[0] == Own(AlignmentMarker)
    ensures
      var all := Repeat(Added, n) + rest;
      && Erased(all) == Erased(rest) && Shown(all) == Repeat(Whitespace, n) + Shown(rest)
      && BeforeMarkers(all) && (all[0].Added? || all[0] == Own(AlignmentMarker))
    decreases n
  {
    hide Erased, Shown, BeforeMarkers;
    var all := Repeat(Added, n) + rest;
    if n == 0 {
      assert all == rest && Repeat(Whitespace, 0) + Shown(rest) == Shown(rest);
    } else {
      var less := Repeat(Added, n - 1) + rest;
      SpacesTrace(n - 1, rest);
      AddedTrace(less);
      assert all == [Added] + less;
      assert Repeat(Whitespace, n) == [Whitespace] + Repeat(Whitespace, n - 1);
      Assoc([Whitespace], Repeat(Whitespace, n - 1), Shown(rest));
    }
  }

  lemma {:induction false} PadTraceIsExact(pads: seq<nat>, block: seq<Token>)
    requires |pads| == |Columns(0, block)|
    requires forall i :: 0 <= i < |block| && IsMark(block[i]) ==> block[i] == AlignmentMarker
    ensures
      var trace := PadTrace(pads, block);
      Erased(trace) == block && Shown(trace) == Unmark(PadWith(pads, block)) && BeforeMarkers(trace)
    decreases |block|
  {
    if block == [] {
    } else {
      hide Erased, Shown, BeforeMarkers, Unmark, Repeat;
      var t, rest := block[0], block[1..];
      MarkerCount(0, block);
      assert block == [t] + rest;
      PadStep(pads, block);
      if t.AlignmentMarker? {
        PadTraceIsExact(pads[1..], rest);
        OwnTrace(t, PadTrace(pads[1..], rest));
        assert [] + Unmark(PadWith(pads[1..], rest)) == Unmark(PadWith(pads[1..], rest));
        SpacesTrace(pads[0], [Own(AlignmentMarker)] + PadTrace(pads[1..], rest));
      } else {
        PadTraceIsExact(pads, rest);
        OwnTrace(t, PadTrace(pads, rest));
      }
    }
  }

  lemma OwnTrace(t: Token, rest: seq<Origin>)
    requires BeforeMarkers(rest)
    ensures
      var all := [Own(t)] + rest;
      && Erased(all) == [t] + Erased(rest) && Shown(all) == (if IsMark(t) then [] else [t]) + Shown(rest)
      && BeforeMarkers(all)
  {
    assert ([Own(t)] + rest)[1..] == rest;
  }

  // ----- Whole streams

  lemma {:induction false} InsideBlock(p: Place, ts: seq<Token>)
    requires p != Outside && WellMarked(p, ts)
    ensures WellMarked(Outside, AfterBlock(ts))
    ensures forall i :: 0 <= i < |Block(ts)| && IsMark(Block(ts)[i]) ==> Block(ts)[i] == AlignmentMarker
    ensures ts == Block(ts) + (if Closed(ts) then [AlignmentBlockEnd] else []) + AfterBlock(ts)
    decreases |ts|
  {
    if ts != [] {
      if ts[0] == AlignmentBlockEnd {
        assert ts == [] + [ts[0]] + ts[1..];
      } else {
        InsideBlock(Enter(p, ts[0]), ts[1..]);
        assert ts == [ts[0]] + ts[1..];
      }
    }
  }

  lemma BlockThenRest(rest: seq<Token>, after: seq<Token>, trace: seq<Origin>)
    requires forall i :: 0 <= i < |Block(rest)| && IsMark(Block(rest)[i]) ==> Block(rest)[i] == AlignmentMarker
    requires rest == Block(rest) + (if Closed(rest) then [AlignmentBlockEnd] else []) + after
    requires Erased(trace) == after && BeforeMarkers(trace)
    ensures
      var all := BlockTrace(rest) + trace;
      && Erased(all) == [AlignmentBlockBegin] + rest && BeforeMarkers(all)
      && Shown(all) == Unmark(Aligned(Block(rest))) + Shown(trace)
  {
    BlockIsExact(rest);
    hide Erased, Shown, BeforeMarkers, BlockTrace, Unmark, Aligned, Block, Closed, IsMark;
    ErasedConcat(BlockTrace(rest), trace);
    ShownConcat(BlockTrace(rest), trace);
    BeforeMarkersConcat(BlockTrace(rest), trace);
    var end := if Closed(rest) then [AlignmentBlockEnd] else [];
    Begun(Block(rest), end, after);
  }

  lemma Begun(block: seq<Token>, end: seq<Token>, after: seq<Token>)
    ensures [AlignmentBlockBegin] + (block + end + after) == [AlignmentBlockBegin] + block + end + after
  {}

  /**
   On well-marked streams: erasing the spaces that were inserted gives exactly
   the input with its marks, the input's own blanks included, and spaces were
   inserted right before markers only.
   */
  lemma {:induction false} FlowIsExact(ts: seq<Token>)
    requires WellMarked(Outside, ts)
    ensures Erased(Trace(ts)) == ts && Shown(Trace(ts)) == Flow(ts) && BeforeMarkers(Trace(ts))
    decreases |ts|
  {
    if ts != [] {
      var t, rest := ts[0], ts[1..];
      assert ts == [t] + rest;
      if t == AlignmentBlockBegin {
        InsideBlock(Empty, rest);
        FlowIsExact(AfterBlock(rest));
        hide Erased, Shown, BeforeMarkers, WellMarked, BlockTrace, Unmark, Aligned, Block, AfterBlock, Closed;
        BlockThenRest(rest, AfterBlock(rest), Trace(AfterBlock(rest)));
      } else {
        FlowIsExact(rest);
        hide Erased, Shown, BeforeMarkers;
        OwnTrace(t, Trace(rest));
      }
    }
  }

  lemma BlockIsExact(rest: seq<Token>)
    requires forall i :: 0 <= i < |Block(rest)| && IsMark(Block(rest)[i]) ==> Block(rest)[i] == AlignmentMarker
    ensures
      Erased(BlockTrace(rest)) == [AlignmentBlockBegin] + Block(rest) + if Closed(rest) then [AlignmentBlockEnd] else []
    ensures Shown(BlockTrace(rest)) == Unmark(Aligned(Block(rest))) && BeforeMarkers(BlockTrace(rest))
  {
    var columns := Columns(0, Block(rest));
    var inner := PadTrace(Lacking(Max(columns), columns), Block(rest));
    var last := if Closed(rest) then [Own(AlignmentBlockEnd)] else [];
    PadTraceIsExact(Lacking(Max(columns), columns), Block(rest));
    EndTrace(Closed(rest));
    hide Erased, Shown, BeforeMarkers, Unmark, PadTrace, Block, Closed, Columns, IsMark;
    ErasedConcat(inner, last);
    ShownConcat(inner, last);
    BeforeMarkersConcat(inner, last);
    OwnTrace(AlignmentBlockBegin, inner + last);
    Assoc([Own(AlignmentBlockBegin)], inner, last);
    Assoc([AlignmentBlockBegin], Block(rest), Erased(last));
    var shown := Unmark(Aligned(Block(rest)));
    assert [] + (shown + []) == shown;
  }

  lemma EndTrace(closed: bool)
    ensures
      var last := if closed then [Own(AlignmentBlockEnd)] else [];
      && Erased(last) == (if closed then [AlignmentBlockEnd] else []) && Shown(last) == [] && BeforeMarkers(last)
  {
    if closed { assert [Own(AlignmentBlockEnd)][1..] == []; }
  }
}
