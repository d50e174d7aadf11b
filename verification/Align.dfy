/** Alignment markers become the spaces that put them at the same column. */
module Alignment {
  import opened Seqs
  import opened Tokens

  // ----- Columns

  function Advance(column: nat, t: Token): nat {
    if t.AlignmentMarker? then column
    else if t.Newline? then 0
    else column + |AsBytes(t)|
  }

  /** The columns at which the markers of a block stand, starting at `column`. */
  function Columns(column: nat, block: seq<Token>): seq<nat>
    decreases |block|
  {
    if block == [] then []
    else (if block[0].AlignmentMarker? then [column] else []) + Columns(Advance(column, block[0]), block[1..])
  }

  function Max(columns: seq<nat>): (m: nat)
    ensures forall i :: 0 <= i < |columns| ==> columns[i] <= m
    ensures columns != [] ==> m in columns
  {
    if columns == [] then 0
    else
      var m := Max(columns[1..]);
      if columns[0] > m then columns[0] else m
  }

  // ----- Padding

  /** Puts `pads[i]` spaces before the i-th marker; the markers stay. */
  function PadWith(pads: seq<nat>, block: seq<Token>): seq<Token>
    requires |pads| == |Columns(0, block)|
    decreases |block|
  {
    if block == [] then []
    else
      MarkerCount(0, block);
      if block[0].AlignmentMarker? then
        Repeat(Whitespace, pads[0]) + [AlignmentMarker] + PadWith(pads[1..], block[1..])
      else [block[0]] + PadWith(pads, block[1..])
  }

  /** The number of markers does not depend on the column at which a block starts. */
  lemma {:induction false} ColumnsCount(c: nat, d: nat, block: seq<Token>)
    ensures |Columns(c, block)| == |Columns(d, block)|
    decreases |block|
  {
    if block != [] {
      ColumnsCount(Advance(c, block[0]), Advance(d, block[0]), block[1..]);
    }
  }

  lemma MarkerCount(c: nat, block: seq<Token>)
    requires block != []
    ensures |Columns(c, block)| == (if block[0].AlignmentMarker? then 1 else 0) + |Columns(c, block[1..])|
  {
    ColumnsCount(Advance(c, block[0]), c, block[1..]);
  }

  function Unmark(ts: seq<Token>): seq<Token> {
    if ts == [] then []
    else if ts[0].AlignmentMarker? then Unmark(ts[1..])
    else [ts[0]] + Unmark(ts[1..])
  }

  /** What each marker lacks to reach the column `max`. */
  function Lacking(max: nat, columns: seq<nat>): (pads: seq<nat>)
    requires forall i :: 0 <= i < |columns| ==> columns[i] <= max
    ensures |pads| == |columns|
    ensures forall i :: 0 <= i < |columns| ==> pads[i] == max - columns[i]
  {
    seq(|columns|, i requires 0 <= i < |columns| => max - columns[i])
  }

  /** The block with its markers aligned, markers included. */
  function Aligned(block: seq<Token>): seq<Token> {
    var columns := Columns(0, block);
    PadWith(Lacking(Max(columns), columns), block)
  }

  // ----- The stream

  /** The tokens up to the end of the block, or all of them if it is not closed. */
  function Block(ts: seq<Token>): seq<Token> {
    if ts == [] || ts[0] == AlignmentBlockEnd then [] else [ts[0]] + Block(ts[1..])
  }

  /** What follows the end of the block. */
  function AfterBlock(ts: seq<Token>): (rest: seq<Token>)
    ensures |rest| <= |ts|
  {
    if ts == [] then []
    else if ts[0] == AlignmentBlockEnd then ts[1..]
    else AfterBlock(ts[1..])
  }

  function Flow(ts: seq<Token>): seq<Token>
    decreases |ts|
  {
    if ts == [] then []
    else if ts[0] == AlignmentBlockBegin then
      Unmark(Aligned(Block(ts[1..]))) + Flow(AfterBlock(ts[1..]))
    else [ts[0]] + Flow(ts[1..])
  }

  /** Blocks are neither nested nor, markers aside, empty. */
  datatype Place = Outside | Empty | Filled

  predicate Bracketed(p: Place, ts: seq<Token>)
    decreases |ts|
  {
    ts == [] || (Allowed(p, ts[0]) && Bracketed(Enter(p, ts[0]), ts[1..]))
  }

  predicate Allowed(p: Place, t: Token) {
    && (t == AlignmentBlockBegin ==> p == Outside)
    && (t == AlignmentBlockEnd ==> p != Empty)
  }

  function Enter(p: Place, t: Token): Place {
    match p
    case Outside => if t == AlignmentBlockBegin then Empty else Outside
    case _ => if t == AlignmentBlockEnd then Outside else if t == AlignmentMarker then p else Filled
  }

  // ----- The markers of a block are at the same column

  /** A marker comes before the next newline. */
  predicate MarkerOnLine(block: seq<Token>) {
    block != [] && !block[0].Newline? && (block[0].AlignmentMarker? || MarkerOnLine(block[1..]))
  }

  /** Each marker that another one follows on its line is at the column `max`. */
  predicate Straight(max: nat, column: nat, block: seq<Token>)
    decreases |block|
  {
    block == [] || (
      && (block[0].AlignmentMarker? && MarkerOnLine(block[1..]) ==> column == max)
      && Straight(max, Advance(column, block[0]), block[1..])
    )
  }

  ghost predicate AllAt(column: nat, columns: seq<nat>) {
    forall i :: 0 <= i < |columns| ==> columns[i] == column
  }

  lemma ColumnsCons(column: nat, t: Token, ts: seq<Token>)
    ensures Columns(column, [t] + ts) ==
            (if t.AlignmentMarker? then [column] else []) + Columns(Advance(column, t), ts)
  {
    assert ([t] + ts)[1..] == ts;
  }

  lemma {:induction false} ColumnsAfterSpaces(column: nat, n: nat, ts: seq<Token>)
    ensures Columns(column, Repeat(Whitespace, n) + ts) == Columns(column + n, ts)
    decreases n
  {
    var all := Repeat(Whitespace, n) + ts;
    if n == 0 {
      assert all == ts;
    } else {
      assert all[0] == Whitespace && all[1..] == Repeat(Whitespace, n - 1) + ts;
      ColumnsAfterSpaces(column + 1, n - 1, ts);
    }
  }

  ghost predicate Reach(max: nat, column: nat, pads: seq<nat>, block: seq<Token>) {
    && |pads| == |Columns(0, block)| == |Columns(column, block)|
    && forall i :: 0 <= i < |pads| ==> Columns(column, block)[i] + pads[i] == max
  }

  /** Padding moves the first marker of a line to `max`, plus what earlier padding added. */
  lemma {:induction false} PadColumns(max: nat, column: nat, shift: nat, pads: seq<nat>, block: seq<Token>)
    requires Reach(max, column, pads, block)
    ensures AllAt(max, Columns(column + shift, PadWith(pads, block))) <==>
            (MarkerOnLine(block) ==> shift == 0) && Straight(max, column, block)
    decreases |block|
  {
    hide AllAt, AsBytes, Repeat, Columns, PadWith;
    if block == [] {
      ColumnsNil();
      PadNil(column, pads, block);
      AllAtNil(max, []);
    } else {
      var t, rest := block[0], block[1..];
      if t.AlignmentMarker? {
        PadMarker(max, column, shift, pads, block);
        PadColumns(max, column, shift + pads[0], pads[1..], rest);
        AllAtCons(max, max + shift, Columns(max + shift, PadWith(pads[1..], rest)));
      } else {
        PadOther(max, column, shift, pads, block);
        PadColumns(max, Advance(column, t), if t.Newline? then 0 else shift, pads, rest);
      }
    }
  }

  lemma PadNil(column: nat, pads: seq<nat>, block: seq<Token>)
    requires block == [] && |pads| == |Columns(0, block)|
    ensures PadWith(pads, block) == []
  {}

  lemma PadMarker(max: nat, column: nat, shift: nat, pads: seq<nat>, block: seq<Token>)
    requires Reach(max, column, pads, block) && block != [] && block[0].AlignmentMarker?
    ensures pads != [] && column + pads[0] == max && Reach(max, column, pads[1..], block[1..])
    ensures Columns(column + shift, PadWith(pads, block)) ==
            [max + shift] + Columns(max + shift, PadWith(pads[1..], block[1..]))
  {
    hide AsBytes, Repeat;
    var rest := block[1..];
    ColumnsCount(column, 0, rest);
    assert block == [AlignmentMarker] + rest;
    ColumnsCons(column, AlignmentMarker, rest);
    ColumnsCons(0, AlignmentMarker, rest);
    hide Columns;
    assert forall i :: 0 <= i < |Columns(column, rest)| ==> Columns(column, rest)[i] == Columns(column, block)[i + 1];
    var n, tail := pads[0], PadWith(pads[1..], rest);
    ColumnsAfterSpaces(column + shift, n, [AlignmentMarker] + tail);
    ColumnsCons(max + shift, AlignmentMarker, tail);
    Assoc(Repeat(Whitespace, n), [AlignmentMarker], tail);
  }

  lemma PadOther(max: nat, column: nat, shift: nat, pads: seq<nat>, block: seq<Token>)
    requires Reach(max, column, pads, block) && block != [] && !block[0].AlignmentMarker?
    ensures Reach(max, Advance(column, block[0]), pads, block[1..])
    ensures Columns(column + shift, PadWith(pads, block)) ==
            Columns(Advance(column + shift, block[0]), PadWith(pads, block[1..]))
  {
    hide AsBytes;
    var t, rest := block[0], block[1..];
    ColumnsCount(Advance(column, t), 0, rest);
    assert block == [t] + rest;
    ColumnsCons(column, t, rest);
    ColumnsCons(0, t, rest);
    ColumnsCount(Advance(0, t), 0, rest);
    ColumnsCons(column + shift, t, PadWith(pads, rest));
    hide Columns;
    assert [] + Columns(Advance(column, t), rest) == Columns(Advance(column, t), rest);
    var all := Columns(Advance(column + shift, t), PadWith(pads, rest));
    assert [] + all == all;
  }

  lemma AllAtNil(max: nat, columns: seq<nat>)
    requires columns == []
    ensures AllAt(max, columns)
  {}

  lemma AllAtCons(max: nat, c: nat, columns: seq<nat>)
    ensures AllAt(max, [c] + columns) <==> c == max && AllAt(max, columns)
  {
    if AllAt(max, [c] + columns) {
      assert ([c] + columns)[0] == c;
      forall i | 0 <= i < |columns| ensures columns[i] == max {
        assert ([c] + columns)[i + 1] == columns[i];
      }
    }
  }

  /**
   In the output all markers of a block are at the largest of their columns,
   exactly if no marker short of that column is followed by another on its line.
   */
  lemma MarkersAligned(block: seq<Token>)
    ensures
      var max := Max(Columns(0, block));
      AllAt(max, Columns(0, Aligned(block))) <==> Straight(max, 0, block)
  {
    hide AllAt, Straight, MarkerOnLine, Columns, PadWith, Max, Lacking;
    var columns := Columns(0, block);
    PadColumns(Max(columns), 0, 0, Lacking(Max(columns), columns), block);
  }

  /** No line has two markers. */
  predicate OnePerLine(block: seq<Token>) {
    block == [] || ((block[0].AlignmentMarker? ==> !MarkerOnLine(block[1..])) && OnePerLine(block[1..]))
  }

  lemma {:induction false} OnePerLineIsStraight(max: nat, column: nat, block: seq<Token>)
    requires OnePerLine(block)
    ensures Straight(max, column, block)
    decreases |block|
  {
    if block != [] {
      OnePerLineIsStraight(max, Advance(column, block[0]), block[1..]);
    }
  }

  /** Two markers on a line are not aligned when text stands between them. */
  lemma TwoOnALineAreNotAligned()
    ensures
      var block := [AlignmentMarker, EQUAL, AlignmentMarker];
      !AllAt(Max(Columns(0, block)), Columns(0, Aligned(block)))
  {
    var marker, block := [AlignmentMarker], [AlignmentMarker, EQUAL, AlignmentMarker];
    var rest := [EQUAL, AlignmentMarker];
    assert block[1..] == rest && rest[1..] == marker && marker[1..] == [];
    assert Columns(1, marker) == [1] && Columns(0, rest) == [1] && Columns(0, block) == [0, 1];
    assert MarkerOnLine(rest);
    MarkersAligned(block);
    assert [0, 1][1] == 1;
  }

  /** Each column of `after` is at least the one of `before`. */
  predicate NotLeft(before: seq<nat>, after: seq<nat>) {
    |before| == |after| && forall i :: 0 <= i < |before| ==> before[i] <= after[i]
  }

  lemma NotLeftCons(b: nat, before: seq<nat>, a: nat, after: seq<nat>)
    requires b <= a && NotLeft(before, after)
    ensures NotLeft([b] + before, [a] + after)
  {}

  lemma NothingNotLeft()
    ensures NotLeft([], [])
  {}

  /** Whatever the padding, markers only move to the right. */
  lemma {:induction false} PaddingMovesRight(pads: seq<nat>, block: seq<Token>, c: nat, d: nat)
    requires |pads| == |Columns(0, block)| && c <= d
    ensures NotLeft(Columns(c, block), Columns(d, PadWith(pads, block)))
    decreases |block|
  {
    hide AsBytes, Columns, Repeat, NotLeft;
    if block == [] {
      ColumnsNil();
      NothingNotLeft();
    } else {
      var t, rest := block[0], block[1..];
      MarkerCount(0, block);
      assert block == [t] + rest;
      ColumnsCons(c, t, rest);
      if t.AlignmentMarker? {
        var tail := PadWith(pads[1..], rest);
        assert PadWith(pads, block) == Repeat(Whitespace, pads[0]) + ([AlignmentMarker] + tail);
        ColumnsAfterSpaces(d, pads[0], [AlignmentMarker] + tail);
        ColumnsCons(d + pads[0], AlignmentMarker, tail);
        PaddingMovesRight(pads[1..], rest, c, d + pads[0]);
        NotLeftCons(c, Columns(c, rest), d + pads[0], Columns(d + pads[0], tail));
      } else {
        var tail := PadWith(pads, rest);
        ColumnsCons(d, t, tail);
        PaddingMovesRight(pads, rest, Advance(c, t), Advance(d, t));
        assert [] + Columns(Advance(c, t), rest) == Columns(Advance(c, t), rest);
        assert [] + Columns(Advance(d, t), tail) == Columns(Advance(d, t), tail);
      }
    }
  }

  /** The column chosen is the least at which padding can align the markers. */
  lemma ColumnIsLeast(pads: seq<nat>, block: seq<Token>, column: nat)
    requires |pads| == |Columns(0, block)| && Columns(0, block) != []
    requires AllAt(column, Columns(0, PadWith(pads, block)))
    ensures Max(Columns(0, block)) <= column
  {
    PaddingMovesRight(pads, block, 0, 0);
    var columns := Columns(0, block);
    var i :| 0 <= i < |columns| && columns[i] == Max(columns);
  }

  // ----- What alignment keeps

  lemma {:induction false} PaddingPreserves<X>(f: Token -> seq<X>, pads: seq<nat>, block: seq<Token>)
    requires f(Whitespace) == [] && f(AlignmentMarker) == []
    requires |pads| == |Columns(0, block)|
    ensures FlatMap(f, Unmark(PadWith(pads, block))) == FlatMap(f, block)
    decreases |block|
  {
    if block != [] {
      var t, rest := block[0], block[1..];
      MarkerCount(0, block);
      if t.AlignmentMarker? {
        var spaces, tail := Repeat(Whitespace, pads[0]), PadWith(pads[1..], rest);
        PaddingPreserves(f, pads[1..], rest);
        UnmarkMarker(pads[0], tail);
        FlatMapNothing(f, spaces);
        FlatMapConcat(f, spaces, Unmark(tail));
        assert [] + FlatMap(f, Unmark(tail)) == FlatMap(f, Unmark(tail));
      } else {
        var tail := PadWith(pads, rest);
        PaddingPreserves(f, pads, rest);
        assert ([t] + tail)[1..] == tail;
        FlatMapConcat(f, [t], Unmark(tail));
        FlatMapOne(f, t);
      }
    }
  }

  lemma {:induction false} UnmarkConcat(a: seq<Token>, b: seq<Token>)
    ensures Unmark(a + b) == Unmark(a) + Unmark(b)
  {
    if a == [] {
      assert a + b == b;
    } else {
      assert (a + b)[1..] == a[1..] + b;
      UnmarkConcat(a[1..], b);
    }
  }

  lemma {:induction false} UnmarkNone(ts: seq<Token>)
    requires AlignmentMarker !in ts
    ensures Unmark(ts) == ts
  {
    if ts != [] {
      UnmarkNone(ts[1..]);
    }
  }

  lemma {:induction false} FlowPreserves<X>(f: Token -> seq<X>, ts: seq<Token>)
    requires f(Whitespace) == [] && f(AlignmentMarker) == []
    requires f(AlignmentBlockBegin) == [] && f(AlignmentBlockEnd) == []
    ensures FlatMap(f, Flow(ts)) == FlatMap(f, ts)
    decreases |ts|
  {
    if ts != [] {
      var t, rest := ts[0], ts[1..];
      if t == AlignmentBlockBegin {
        var block, after := Block(rest), AfterBlock(rest);
        var columns := Columns(0, block);
        PaddingPreserves(f, Lacking(Max(columns), columns), block);
        FlowPreserves(f, after);
        FlatMapConcat(f, Unmark(Aligned(block)), Flow(after));
        SplitAtBlockEnd(f, rest);
      } else {
        FlowPreserves(f, rest);
        FlatMapConcat(f, [t], Flow(rest));
        FlatMapOne(f, t);
      }
    }
  }

  lemma {:induction false} SplitAtBlockEnd<X>(f: Token -> seq<X>, ts: seq<Token>)
    requires f(AlignmentBlockEnd) == []
    ensures FlatMap(f, ts) == FlatMap(f, Block(ts)) + FlatMap(f, AfterBlock(ts))
  {
    if ts != [] && ts[0] != AlignmentBlockEnd {
      SplitAtBlockEnd(f, ts[1..]);
      FlatMapConcat(f, [ts[0]], Block(ts[1..]));
      FlatMapOne(f, ts[0]);
    }
  }

  // ----- No block is nested or empty

  predicate HasText(block: seq<Token>) {
    exists i :: 0 <= i < |block| && !block[i].AlignmentMarker?
  }

  lemma HasTextCons(t: Token, block: seq<Token>)
    ensures HasText([t] + block) <==> !t.AlignmentMarker? || HasText(block)
  {
    var all := [t] + block;
    assert all[0] == t;
    if HasText(block) {
      var i :| 0 <= i < |block| && !block[i].AlignmentMarker?;
      assert all[i + 1] == block[i];
    }
    if i :| 0 <= i < |all| && !all[i].AlignmentMarker? {
      assert i > 0 ==> block[i - 1] == all[i];
    }
  }

  lemma {:induction false} BracketedBlock(p: Place, ts: seq<Token>)
    requires p != Outside && Bracketed(p, ts)
    ensures Bracketed(Outside, AfterBlock(ts))
    ensures p == Filled || AfterBlock(ts) == [] || HasText(Block(ts))
    decreases |ts|
  {
    if ts != [] && ts[0] != AlignmentBlockEnd {
      var rest := Block(ts[1..]);
      BracketedBlock(Enter(p, ts[0]), ts[1..]);
      assert Block(ts) == [ts[0]] + rest && AfterBlock(ts) == AfterBlock(ts[1..]);
      HasTextCons(ts[0], rest);
    }
  }

  lemma ColumnsNil()
    ensures forall c :: Columns(c, []) == []
  {}

  lemma PadStep(pads: seq<nat>, block: seq<Token>)
    requires block != [] && |pads| == |Columns(0, block)|
    ensures |Columns(0, block)| == (if block[0].AlignmentMarker? then 1 else 0) + |Columns(0, block[1..])|
    ensures Unmark(PadWith(pads, block)) ==
            if block[0].AlignmentMarker? then Repeat(Whitespace, pads[0]) + Unmark(PadWith(pads[1..], block[1..]))
            else [block[0]] + Unmark(PadWith(pads, block[1..]))
  {
    MarkerCount(0, block);
    if block[0].AlignmentMarker? {
      UnmarkMarker(pads[0], PadWith(pads[1..], block[1..]));
    } else {
      var tail := PadWith(pads, block[1..]);
      assert ([block[0]] + tail)[1..] == tail;
    }
  }

  lemma {:induction false} PaddedIsNotEmpty(pads: seq<nat>, block: seq<Token>, t: Token)
    requires |pads| == |Columns(0, block)|
    requires t in block && t != AlignmentMarker
    ensures Unmark(PadWith(pads, block)) != []
    decreases |block|
  {
    MarkerCount(0, block);
    if block[0].AlignmentMarker? {
      PaddedIsNotEmpty(pads[1..], block[1..], t);
      UnmarkMarker(pads[0], PadWith(pads[1..], block[1..]));
    }
  }

  lemma UnmarkMarker(n: nat, tail: seq<Token>)
    ensures Unmark(Repeat(Whitespace, n) + [AlignmentMarker] + tail) == Repeat(Whitespace, n) + Unmark(tail)
  {
    var spaces := Repeat(Whitespace, n);
    UnmarkConcat(spaces, [AlignmentMarker] + tail);
    UnmarkNone(spaces);
    assert spaces + [AlignmentMarker] + tail == spaces + ([AlignmentMarker] + tail);
    assert ([AlignmentMarker] + tail)[1..] == tail;
  }

  class Align {
    var input: seq<Token>
    var outputBuffer: seq<Token>

    ghost predicate Valid()
      reads this
    {
      Bracketed(Outside, input)
    }

    /** Everything that the iterator will still return. */
    ghost function Remaining(): seq<Token>
      reads this
    {
      outputBuffer + Flow(input)
    }

    constructor (input: seq<Token>)
      requires Bracketed(Outside, input)
      ensures Valid() && Remaining() == Flow(input)
    {
      this.input := input;
      outputBuffer := [];
      new;
      hide Flow, Bracketed;
      assert [] + Flow(input) == Flow(input);
    }

    method Next() returns (r: Option<Token>)
      requires Valid()
      modifies this
      ensures Valid()
      ensures r.Some? ==> old(Remaining()) == [r.value] + Remaining()
      ensures r.None? ==> old(Remaining()) == [] && Remaining() == []
    {
      hide Aligned;
      hide Unmark;
      if outputBuffer != [] {
        r := PopOutput();
        return;
      }
      if input == [] {
        return None;
      }
      var next := input[0];
      input := input[1..];
      if next == AlignmentBlockBegin {
        ghost var rest := input;
        BracketedBlock(Empty, rest);
        var block, columns := ReadBlock();
        PadBlock(block, columns);
        assert old(Flow(input)) == Unmark(Aligned(block)) + Flow(input);
        if outputBuffer == [] {
          assert Unmark(Aligned(block)) == [];
          NothingAfterEmptyBlock(rest);
          return None;
        }
        r := PopOutput();
      } else {
        r := Some(next);
      }
    }

    /** Reads tokens up to the end of the block, with the columns of its markers. */
    method ReadBlock() returns (block: seq<Token>, columns: seq<nat>)
      requires Bracketed(Empty, input)
      modifies this`input
      ensures block == old(Block(input)) && columns == Columns(0, block)
      ensures input == old(AfterBlock(input))
    {
      ColumnsNil();
      hide AsBytes, Columns;
      ghost var place, all, columnsOfAll := Empty, Block(input), Columns(0, Block(input));
      var column: nat := 0;
      block, columns := [], [];
      while input != []
        invariant place != Outside && Bracketed(place, input)
        invariant block + Block(input) == all
        invariant columns + Columns(column, Block(input)) == columnsOfAll
        invariant AfterBlock(input) == old(AfterBlock(input))
        decreases |input|
      {
        var token := input[0];
        assert token != AlignmentBlockBegin;
        if token == AlignmentBlockEnd {
          input := input[1..];
          return;
        }
        ColumnsCons(column, token, Block(input[1..]));
        Assoc(block, [token], Block(input[1..]));
        Assoc(columns, if token ==
            AlignmentMarker then [column] else [], Columns(Advance(column, token), Block(input[1..])));
        input := input[1..];
        if token == AlignmentMarker {
          columns := columns + [column];
        } else if token.Newline? {
          column := 0;
        } else {
          column := column + |AsBytes(token)|;
        }
        block := block + [token];
        place := Enter(place, token);
      }
    }

    /** Moves a block to the output, replacing its markers by spaces. */
    method PadBlock(block: seq<Token>, columns: seq<nat>)
      requires columns == Columns(0, block)
      modifies this`outputBuffer
      ensures outputBuffer == old(outputBuffer) + Unmark(Aligned(block))
    {
      assert Unmark(PadWith([], [])) == [];
      ColumnsNil();
      hide PadWith, Unmark, Columns, AsBytes, Repeat, Max;
      var maxColumn := Max(columns);
      var markerIndex := 0;
      ghost var target, pads := outputBuffer + Unmark(Aligned(block)), Lacking(maxColumn, columns);
      for i := 0 to |block|
        invariant markerIndex <= |columns| && |columns| - markerIndex == |Columns(0, block[i..])|
        invariant outputBuffer + Unmark(PadWith(pads[markerIndex..], block[i..])) == target
      {
        PadStep(pads[markerIndex..], block[i..]);
        assert block[i..][1..] == block[i + 1..];
        if block[i] == AlignmentMarker {
          assert pads[markerIndex..][0] == maxColumn - columns[markerIndex] &&
            pads[markerIndex..][1..] == pads[markerIndex + 1..];
          Assoc(outputBuffer, Repeat(Whitespace, pads[markerIndex]),
              Unmark(PadWith(pads[markerIndex + 1..], block[i + 1..])));
          PushSpaces(maxColumn - columns[markerIndex]);
          markerIndex := markerIndex + 1;
        } else {
          Assoc(outputBuffer, [block[i]], Unmark(PadWith(pads[markerIndex..], block[i + 1..])));
          outputBuffer := outputBuffer + [block[i]];
        }
      }
    }

    method PushSpaces(n: nat)
      modifies this`outputBuffer
      ensures outputBuffer == old(outputBuffer) + Repeat(Whitespace, n)
    {
      for i := 0 to n
        invariant outputBuffer == old(outputBuffer) + Repeat(Whitespace, i)
      {
        assert Repeat(Whitespace, i + 1) == Repeat(Whitespace, i) + [Whitespace];
        outputBuffer := outputBuffer + [Whitespace];
      }
    }

    method PopOutput() returns (r: Option<Token>)
      requires outputBuffer != []
      modifies this`outputBuffer
      ensures r.Some? && old(Remaining()) == [r.value] + Remaining()
    {
      r := Some(outputBuffer[0]);
      assert outputBuffer == [outputBuffer[0]] + outputBuffer[1..];
      outputBuffer := outputBuffer[1..];
    }
  }

  lemma NothingAfterEmptyBlock(rest: seq<Token>)
    requires Bracketed(Empty, rest)
    requires Unmark(Aligned(Block(rest))) == []
    ensures AfterBlock(rest) == []
  {
    BracketedBlock(Empty, rest);
    var block := Block(rest);
    var columns := Columns(0, block);
    if i :| 0 <= i < |block| && !block[i].AlignmentMarker? {
      PaddedIsNotEmpty(Lacking(Max(columns), columns), block, block[i]);
    }
  }
}
