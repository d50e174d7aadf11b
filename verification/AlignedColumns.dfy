/**
 Where aligned marks stand in the text that is written. The alignment counts
 columns from the start of a block, leaves out comments and counts strings of
 several lines by their length, so the written column of a mark differs from the
 one it was aligned to.
 */
module AlignedColumns {
  import opened Seqs
  import opened Tokens
  import opened Alignment
  import opened Writer

  /** The written columns of the marks of a block that comes after `before`. */
  function MarkColumns(before: seq<Token>, block: seq<Token>): seq<nat>
    decreases |block|
  {
    if block == [] then []
    else
      (if block[0].AlignmentMarker? then [Column(Written(before))] else [])
      + MarkColumns(before + [block[0]], block[1..])
  }

  /**
   What makes each mark of an aligned block reach beyond the column `max` that
   it is aligned to: `extra` is what is not counted on its line, that is what
   comes before the block on its first line and what the padding of earlier marks
   adds, and `overhang` is what the written text reaches further.
   */
  function Excesses(max: nat, extra: nat, column: nat, overhang: int, block: seq<Token>): seq<int>
    decreases |block|
  {
    if block == [] then []
    else
      var t, rest := block[0], block[1..];
      if t.AlignmentMarker? then
        [extra + overhang] + Excesses(max, if column <= max then extra + max - column else extra, column, overhang,
            rest)
      else if t.Newline? then Excesses(max, 0, 0, 0, rest)
      else Excesses(max, extra, Advance(column, t), OverhangAfter(overhang, extra + column, t), rest)
  }

  /** The same without the padding of other marks, which matters only for the next mark on the line. */
  function Uncounted(extra: nat, column: nat, overhang: int, block: seq<Token>): seq<int>
    decreases |block|
  {
    if block == [] then []
    else
      var t, rest := block[0], block[1..];
      if t.AlignmentMarker? then [extra + overhang] + Uncounted(extra, column, overhang, rest)
      else if t.Newline? then Uncounted(0, 0, 0, rest)
      else Uncounted(extra, Advance(column, t), OverhangAfter(overhang, extra + column, t), rest)
  }

  // ----- The written columns of a padded block

  lemma WriteOneMore(before: seq<Token>, t: Token)
    ensures |Write(before + [t]).indent| == if t.Newline? then 0 else |Write(before).indent| + |AsBytes(t)|
    ensures Overhang(before + [t]) == OverhangAfter(Overhang(before), |Write(before).indent|, t)
  {
    assert (before + [t])[..|before|] == before;
  }

  lemma MarkColumnsCons(before: seq<Token>, t: Token, rest: seq<Token>)
    ensures MarkColumns(before, [t] + rest)
         == (if t.AlignmentMarker? then [Column(Written(before))] else []) + MarkColumns(before + [t], rest)
  {
    assert ([t] + rest)[1..] == rest;
  }

  lemma {:induction false} SpacesMove(before: seq<Token>, n: nat, ts: seq<Token>)
    ensures
      var after := before + Repeat(Whitespace, n);
      && MarkColumns(before, Repeat(Whitespace, n) + ts) == MarkColumns(after, ts)
      && |Write(after).indent| == |Write(before).indent| + n && Overhang(after) == Overhang(before)
    decreases n
  {
    if n == 0 {
      assert before + Repeat(Whitespace, 0) == before && Repeat(Whitespace, 0) + ts == ts;
    } else {
      hide Write, Overhang, MarkColumns;
      var more := before + [Whitespace];
      RepeatMore(Whitespace, n);
      Assoc([Whitespace], Repeat(Whitespace, n - 1), ts);
      Assoc(before, [Whitespace], Repeat(Whitespace, n - 1));
      MarkColumnsCons(before, Whitespace, Repeat(Whitespace, n - 1) + ts);
      assert [] + MarkColumns(more, Repeat(Whitespace, n - 1) + ts) ==
        MarkColumns(more, Repeat(Whitespace, n - 1) + ts);
      WriteOneMore(before, Whitespace);
      SpacesMove(more, n - 1, ts);
    }
  }

  lemma RepeatMore<T>(x: T, n: nat)
    requires n > 0
    ensures Repeat(x, n) == [x] + Repeat(x, n - 1)
  {}

  /** The written columns of the marks of a block that is padded by `pads`. */
  function MarksAt(extra: nat, column: nat, overhang: int, pads: seq<nat>, block: seq<Token>): seq<int>
    requires |pads| == |Columns(0, block)|
    decreases |block|
  {
    if block == [] then []
    else
      var t, rest := block[0], block[1..];
      MarkerCount(0, block);
      if t.AlignmentMarker? then
        [extra + column + pads[0] + overhang] + MarksAt(extra + pads[0], column, overhang, pads[1..], rest)
      else if t.Newline? then MarksAt(0, 0, 0, pads, rest)
      else MarksAt(extra, Advance(column, t), OverhangAfter(overhang, extra + column, t), pads, rest)
  }

  lemma {:induction false} PaddedMarks(before: seq<Token>, extra: nat, column: nat, pads: seq<nat>, block: seq<Token>)
    requires |pads| == |Columns(0, block)| && |Write(before).indent| == extra + column
    ensures MarkColumns(before, PadWith(pads, block)) == MarksAt(extra, column, Overhang(before), pads, block)
    decreases |block|
  {
    hide Write, Overhang, Column, MarkColumns, Columns, Repeat, OverhangAfter;
    if block == [] {
      NoMarks(before);
    } else {
      var t, rest := block[0], block[1..];
      MarkerCount(0, block);
      if t.AlignmentMarker? {
        PaddedMark(before, pads[0], PadWith(pads[1..], rest));
        var after := before + Repeat(Whitespace, pads[0]) + [t];
        PaddedMarks(after, extra + pads[0], column, pads[1..], rest);
      } else {
        var tail, after := PadWith(pads, rest), before + [t];
        MarkColumnsCons(before, t, tail);
        assert [] + MarkColumns(after, tail) == MarkColumns(after, tail);
        WriteOneMore(before, t);
        NewlineResets(Overhang(before), extra + column);
        PaddedMarks(after, if t.Newline? then 0 else extra, Advance(column, t), pads, rest);
      }
    }
  }

  lemma NewlineResets(overhang: int, indent: nat)
    ensures OverhangAfter(overhang, indent, Newline) == 0
  {}

  lemma PaddedMark(before: seq<Token>, n: nat, tail: seq<Token>)
    ensures
      var after := before + Repeat(Whitespace, n) + [AlignmentMarker];
      && MarkColumns(before, Repeat(Whitespace, n) + [AlignmentMarker] + tail) ==
         [|Write(before).indent| + n + Overhang(before)] + MarkColumns(after, tail)
      && |Write(after).indent| == |Write(before).indent| + n && Overhang(after) == Overhang(before)
  {
    hide Write, Overhang, Column, MarkColumns, Repeat;
    var spaced := before + Repeat(Whitespace, n);
    Assoc(Repeat(Whitespace, n), [AlignmentMarker], tail);
    SpacesMove(before, n, [AlignmentMarker] + tail);
    MarkColumnsCons(spaced, AlignmentMarker, tail);
    ColumnExactly(spaced);
    WriteOneMore(spaced, AlignmentMarker);
  }

  lemma NoMarks(before: seq<Token>)
    ensures MarkColumns(before, []) == []
  {}

  // ----- Aligned blocks

  /** Padding to the column `max` puts each mark there, and as much further as its excess. */
  lemma {:induction false} AlignedMarks(
      max: nat, extra: nat, column: nat, overhang: int, pads: seq<nat>, block: seq<Token>)
    requires Reach(max, column, pads, block)
    ensures
      var marks, excesses := MarksAt(extra, column, overhang, pads, block),
          Excesses(max, extra, column, overhang, block);
      && |marks| == |excesses| == |pads|
      && forall i :: 0 <= i < |pads| ==> marks[i] == max + excesses[i]
    decreases |block|
  {
    hide Columns, PadWith, AsBytes, OverhangAfter;
    if block == [] {
      ColumnsNil();
    } else {
      var t, rest := block[0], block[1..];
      if t.AlignmentMarker? {
        PadMarker(max, column, 0, pads, block);
        AlignedMarks(max, extra + pads[0], column, overhang, pads[1..], rest);
      } else {
        PadOther(max, column, 0, pads, block);
        if t.Newline? {
          AlignedMarks(max, 0, 0, 0, pads, rest);
        } else {
          AlignedMarks(max, extra, Advance(column, t), OverhangAfter(overhang, extra + column, t), pads, rest);
        }
      }
    }
  }

  ghost predicate Equal(ns: seq<int>) { forall i, j :: 0 <= i < |ns| && 0 <= j < |ns| ==> ns[i] == ns[j] }

  lemma {:induction false} CountOfMarks(max: nat, extra: nat, column: nat, overhang: int, c: nat, block: seq<Token>)
    ensures |Excesses(max, extra, column, overhang, block)| == |Columns(c, block)|
    ensures |Uncounted(extra, column, overhang, block)| == |Columns(c, block)|
    decreases |block|
  {
    if block != [] {
      var t := block[0];
      var next := if column <= max then extra + max - column else extra;
      if t.AlignmentMarker? {
        CountOfMarks(max, next, column, overhang, c, block[1..]);
        CountOfMarks(max, extra, column, overhang, c, block[1..]);
      } else if t.Newline? {
        CountOfMarks(max, 0, 0, 0, 0, block[1..]);
      } else {
        CountOfMarks(max, extra, Advance(column, t), OverhangAfter(overhang, extra + column, t), Advance(c, t),
            block[1..]);
      }
    }
  }

  /** What is not counted before the marks of a block that comes after `before`, padding aside. */
  function UncountedAfter(before: seq<Token>, block: seq<Token>): (r: seq<int>)
    ensures |r| == |Columns(0, block)|
  {
    CountOfMarks(0, |Write(before).indent|, 0, Overhang(before), 0, block);
    Uncounted(|Write(before).indent|, 0, Overhang(before), block)
  }

  /** What makes the i-th mark of a block stand beyond the column to which it is aligned. */
  function Excess(before: seq<Token>, block: seq<Token>, i: nat): int
    requires i < |Columns(0, block)|
  {
    CountOfMarks(Max(Columns(0, block)), |Write(before).indent|, 0, Overhang(before), 0, block);
    Excesses(Max(Columns(0, block)), |Write(before).indent|, 0, Overhang(before), block)[i]
  }

  /** The written column of every mark of an aligned block, whatever comes before the block. */
  lemma WrittenColumns(before: seq<Token>, block: seq<Token>)
    ensures
      var columns, written := Columns(0, block), MarkColumns(before, Aligned(block));
      |written| == |columns| && forall i :: 0 <= i < |columns| ==> written[i] == Max(columns) + Excess(before, block, i)
  {
    hide PadWith, Columns, Excesses, MarkColumns, MarksAt, Write, Overhang, Max;
    var columns := Columns(0, block);
    var pads := Lacking(Max(columns), columns);
    PaddedMarks(before, |Write(before).indent|, 0, pads, block);
    AlignedMarks(Max(columns), |Write(before).indent|, 0, Overhang(before), pads, block);
  }

  /**
   The marks of a block share a written column exactly if the same excess comes
   before each of them: comments, strings of several lines, padding of other
   marks on the line and, on the first line, what comes before the block.
   */
  lemma WrittenAlignedExactly(before: seq<Token>, block: seq<Token>)
    ensures
      var n := |Columns(0, block)|;
      Equal(MarkColumns(before, Aligned(block))) <==>
      forall i, j :: 0 <= i < n && 0 <= j < n ==> Excess(before, block, i) == Excess(before, block, j)
  {
    WrittenColumns(before, block);
    hide Aligned, MarkColumns, Excess, Max;
    var n, written := |Columns(0, block)|, MarkColumns(before, Aligned(block));
    if Equal(written) {
      forall i, j | 0 <= i < n && 0 <= j < n ensures Excess(before, block, i) == Excess(before, block, j) {
        assert written[i] == written[j];
      }
    }
  }

  // ----- One mark on each line

  lemma {:induction false} OnePerLineExcesses(
      max: nat, e: nat, f: nat, column: nat, overhang: int, other: int, block: seq<Token>)
    requires OnePerLine(block) && (MarkerOnLine(block) ==> e == f && overhang == other)
    ensures Excesses(max, e, column, overhang, block) == Uncounted(f, column, other, block)
    decreases |block|
  {
    if block != [] {
      var t, rest := block[0], block[1..];
      if t.AlignmentMarker? {
        OnePerLineExcesses(max, if column <= max then e + max - column else e, f, column, overhang, other, rest);
      } else if t.Newline? {
        OnePerLineExcesses(max, 0, 0, 0, 0, 0, rest);
      } else {
        hide OverhangAfter, AsBytes;
        OnePerLineExcesses(max, e, f, Advance(column, t), OverhangAfter(overhang, e + column, t),
          OverhangAfter(other, f + column, t), rest);
      }
    }
  }

  /** The excess of a mark that is alone on its line is what is not counted before it. */
  lemma OnePerLineExcess(before: seq<Token>, block: seq<Token>, i: nat)
    requires OnePerLine(block) && i < |Columns(0, block)|
    ensures Excess(before, block, i) == UncountedAfter(before, block)[i]
  {
    var extra, overhang := |Write(before).indent|, Overhang(before);
    OnePerLineExcesses(Max(Columns(0, block)), extra, extra, 0, overhang, overhang, block);
  }

  /** With one mark on each line: exactly if the same width that is not counted comes before the marks. */
  lemma OnePerLineAlignedExactly(before: seq<Token>, block: seq<Token>)
    requires OnePerLine(block)
    ensures Equal(MarkColumns(before, Aligned(block))) <==> Equal(UncountedAfter(before, block))
  {
    WrittenAlignedExactly(before, block);
    hide UncountedAfter, Columns, Aligned, MarkColumns, Excess;
    forall i | 0 <= i < |Columns(0, block)| ensures Excess(before, block, i) == UncountedAfter(before, block)[i] {
      OnePerLineExcess(before, block, i);
    }
  }

  lemma {:induction false} OnePerLineMarks(
      e: nat, f: nat, column: nat, overhang: int, other: int, pads: seq<nat>, block: seq<Token>)
    requires OnePerLine(block) && (MarkerOnLine(block) ==> e == f && overhang == other)
    requires |pads| == |Columns(0, block)|
    ensures
      var marks, uncounted := MarksAt(e, column, overhang, pads, block), Uncounted(f, column, other, block);
      && |marks| == |uncounted| == |Columns(column, block)| == |pads|
      && forall i :: 0 <= i < |pads| ==> marks[i] == Columns(column, block)[i] + pads[i] + uncounted[i]
    decreases |block|
  {
    hide OverhangAfter, AsBytes;
    if block != [] {
      var t, rest := block[0], block[1..];
      MarkerCount(0, block);
      ColumnsCount(0, column, block);
      if t.AlignmentMarker? {
        OnePerLineMarks(e + pads[0], f, column, overhang, other, pads[1..], rest);
      } else if t.Newline? {
        OnePerLineMarks(0, 0, 0, 0, 0, pads, rest);
      } else {
        OnePerLineMarks(e, f, Advance(column, t), OverhangAfter(overhang, e + column, t),
          OverhangAfter(other, f + column, t), pads, rest);
      }
    }
  }

  /** Then no other padding aligns them further to the left. */
  lemma WrittenColumnIsLeast(before: seq<Token>, block: seq<Token>, pads: seq<nat>, column: nat)
    requires OnePerLine(block) && Columns(0, block) != [] && Equal(UncountedAfter(before, block))
    requires |pads| == |Columns(0, block)| && AllAt(column, MarkColumns(before, PadWith(pads, block)))
    ensures MarkColumns(before, Aligned(block)) != [] && MarkColumns(before, Aligned(block))[0] <= column
  {
    var columns, extra, overhang := Columns(0, block), |Write(before).indent|, Overhang(before);
    var uncounted := UncountedAfter(before, block);
    PaddedMarks(before, extra, 0, pads, block);
    OnePerLineMarks(extra, extra, 0, overhang, overhang, pads, block);
    WrittenColumns(before, block);
    OnePerLineExcess(before, block, 0);
    hide Uncounted, Columns, Aligned, MarkColumns, MarksAt, Write, Overhang, PadWith, OnePerLine, Excess;
    var i :| 0 <= i < |columns| && columns[i] == Max(columns);
    assert MarkColumns(before, PadWith(pads, block))[i] == columns[i] + pads[i] + uncounted[i];
    assert uncounted[0] == uncounted[i];
  }

  const BLANK: seq<Token> := [Whitespace]
  const MARKED: seq<Token> := [AlignmentMarker, EQUAL]

  /** `$a  /*c*/ = ...` and `$b = ...`, spaced as the spacing rules do, with the marks before the equal signs. */
  const FIRST_LINE: seq<Token> := [Identifier("$a")] + BLANK + BLANK + [InlineComment(["/*c*/"])] + BLANK + MARKED
  const SECOND_LINE: seq<Token> := [Identifier("$b")] + BLANK + MARKED
  const COMMENTED: seq<Token> := FIRST_LINE + [Newline] + SECOND_LINE

  lemma Unfold(t: Token, rest: seq<Token>, column: nat, overhang: int)
    ensures Columns(column, [t] + rest) ==
            (if t.AlignmentMarker? then [column] else []) + Columns(Advance(column, t), rest)
    ensures Uncounted(0, column, overhang, [t] + rest) ==
            (if t.AlignmentMarker? then [overhang] else [])
            + Uncounted(0, Advance(column, t), OverhangAfter(overhang, column, t), rest)
    ensures MarkerOnLine([t] + rest) <==> !t.Newline? && (t.AlignmentMarker? || MarkerOnLine(rest))
    ensures OnePerLine([t] + rest) <==> (t.AlignmentMarker? ==> !MarkerOnLine(rest)) && OnePerLine(rest)
  {
    ColumnsCons(column, t, rest);
    assert ([t] + rest)[1..] == rest;
  }

  /** What is found in a part of a block: its columns and what is not counted, given one mark per line. */
  ghost predicate Found(column: nat, overhang: int, ts: seq<Token>, columns: seq<nat>, uncounted: seq<int>) {
    OnePerLine(ts) && Columns(column, ts) == columns && Uncounted(0, column, overhang, ts) == uncounted
  }

  lemma FoundOne(t: Token, rest: seq<Token>, column: nat, overhang: int, columns: seq<nat>, uncounted: seq<int>)
    requires !t.AlignmentMarker?
    requires Found(Advance(column, t), OverhangAfter(overhang, column, t), rest, columns, uncounted)
    ensures Found(column, overhang, [t] + rest, columns, uncounted)
  {
    hide Columns, Uncounted, OnePerLine, MarkerOnLine, Advance, OverhangAfter;
    Unfold(t, rest, column, overhang);
    assert [] + columns == columns && [] + uncounted == uncounted;
  }

  lemma FoundMark(rest: seq<Token>, column: nat, overhang: int, columns: seq<nat>, uncounted: seq<int>)
    requires Found(column, overhang, rest, columns, uncounted) && !MarkerOnLine(rest)
    ensures Found(column, overhang, [AlignmentMarker] + rest, [column] + columns, [overhang] + uncounted)
  {
    hide Columns, Uncounted, OnePerLine, MarkerOnLine;
    Unfold(AlignmentMarker, rest, column, overhang);
  }

  lemma FoundNothing(column: nat)
    ensures Found(column, 0, [], [], [])
  {}

  lemma SecondLineFound()
    ensures Found(0, 0, SECOND_LINE, [3], [0])
  {
    FoundNothing(3 + |AsBytes(EQUAL)|);
    var last := [EQUAL];
    assert last + [] == last && last[1..] == [] && !MarkerOnLine(last);
    assert [3] + [] == [3] && [0] + [] == [0];
    hide Found, MarkerOnLine;
    FoundOne(EQUAL, [], 3, 0, [], []);
    FoundMark(last, 3, 0, [], []);
    FoundOne(Whitespace, MARKED, 2, 0, [3], [0]);
    FoundOne(Identifier("$b"), BLANK + MARKED, 0, 0, [3], [0]);
    assert SECOND_LINE == [Identifier("$b")] + (BLANK + MARKED) && MARKED == [AlignmentMarker] + last;
  }

  lemma EndOfFirstLine()
    ensures Found(5, 5, MARKED + ([Newline] + SECOND_LINE), [5, 3], [5, 0])
  {
    SecondLineFound();
    var line := [Newline] + SECOND_LINE;
    var rest := [EQUAL] + line;
    assert rest[1..] == line && !MarkerOnLine(rest);
    hide Found, MarkerOnLine;
    FoundOne(Newline, SECOND_LINE, 6, 5, [3], [0]);
    FoundOne(EQUAL, line, 5, 5, [3], [0]);
    FoundMark(rest, 5, 5, [3], [0]);
    assert MARKED + line == [AlignmentMarker] + rest && [5] + [3] == [5, 3] && [5] + [0] == [5, 0];
  }

  lemma CommentedFound()
    ensures Found(0, 0, COMMENTED, [5, 3], [5, 0])
  {
    var end := MARKED + ([Newline] + SECOND_LINE);
    EndOfFirstLine();
    StartOfFirstLine(end, [5, 3], [5, 0]);
    hide Found;
    assert COMMENTED == [Identifier("$a")] + (BLANK + (BLANK + ([InlineComment(["/*c*/"])] + (BLANK + end))));
  }

  lemma StartWidths(a: Token, comment: Token)
    requires a == Identifier("$a") && comment == InlineComment(["/*c*/"])
    ensures Advance(0, a) == 2 && Advance(4, comment) == 4 && forall c: nat :: Advance(c, Whitespace) == c + 1
    ensures OverhangAfter(0, 0, a) == 0 && OverhangAfter(0, 4, comment) == 5
    ensures forall d: int, c: nat :: OverhangAfter(d, c, Whitespace) == d
  {
    assert AsBytes(a) == "$a";
  }

  lemma StartOfFirstLine(end: seq<Token>, columns: seq<nat>, uncounted: seq<int>)
    requires Found(5, 5, end, columns, uncounted)
    ensures Found(0, 0, [Identifier("$a")] + (BLANK + (BLANK + ([InlineComment(["/*c*/"])] + (BLANK + end)))),
        columns, uncounted)
  {
    var a, comment := Identifier("$a"), InlineComment(["/*c*/"]);
    StartWidths(a, comment);
    hide Found, Advance, OverhangAfter;
    FoundOne(Whitespace, end, 4, 5, columns, uncounted);
    FoundOne(comment, BLANK + end, 4, 0, columns, uncounted);
    FoundOne(Whitespace, [comment] + (BLANK + end), 3, 0, columns, uncounted);
    FoundOne(Whitespace, BLANK + ([comment] + (BLANK + end)), 2, 0, columns, uncounted);
    FoundOne(a, BLANK + (BLANK + ([comment] + (BLANK + end))), 0, 0, columns, uncounted);
  }

  /** A comment before one of two equal signs: each has one mark on its line, and they are not aligned. */
  lemma CommentBeforeMark()
    ensures OnePerLine(COMMENTED)
    ensures MarkColumns([], Aligned(COMMENTED)) == [10, 5]
  {
    CommentedFound();
    assert Write([]).indent == [] && Overhang([]) == 0;
    var columns := Columns(0, COMMENTED);
    WrittenColumns([], COMMENTED);
    OnePerLineExcess([], COMMENTED, 0);
    OnePerLineExcess([], COMMENTED, 1);
    hide Uncounted, Columns, Aligned, MarkColumns, OnePerLine, Excess;
    assert Max(columns) == 5;
  }
}
