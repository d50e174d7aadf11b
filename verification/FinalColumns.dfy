/**
 Where aligned marks stand in the final text: indentation moves each of them by
 the margin of its line, and the removal of trailing blanks does not move them.
 */
module FinalColumns {
  import opened Seqs
  import opened Tokens
  import opened Alignment
  import opened Writer
  import opened AlignedColumns
  import opened AddingIndentation
  import opened TrailingSpaces

  /**
   The indentation after `a` is wider than after `b` by `m` characters, and the
   text reaches further by `k`.
   */
  ghost predicate Wider(a: seq<Token>, b: seq<Token>, m: nat, k: nat) {
    && |Write(a).indent| == |Write(b).indent| + m
    && |Write(a).indent| + Overhang(a) == |Write(b).indent| + Overhang(b) + k
  }

  /**
   How much further the text reaches after `t`: nothing after a line feed in it, for
   a comment of several lines by the indentation.
   */
  function KeptAfter(m: nat, k: nat, t: Token): nat {
    if t.Newline? then 0
    else if IsProcessed(t) then
      if t.lines == [] then k
      else if '\n' in t.lines[|t.lines| - 1] then 0
      else if |t.lines| == 1 then k
      else m
    else if '\n' in AsBytes(t) then 0
    else k
  }

  lemma OneMore(a: seq<Token>, b: seq<Token>, m: nat, k: nat, t: Token)
    requires t.Newline? || Wider(a, b, m, k)
    ensures Wider(a + [t], b + [t], if t.Newline? then 0 else m, KeptAfter(m, k, t))
  {
    hide Write, Overhang;
    WriteOneMore(a, t);
    WriteOneMore(b, t);
  }

  /** A token without width. */
  lemma NoWidth(a: seq<Token>, b: seq<Token>, m: nat, k: nat, t: Token)
    requires (t.Indentation? || t.AlignmentMarker?) && Wider(a, b, m, k)
    ensures Wider(a, b + [t], m, k)
  {
    hide Write, Overhang;
    WriteOneMore(b, t);
  }

  lemma OneBlank(a: seq<Token>, b: seq<Token>, m: nat, k: nat, t: Token)
    requires IsBlank(t) && Wider(a, b, m, k)
    ensures Wider(a + [t], b, m + 1, k + 1)
  {
    hide Write, Overhang;
    assert |AsBytes(t)| == 1;
    WriteOneMore(a, t);
  }

  lemma {:induction false} Blanks(a: seq<Token>, blanks: seq<Token>)
    requires forall i :: 0 <= i < |blanks| ==> IsBlank(blanks[i])
    ensures Wider(a + blanks, a, |blanks|, |blanks|)
    decreases |blanks|
  {
    if blanks == [] {
      assert a + blanks == a;
    } else {
      hide Wider;
      var init, t := blanks[..|blanks| - 1], blanks[|blanks| - 1];
      Blanks(a, init);
      assert a + blanks == a + init + [t];
      OneBlank(a + init, a, |init|, |init|, t);
    }
  }

  // ----- Indentation

  /** The width of the margin of the line on which `ts` ends. */
  function LineMargin(style: Style, level: int, ts: seq<Token>): nat
    decreases |ts|
  {
    if ts == [] then 0
    else
      var init := ts[..|ts| - 1];
      if ts[|ts| - 1].Newline? then |Margin(style, level + Level(init))| else LineMargin(style, level, init)
  }

  /** How far that margin moves what comes after `ts`: not at all behind a string of several lines. */
  function TextMargin(style: Style, level: int, ts: seq<Token>): nat
    decreases |ts|
  {
    if ts == [] then 0
    else
      var init, t := ts[..|ts| - 1], ts[|ts| - 1];
      if t.Newline? then |Margin(style, level + Level(init))|
      else KeptAfter(LineMargin(style, level, init), TextMargin(style, level, init), t)
  }

  lemma IndentOne(style: Style, level: int, t: Token)
    ensures Indent(style, level, [t]) ==
            if t.Indentation? then [] else if t.Newline? then [Newline] + Margin(style, level) else [t]
  {
    assert [t][1..] == [];
    assert [Newline] + Margin(style, level) + [] == [Newline] + Margin(style, level);
  }

  lemma MarginIsBlank(style: Style, level: int)
    ensures forall i :: 0 <= i < |Margin(style, level)| ==> IsBlank(Margin(style, level)[i])
  {}

  ghost predicate Indented(style: Style, level: int, ts: seq<Token>) {
    Wider(Indent(style, level, ts), ts, LineMargin(style, level, ts), TextMargin(style, level, ts))
  }

  lemma {:induction false} IndentedLine(style: Style, level: int, ts: seq<Token>)
    ensures Indented(style, level, ts)
    decreases |ts|
  {
    if ts != [] {
      hide Indented;
      var init, t := ts[..|ts| - 1], ts[|ts| - 1];
      assert ts == init + [t];
      IndentedLine(style, level, init);
      IndentedMore(style, level, init, t);
    }
  }

  lemma MarginSnoc(style: Style, level: int, init: seq<Token>, t: Token)
    ensures LineMargin(style, level, init + [t]) ==
            if t.Newline? then |Margin(style, level + Level(init))| else LineMargin(style, level, init)
    ensures TextMargin(style, level, init + [t]) ==
            if t.Newline? then |Margin(style, level + Level(init))|
            else KeptAfter(LineMargin(style, level, init), TextMargin(style, level, init), t)
  {
    assert (init + [t])[..|init|] == init;
  }

  lemma PieceWider(style: Style, level: int, a: seq<Token>, b: seq<Token>, m: nat, k: nat, t: Token)
    requires Wider(a, b, m, k)
    ensures
      var piece, margin := Indent(style, level, [t]), |Margin(style, level)|;
      Wider(a + piece, b + [t], if t.Newline? then margin else m, if t.Newline? then margin else KeptAfter(m, k, t))
  {
    IndentOne(style, level, t);
    if t.Indentation? {
      assert KeptAfter(m, k, t) == k;
      hide Indent, Margin, Wider;
      assert a + [] == a;
      NoWidth(a, b, m, k, t);
    } else if t.Newline? {
      hide Indent, Margin, Wider;
      NextLine(style, level, a, b);
    } else {
      hide Indent, Margin, Wider;
      OneMore(a, b, m, k, t);
    }
  }

  lemma IndentedMore(style: Style, level: int, init: seq<Token>, t: Token)
    requires Indented(style, level, init)
    ensures Indented(style, level, init + [t])
  {
    hide Indent, Margin, LineMargin, TextMargin, Wider, KeptAfter;
    IndentConcat(style, level, init, [t]);
    MarginSnoc(style, level, init, t);
    PieceWider(style, level + Level(init), Indent(style, level, init), init,
      LineMargin(style, level, init), TextMargin(style, level, init), t);
  }

  lemma NextLine(style: Style, level: int, a: seq<Token>, b: seq<Token>)
    ensures
      var margin := |Margin(style, level)|;
      Wider(a + ([Newline] + Margin(style, level)), b + [Newline], margin, margin)
  {
    var margin := Margin(style, level);
    MarginIsBlank(style, level);
    hide Write, Overhang, Margin;
    OneMore(a, b, 0, 0, Newline);
    Blanks(a + [Newline], margin);
    Assoc(a, [Newline], margin);
  }

  // ----- Removal of trailing blanks

  /** What is left of `a` when `b` follows it. */
  function Before(a: seq<Token>, b: seq<Token>): seq<Token>
    decreases |a|
  {
    if a == [] then []
    else if IsBlank(a[0]) && AtLineEnd(a[1..] + b) then Before(a[1..], b)
    else [a[0]] + Before(a[1..], b)
  }

  lemma {:induction false} StripConcat(a: seq<Token>, b: seq<Token>)
    ensures Strip(a + b) == Before(a, b) + Strip(b)
    decreases |a|
  {
    if a == [] {
      assert a + b == b;
    } else {
      assert (a + b)[0] == a[0] && (a + b)[1..] == a[1..] + b;
      StripConcat(a[1..], b);
      hide AtLineEnd;
      Assoc([a[0]], Before(a[1..], b), Strip(b));
    }
  }

  lemma {:induction false} BeforeSnoc(a: seq<Token>, t: Token, b: seq<Token>)
    ensures Before(a + [t], b) == Before(a, [t] + b) + if IsBlank(t) && AtLineEnd(b) then [] else [t]
    decreases |a|
  {
    hide AtLineEnd;
    if a == [] {
      assert a + [t] == [t] && [t][1..] + b == b;
    } else {
      assert (a + [t])[0] == a[0] && (a + [t])[1..] == a[1..] + [t];
      Assoc(a[1..], [t], b);
      BeforeSnoc(a[1..], t, b);
      var last := if IsBlank(t) && AtLineEnd(b) then [] else [t];
      Assoc([a[0]], Before(a[1..], [t] + b), last);
    }
  }

  lemma AtLineEndCons(t: Token, b: seq<Token>)
    ensures AtLineEnd([t] + b) <==> t.Newline? || ((IsBlank(t) || IsControl(t)) && AtLineEnd(b))
  {
    assert ([t] + b)[1..] == b;
  }

  lemma NothingKept(m: nat, t: Token)
    ensures KeptAfter(m, m, t) <= m && KeptAfter(0, 0, t) == 0
  {}

  /** Blanks before text on the line stay. */
  lemma {:induction false} TrimmedLine(a: seq<Token>, b: seq<Token>)
    requires !AtLineEnd(b)
    ensures Wider(Before(a, b), a, 0, 0)
    decreases |a|
  {
    if a != [] {
      var init, t := a[..|a| - 1], a[|a| - 1];
      assert a == init + [t];
      BeforeSnoc(init, t, b);
      AtLineEndCons(t, b);
      NothingKept(0, t);
      hide AtLineEnd, Before, Wider, KeptAfter;
      if !t.Newline? {
        TrimmedLine(init, [t] + b);
      }
      OneMore(Before(init, [t] + b), init, 0, 0, t);
    }
  }

  lemma {:induction false} IndentedLineEnd(style: Style, level: int, ts: seq<Token>)
    ensures AtLineEnd(Indent(style, level, ts)) <==> AtLineEnd(ts)
    decreases |ts|
  {
    if ts != [] {
      var t, rest := ts[0], ts[1..];
      IndentedLineEnd(style, if t.Indentation? then level + t.delta else level, rest);
      assert ts == [t] + rest;
      AtLineEndCons(t, rest);
      if !t.Newline? && !t.Indentation? {
        AtLineEndCons(t, Indent(style, level, rest));
      }
    }
  }

  /** Where the final text reaches what comes after `a`. */
  lemma FinalColumn(style: Style, a: seq<Token>, b: seq<Token>)
    returns (left: seq<Token>, right: seq<Token>)
    requires !AtLineEnd(b)
    ensures Trim([], Indent(style, 0, a + b)) == left + right
    ensures right == Strip(Indent(style, Level(a), b))
    ensures Column(Written(left)) == Column(Written(a)) + TextMargin(style, 0, a)
  {
    hide Indent, Before, Strip, AtLineEnd, Column, Write, Overhang, Trim, LineMargin, TextMargin, Level;
    var x, y := Indent(style, 0, a), Indent(style, Level(a), b);
    IndentConcat(style, 0, a, b);
    IndentedLine(style, 0, a);
    IndentedLineEnd(style, Level(a), b);
    left, right := Before(x, y), Strip(y);
    TrimIsStrip([], x + y);
    assert [] + (x + y) == x + y;
    StripConcat(x, y);
    TrimmedLine(x, y);
    ColumnExactly(a);
    ColumnExactly(left);
  }

  // ----- The marks of an aligned block

  /** The tokens before the i-th mark, without the other marks. */
  function UpTo(i: nat, ts: seq<Token>): seq<Token> {
    if ts == [] then []
    else if ts[0].AlignmentMarker? then if i == 0 then [] else UpTo(i - 1, ts[1..])
    else [ts[0]] + UpTo(i, ts[1..])
  }

  /** The tokens after the i-th mark, without the other marks. */
  function From(i: nat, ts: seq<Token>): seq<Token> {
    if ts == [] then []
    else if ts[0].AlignmentMarker? then if i == 0 then Unmark(ts[1..]) else From(i - 1, ts[1..])
    else From(i, ts[1..])
  }

  lemma {:induction false} SplitAtMark(i: nat, ts: seq<Token>)
    requires i < |Columns(0, ts)|
    ensures Unmark(ts) == UpTo(i, ts) + From(i, ts)
    decreases |ts|
  {
    if ts != [] {
      MarkerCount(0, ts);
      if !ts[0].AlignmentMarker? {
        SplitAtMark(i, ts[1..]);
        Assoc([ts[0]], UpTo(i, ts[1..]), From(i, ts[1..]));
      } else if i > 0 {
        SplitAtMark(i - 1, ts[1..]);
      }
    }
  }

  lemma {:induction false} MarkColumnAt(p: seq<Token>, q: seq<Token>, i: nat, ts: seq<Token>)
    requires Wider(p, q, 0, 0) && i < |Columns(0, ts)|
    ensures i < |MarkColumns(q, ts)| && MarkColumns(q, ts)[i] == Column(Written(p + UpTo(i, ts)))
    decreases |ts|
  {
    hide Write, Overhang, Column, Columns, KeptAfter;
    if ts == [] {
      ColumnsNil();
    } else {
      var t, rest := ts[0], ts[1..];
      assert ts == [t] + rest;
      MarkerCount(0, ts);
      MarkColumnsCons(q, t, rest);
      if !t.AlignmentMarker? {
        OneMore(p, q, 0, 0, t);
        NothingKept(0, t);
        MarkColumnAt(p + [t], q + [t], i, rest);
        Assoc(p, [t], UpTo(i, rest));
      } else if i == 0 {
        ColumnExactly(p);
        ColumnExactly(q);
        assert p + [] == p;
      } else {
        NoWidth(p, q, 0, 0, t);
        MarkColumnAt(p, q + [t], i - 1, rest);
      }
    }
  }

  lemma {:induction false} PaddingCount(pads: seq<nat>, block: seq<Token>)
    requires |pads| == |Columns(0, block)|
    ensures |Columns(0, PadWith(pads, block))| == |Columns(0, block)|
    decreases |block|
  {
    hide Repeat;
    if block != [] {
      var t, rest := block[0], block[1..];
      MarkerCount(0, block);
      if t.AlignmentMarker? {
        var tail := PadWith(pads[1..], rest);
        PaddingCount(pads[1..], rest);
        Assoc(Repeat(Whitespace, pads[0]), [AlignmentMarker], tail);
        ColumnsAfterSpaces(0, pads[0], [AlignmentMarker] + tail);
        ColumnsCons(pads[0], AlignmentMarker, tail);
        ColumnsCount(pads[0], 0, tail);
      } else {
        PaddingCount(pads, rest);
        ColumnsCons(0, t, PadWith(pads, rest));
        ColumnsCount(Advance(0, t), 0, PadWith(pads, rest));
      }
    }
  }
}
