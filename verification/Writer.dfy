/**
 Writing tokens as text. Apart from spaces, tabs and line ends the text of a
 formatted program is the text of the program.
 */
module Writer {
  import opened Seqs
  import opened Tokens
  import Formatter

  /** The text written so far, and the spaces and tabs that reach its last column. */
  datatype Page = Page(text: string, indent: string)

  predicate IsProcessed(t: Token) { t.BlockComment? || t.HeadComment? || t.TailComment? || t.InlineComment? }

  function Spaces(n: nat): string { seq(n, _ => ' ') }

  /** Each line after the first one starts on a line of its own, indented like the first. */
  function Continuation(lines: seq<string>, indent: string): string {
    if lines == [] then [] else "\n" + indent + lines[0] + Continuation(lines[1..], indent)
  }

  function CommentText(lines: seq<string>, indent: string): string {
    if lines == [] then [] else lines[0] + Continuation(lines[1..], indent)
  }

  function Piece(t: Token, indent: string): string {
    if IsProcessed(t) then CommentText(t.lines, indent) else AsBytes(t)
  }

  function NextIndent(t: Token, indent: string): string {
    if t.Newline? then []
    else if t.Tab? then indent + "\t"
    else if IsProcessed(t) then indent
    else indent + Spaces(|AsBytes(t)|)
  }

  function Write(ts: seq<Token>): Page {
    if ts == [] then Page([], [])
    else
      var p, t := Write(ts[..|ts| - 1]), ts[|ts| - 1];
      Page(p.text + Piece(t, p.indent), NextIndent(t, p.indent))
  }

  function Written(ts: seq<Token>): string { Write(ts).text }

  /** A space, a tab or a line feed for layout, the text itself for text, and nothing for control tokens. */
  lemma WrittenAsIs(t: Token, s: string)
    ensures AsBytes(Whitespace) == " " && AsBytes(Tab) == "\t" && AsBytes(Newline) == "\n"
    ensures t in {Comment(s), Identifier(s), Keyword(s), Punctuation(s), Literal(s), LGrouping(s), RGrouping(s)} ==>
              AsBytes(t) == s
    ensures t.Begin? || t.End? || t.Indentation? ==> AsBytes(t) == ""
    ensures t in {AlignmentMarker, AlignmentBlockBegin, AlignmentBlockEnd} ==> AsBytes(t) == ""
  {}

  lemma WrittenSnoc(ts: seq<Token>, t: Token)
    requires !IsProcessed(t)
    ensures Written(ts + [t]) == Written(ts) + AsBytes(t)
  {
    hide AsBytes, NextIndent;
    assert (ts + [t])[..|ts|] == ts;
  }

  lemma {:induction false} WrittenBlanks(ts: seq<Token>, blank: Token, c: char, n: nat)
    requires (blank == Whitespace && c == ' ') || (blank == Tab && c == '\t')
    ensures Written(ts + Repeat(blank, n)) == Written(ts) + Repeat(c, n)
  {
    hide Written;
    if n == 0 {
      assert ts + Repeat(blank, n) == ts && Written(ts) + Repeat(c, n) == Written(ts);
    } else {
      WrittenBlanks(ts, blank, c, n - 1);
      var init := ts + Repeat(blank, n - 1);
      WrittenSnoc(init, blank);
      assert ts + Repeat(blank, n) == init + [blank];
      assert Written(ts) + Repeat(c, n - 1) + [c] == Written(ts) + Repeat(c, n);
    }
  }

  /** After a line feed the next blanks make up the start of the line. */
  lemma WrittenMargin(ts: seq<Token>, blank: Token, c: char, n: nat)
    requires (blank == Whitespace && c == ' ') || (blank == Tab && c == '\t')
    ensures Written(ts + [Newline] + Repeat(blank, n)) == Written(ts) + "\n" + Repeat(c, n)
  {
    WrittenSnoc(ts, Newline);
    WrittenBlanks(ts + [Newline], blank, c, n);
  }

  lemma {:induction false} IndentOfMargin(ts: seq<Token>, blank: Token, c: char, n: nat)
    requires (blank == Whitespace && c == ' ') || (blank == Tab && c == '\t')
    ensures Write(ts + [Newline] + Repeat(blank, n)).indent == Repeat(c, n)
  {
    var line := ts + [Newline];
    if n == 0 {
      assert line + Repeat(blank, n) == line && line[..|ts|] == ts;
    } else {
      IndentOfMargin(ts, blank, c, n - 1);
      var init := line + Repeat(blank, n - 1);
      assert line + Repeat(blank, n) == init + [blank] && (init + [blank])[..|init|] == init;
      assert Repeat(c, n) == Repeat(c, n - 1) + [c];
      BlankIndents(blank, c, Repeat(c, n - 1));
    }
  }

  lemma BlankIndents(blank: Token, c: char, indent: string)
    requires (blank == Whitespace && c == ' ') || (blank == Tab && c == '\t')
    ensures NextIndent(blank, indent) == indent + [c]
  {}

  /** Lines that all start with one margin. */
  function Outset(lines: seq<string>, margin: string): string {
    if lines == [] then [] else "\n" + margin + lines[0] + Outset(lines[1..], margin)
  }

  lemma {:induction false} ContinuationIsOutset(lines: seq<string>, margin: string)
    ensures Continuation(lines, margin) == Outset(lines, margin)
  {
    if lines != [] {
      ContinuationIsOutset(lines[1..], margin);
    }
  }

  /** All lines of a comment that starts a line get the margin of that line. */
  lemma CommentBehindMargin(ts: seq<Token>, blank: Token, c: char, n: nat, lines: seq<string>)
    requires (blank == Whitespace && c == ' ') || (blank == Tab && c == '\t')
    requires lines != []
    ensures Written(ts + [Newline] + Repeat(blank, n) + [BlockComment(lines)]) ==
            Written(ts) + Outset(lines, Repeat(c, n))
  {
    hide Write, Written, Continuation;
    var line, margin := ts + [Newline] + Repeat(blank, n), Repeat(c, n);
    IndentOfMargin(ts, blank, c, n);
    WrittenMargin(ts, blank, c, n);
    WrittenComment(line, lines, margin);
    ContinuationIsOutset(lines[1..], margin);
    var before, rest := Written(ts), Outset(lines[1..], margin);
    assert before + "\n" + margin + (lines[0] + rest) == before + ("\n" + margin + lines[0] + rest);
  }

  lemma WrittenComment(ts: seq<Token>, lines: seq<string>, margin: string)
    requires lines != [] && Write(ts).indent == margin
    ensures Written(ts + [BlockComment(lines)]) == Written(ts) + (lines[0] + Continuation(lines[1..], margin))
  {
    assert (ts + [BlockComment(lines)])[..|ts|] == ts;
    hide Continuation;
  }

  method WriteTo(ts: seq<Token>) returns (text: string)
    ensures text == Written(ts)
  {
    text := [];
    var indent: string := [];
    for i := 0 to |ts|
      invariant Write(ts[..i]) == Page(text, indent)
    {
      assert ts[..i + 1][..i] == ts[..i];
      var t := ts[i];
      if IsProcessed(t) {
        var comment := WriteLines(t.lines, indent);
        text := text + comment;
      } else {
        text := text + AsBytes(t);
        indent := if t.Newline? then [] else if t.Tab? then indent + "\t" else indent + Spaces(|AsBytes(t)|);
      }
    }
    assert ts[..|ts|] == ts;
  }

  method WriteLines(lines: seq<string>, indent: string) returns (text: string)
    ensures text == CommentText(lines, indent)
  {
    if lines == [] {
      return [];
    }
    text := lines[0];
    for i := 1 to |lines|
      invariant text + Continuation(lines[i..], indent) == CommentText(lines, indent)
    {
      assert lines[i..][1..] == lines[i + 1..];
      var more := "\n" + indent + lines[i];
      assert text + (more + Continuation(lines[i + 1..], indent)) == text + more + Continuation(lines[i + 1..], indent);
      text := text + more;
    }
    assert text + [] == text;
  }

  // ----- What is not white space

  predicate IsSpace(c: char) { c == ' ' || c == '\t' || c == '\n' || c == '\r' }

  /** A text without its spaces, tabs and line ends. */
  function Solid(s: string): string {
    if s == [] then [] else (if IsSpace(s[0]) then [] else [s[0]]) + Solid(s[1..])
  }

  lemma {:induction false} SolidConcat(a: string, b: string)
    ensures Solid(a + b) == Solid(a) + Solid(b)
    decreases |a|
  {
    if a == [] {
      assert a + b == b;
    } else {
      assert (a + b)[1..] == a[1..] + b;
      SolidConcat(a[1..], b);
    }
  }

  lemma {:induction false} NothingSolid(s: string)
    requires forall i :: 0 <= i < |s| ==> IsSpace(s[i])
    ensures Solid(s) == []
    decreases |s|
  {
    if s != [] {
      NothingSolid(s[1..]);
    }
  }

  lemma {:induction false} SolidTrimmed(s: string)
    ensures Solid(TrimLeft(s)) == Solid(s)
    decreases |s|
  {
    if s != [] && (s[0] == ' ' || s[0] == '\t') {
      SolidTrimmed(s[1..]);
      assert TrimLeft(s) == TrimLeft(s[1..]);
    } else {
      assert TrimLeft(s) == s;
    }
  }

  function ItemText(i: Item): string {
    match i
    case Text(t) => AsBytes(t)
    case Line(s) => s
  }

  /** What the items say, without white space. */
  function Said(items: seq<Item>): string {
    if items == [] then [] else Solid(ItemText(items[0])) + Said(items[1..])
  }

  lemma {:induction false} SaidConcat(a: seq<Item>, b: seq<Item>)
    ensures Said(a + b) == Said(a) + Said(b)
    decreases |a|
  {
    if a == [] {
      assert a + b == b;
    } else {
      assert (a + b)[1..] == a[1..] + b;
      SaidConcat(a[1..], b);
    }
  }

  lemma {:induction false} SaidOfLines(lines: seq<string>)
    ensures lines != [] ==> Said(LineItems(lines)) == Solid(lines[0]) + Said(LineItems(lines[1..]))
    ensures lines == [] ==> Said(LineItems(lines)) == []
  {
    if lines != [] {
      assert LineItems(lines)[1..] == LineItems(lines[1..]);
      SolidTrimmed(lines[0]);
    }
  }

  lemma NextLineSays(indent: string, line: string, rest: string)
    requires Solid(indent) == []
    ensures Solid("\n" + indent + line + rest) == Solid(line) + Solid(rest)
  {
    NothingSolid("\n");
    hide Solid;
    var gap := "\n" + indent;
    SolidConcat("\n", indent);
    SolidConcat(gap, line);
    SolidConcat(gap + line, rest);
    assert Solid(gap) == [];
    assert [] + Solid(line) == Solid(line);
  }

  lemma {:induction false} ContinuationSays(lines: seq<string>, indent: string)
    requires Solid(indent) == []
    ensures Solid(Continuation(lines, indent)) == Said(LineItems(lines))
    decreases |lines|
  {
    hide Said, LineItems;
    SaidOfLines(lines);
    if lines != [] {
      hide Solid;
      ContinuationSays(lines[1..], indent);
      NextLineSays(indent, lines[0], Continuation(lines[1..], indent));
    }
  }

  lemma CommentSays(lines: seq<string>, indent: string)
    requires Solid(indent) == []
    ensures Solid(CommentText(lines, indent)) == Said(LineItems(lines))
  {
    SaidOfLines(lines);
    if lines != [] {
      ContinuationSays(lines[1..], indent);
      SolidConcat(lines[0], Continuation(lines[1..], indent));
    }
  }

  lemma LinesUnfold(s: string, n: nat, first: string)
    requires s != [] && n == LineEnd(s) < |s|
    requires first == if n > 0 && s[n - 1] == '\r' then s[..n - 1] else s[..n]
    ensures Lines(s) == [first] + Lines(s[n + 1..])
  {
    hide LineEnd;
  }

  lemma LineGap(s: string, n: nat, first: string)
    requires n == LineEnd(s) < |s|
    requires first == if n > 0 && s[n - 1] == '\r' then s[..n - 1] else s[..n]
    ensures |first| <= n && s[..|first|] == first && forall i :: |first| <= i <= n ==> IsSpace(s[i])
  {
    hide LineEnd;
  }

  lemma SolidFirst(s: string, k: nat, n: nat)
    requires k <= n < |s| && forall i :: k <= i <= n ==> IsSpace(s[i])
    ensures Solid(s) == Solid(s[..k]) + Solid(s[n + 1..])
  {
    hide Solid;
    var first, gap, rest := s[..k], s[k..n + 1], s[n + 1..];
    NothingSolid(gap);
    hide IsSpace;
    assert s[..n + 1] == first + gap;
    assert s == s[..n + 1] + rest;
    SolidConcat(first, gap);
    SolidConcat(s[..n + 1], rest);
    assert Solid(first) + [] == Solid(first);
  }

  /** Splitting a comment into lines loses line ends only. */
  lemma {:induction false} LinesSay(s: string)
    ensures Said(LineItems(Lines(s))) == Solid(s)
    decreases |s|
  {
    hide Solid, Said, LineItems;
    SaidOfLines(Lines(s));
    if s == [] {
      NothingSolid(s);
    } else {
      var n := LineEnd(s);
      if n == |s| {
        SaidOfLines([]);
        assert [s][1..] == [];
        assert Solid(s) + [] == Solid(s);
      } else {
        var first := if n > 0 && s[n - 1] == '\r' then s[..n - 1] else s[..n];
        LinesUnfold(s, n, first);
        LineGap(s, n, first);
        LinesSay(s[n + 1..]);
        hide Lines;
        assert Lines(s)[1..] == Lines(s[n + 1..]);
        SolidFirst(s, |first|, n);
      }
    }
  }

  lemma PieceSays(t: Token, indent: string)
    requires Solid(indent) == []
    ensures Solid(Piece(t, indent)) == Said(Items(t))
  {
    if IsProcessed(t) {
      CommentSays(t.lines, indent);
    } else if t.Comment? {
      LinesSay(t.text);
    } else if Is(t, TEXT) {
      assert Items(t) == [Text(t)] && [Text(t)][1..] == [];
      assert Said([Text(t)]) == Solid(AsBytes(t)) + Said([]);
    } else {
      NothingSolid(AsBytes(t));
    }
  }

  /** The text that is written says what the tokens say. */
  lemma {:induction false} WrittenSays(ts: seq<Token>)
    ensures Solid(Written(ts)) == Said(Essence(ts)) && Solid(Write(ts).indent) == []
    decreases |ts|
  {
    if ts != [] {
      var init, t := ts[..|ts| - 1], ts[|ts| - 1];
      var p := Write(init);
      hide Solid, Said, Items, Piece, NextIndent, FlatMap;
      WrittenSays(init);
      PieceSays(t, p.indent);
      SolidConcat(p.text, Piece(t, p.indent));
      assert ts == init + [t];
      FlatMapConcat(Items, init, [t]);
      FlatMapOne(Items, t);
      SaidConcat(Essence(init), Items(t));
      IndentIsBlank(t, p.indent);
    }
  }

  lemma IndentIsBlank(t: Token, indent: string)
    requires Solid(indent) == []
    ensures Solid(NextIndent(t, indent)) == []
  {
    NothingSolid("\t");
    NothingSolid(Spaces(|AsBytes(t)|));
    SolidConcat(indent, "\t");
    SolidConcat(indent, Spaces(|AsBytes(t)|));
  }

  /** Formatting changes the text of a program in its white space only. */
  lemma FormattingChangesOnlySpace(o: Formatter.Options, ts: seq<Token>)
    requires Formatter.Source(ts)
    ensures Solid(Written(Formatter.Format(o, ts))) == Solid(Written(ts))
  {
    Formatter.FormattingKeepsProgram(o, ts);
    WrittenSays(ts);
    WrittenSays(Formatter.Format(o, ts));
  }

  // ----- Comments of several lines

  /** The number of characters on the last line. */
  function Column(s: string): nat {
    if s == [] || s[|s| - 1] == '\n' then 0 else 1 + Column(s[..|s| - 1])
  }

  lemma {:induction false} ColumnGrows(s: string, t: string)
    requires '\n' !in t
    ensures Column(s + t) == Column(s) + |t|
    decreases |t|
  {
    if t == [] {
      assert s + t == s;
    } else {
      assert (s + t)[..|s + t| - 1] == s + t[..|t| - 1];
      ColumnGrows(s, t[..|t| - 1]);
    }
  }

  /** A line feed in `t` decides on the column. */
  lemma {:induction false} ColumnOfLast(s: string, t: string)
    requires '\n' in t
    ensures Column(s + t) == Column(t)
    decreases |t|
  {
    var init := t[..|t| - 1];
    assert t == init + [t[|t| - 1]];
    assert (s + t)[..|s + t| - 1] == s + init;
    if t[|t| - 1] != '\n' {
      ColumnOfLast(s, init);
    }
  }

  lemma ColumnConcat(s: string, t: string)
    ensures Column(s + t) == if '\n' in t then Column(t) else Column(s) + |t|
  {
    if '\n' in t { ColumnOfLast(s, t); } else { ColumnGrows(s, t); }
  }

  /**
   How much further the written text reaches than the indentation that is kept
   for the lines of comments: by the width of the comments on the line, and by
   what the indentation takes of a token in which a line ends, as by the whole
   length of a string of several lines.
   */
  function Overhang(ts: seq<Token>): int {
    if ts == [] then 0
    else
      var init := ts[..|ts| - 1];
      OverhangAfter(Overhang(init), |Write(init).indent|, ts[|ts| - 1])
  }

  /** The same once `t` is written, given the width of the indentation before it. */
  function OverhangAfter(before: int, indent: nat, t: Token): int {
    if t.Newline? then 0
    else if IsProcessed(t) then
      if t.lines == [] then before
      else
        var last := t.lines[|t.lines| - 1];
        if '\n' in last then Column(last) - indent
        else if |t.lines| == 1 then before + |last|
        else |last|
    else if '\n' in AsBytes(t) then Column(AsBytes(t)) - (indent + |AsBytes(t)|)
    else before
  }

  /** The column after the last of several lines of a comment. */
  function LastColumn(last: string, indent: nat): nat {
    if '\n' in last then Column(last) else indent + |last|
  }

  lemma {:induction false} ContinuationColumn(s: string, lines: seq<string>, indent: string)
    requires lines != [] && '\n' !in indent
    ensures Column(s + Continuation(lines, indent)) == LastColumn(lines[|lines| - 1], |indent|)
    decreases |lines|
  {
    var line, rest := "\n" + indent + lines[0], Continuation(lines[1..], indent);
    Assoc(s, line, rest);
    if |lines| == 1 {
      assert line + [] == line && s + line == s + "\n" + indent + lines[0];
      assert (s + "\n")[|s|] == '\n';
      ColumnConcat(s + "\n", indent);
      ColumnConcat(s + "\n" + indent, lines[0]);
    } else {
      hide Column;
      ContinuationColumn(s + line, lines[1..], indent);
    }
  }

  lemma CommentColumn(s: string, lines: seq<string>, indent: string)
    requires lines != [] && '\n' !in indent
    ensures
      var last := lines[|lines| - 1];
      Column(s + CommentText(lines, indent)) ==
      if |lines| == 1 && '\n' !in last then Column(s) + |last| else LastColumn(last, |indent|)
  {
    hide Column;
    var rest := Continuation(lines[1..], indent);
    if |lines| == 1 {
      assert lines[0] + [] == lines[0];
      ColumnConcat(s, lines[0]);
    } else {
      Assoc(s, lines[0], rest);
      ContinuationColumn(s + lines[0], lines[1..], indent);
    }
  }

  lemma WriteColumn(p: Page, before: int, t: Token)
    requires '\n' !in p.indent && Column(p.text) == |p.indent| + before
    ensures
      var indent := NextIndent(t, p.indent);
      && '\n' !in indent && |indent| == (if t.Newline? then 0 else |p.indent| + |AsBytes(t)|)
      && Column(p.text + Piece(t, p.indent)) == |indent| + OverhangAfter(before, |p.indent|, t)
  {
    if t.Newline? {
      assert (p.text + "\n")[|p.text|] == '\n';
    } else if !IsProcessed(t) {
      TextColumn(p, before, t);
    } else {
      LinesColumn(p, before, t);
    }
  }

  lemma TextColumn(p: Page, before: int, t: Token)
    requires '\n' !in p.indent && Column(p.text) == |p.indent| + before && !t.Newline? && !IsProcessed(t)
    ensures
      var indent := NextIndent(t, p.indent);
      && '\n' !in indent && |indent| == |p.indent| + |AsBytes(t)|
      && Column(p.text + Piece(t, p.indent)) == |indent| + OverhangAfter(before, |p.indent|, t)
  {
    hide Column;
    ColumnConcat(p.text, AsBytes(t));
  }

  lemma LinesColumn(p: Page, before: int, t: Token)
    requires '\n' !in p.indent && Column(p.text) == |p.indent| + before && IsProcessed(t)
    ensures
      && NextIndent(t, p.indent) == p.indent && |AsBytes(t)| == 0
      && Column(p.text + Piece(t, p.indent)) == |p.indent| + OverhangAfter(before, |p.indent|, t)
  {
    hide Column;
    if t.lines == [] {
      assert p.text + [] == p.text;
    } else {
      hide CommentText;
      CommentColumn(p.text, t.lines, p.indent);
    }
  }

  /** The written column, for every stream: the width of the indentation and what the text reaches further. */
  lemma {:induction false} ColumnExactly(ts: seq<Token>)
    ensures Column(Written(ts)) == |Write(ts).indent| + Overhang(ts) && '\n' !in Write(ts).indent
    decreases |ts|
  {
    if ts != [] {
      ColumnExactly(ts[..|ts| - 1]);
      hide Column, Piece, NextIndent, OverhangAfter;
      WriteColumn(Write(ts[..|ts| - 1]), Overhang(ts[..|ts| - 1]), ts[|ts| - 1]);
    }
  }

  /**
   The further lines of a comment start at the column of its first line exactly
   if the text before it reaches as far as the indentation that is kept.
   */
  lemma CommentLinesAlign(ts: seq<Token>, t: Token)
    requires IsProcessed(t)
    ensures
      var p := Write(ts);
      && Written(ts + [t]) == p.text + CommentText(t.lines, p.indent)
      && (|p.indent| == Column(p.text) <==> Overhang(ts) == 0)
  {
    ColumnExactly(ts);
    assert (ts + [t])[..|ts|] == ts;
  }

  /** After a comment the next one is not aligned: its further lines start too far to the left. */
  lemma CommentAfterComment()
    ensures
      var ts := [Identifier("x"), InlineComment(["/*a*/"])];
      Overhang(ts) == 5 && |Write(ts).indent| == 1 && Column(Written(ts)) == 6
  {
    var x, ts := [Identifier("x")], [Identifier("x"), InlineComment(["/*a*/"])];
    assert ts[..1] == x && x[..0] == [];
    ColumnExactly(ts);
    assert Write(x).indent == [] + Spaces(1);
    assert Overhang(x) == 0;
  }

  const STRING_OF_TWO_LINES := "\"\"\"a\nb\"\"\""

  /** After a string of several lines a comment is not aligned: its further lines start too far to the right. */
  lemma CommentAfterString()
    ensures
      var ts := [Literal(STRING_OF_TWO_LINES)];
      Overhang(ts) == -5 && |Write(ts).indent| == 9 && Column(Written(ts)) == 4
  {
    var s, ts := STRING_OF_TWO_LINES, [Literal(STRING_OF_TWO_LINES)];
    assert ts[..0] == [] && s[4] == '\n' && |s| == 9;
    ColumnGrows(s[..5], s[5..]);
    assert s == s[..5] + s[5..];
    assert Overhang([]) == 0 && Write([]).indent == [];
    assert Overhang(ts) == OverhangAfter(0, 0, ts[0]);
    ColumnExactly(ts);
    assert Write(ts).indent == [] + Spaces(9);
  }
}
