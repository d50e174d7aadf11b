/**
 The automaton that turns raw comments into block, head, tail and inline
 comments, joining those that belong together.
 */
module Comments {
  import opened Seqs
  import opened Tokens

  // ----- The lines of a text

  /** Lines with their terminators. */
  function Rejoin(lines: seq<string>, ends: seq<string>): string
    requires |lines| == |ends|
  {
    if lines == [] then [] else lines[0] + ends[0] + Rejoin(lines[1..], ends[1..])
  }

  /** Only the last line can be without a terminator, if it is not empty; a line takes all it can as terminator. */
  predicate Terminated(lines: seq<string>, ends: seq<string>)
    requires |lines| == |ends|
  {
    lines == [] || (EndsLine(lines[0], ends[0], |lines| == 1) && Terminated(lines[1..], ends[1..]))
  }

  predicate EndsLine(line: string, end: string, last: bool) {
    && '\n' !in line
    && (end == "\n" || end == "\r\n" || (end == "" && last && line != ""))
    && (end == "\n" && line != "" ==> line[|line| - 1] != '\r')
  }

  lemma {:induction false} NoLineFeed(s: string)
    ensures '\n' !in s[..LineEnd(s)]
  {
    if s != [] && s[0] != '\n' {
      NoLineFeed(s[1..]);
      assert s[..LineEnd(s)] == [s[0]] + s[1..][..LineEnd(s[1..])];
    }
  }

  /** The first line and its terminator. */
  lemma FirstLine(s: string) returns (line: string, end: string)
    requires LineEnd(s) < |s|
    ensures var rest := s[LineEnd(s) + 1..]; s == line + end + rest && Lines(s) == [line] + Lines(rest)
    ensures EndsLine(line, end, false)
  {
    var n := LineEnd(s);
    NoLineFeed(s);
    var all := s[..n];
    assert s == all + "\n" + s[n + 1..];
    if n > 0 && s[n - 1] == '\r' {
      line, end := s[..n - 1], "\r\n";
      assert all == line + "\r" && forall i :: 0 <= i < |line| ==> line[i] == all[i];
    } else {
      line, end := all, "\n";
    }
  }

  lemma JoinOne(line: string, end: string, lines: seq<string>, ends: seq<string>)
    requires |lines| == |ends|
    ensures Rejoin([line] + lines, [end] + ends) == line + end + Rejoin(lines, ends)
    ensures EndsLine(line, end, lines == []) && Terminated(lines, ends) ==> Terminated([line] + lines, [end] + ends)
  {
    hide EndsLine;
    assert ([line] + lines)[1..] == lines && ([end] + ends)[1..] == ends;
  }

  /** The lines of a text are what its line terminators leave. */
  lemma {:induction false} LinesExactly(s: string) returns (ends: seq<string>)
    ensures |ends| == |Lines(s)| && Rejoin(Lines(s), ends) == s && Terminated(Lines(s), ends)
    decreases |s|
  {
    var n := LineEnd(s);
    if s == [] {
      ends := [];
    } else if n == |s| {
      ends := [""];
      NoLineFeed(s);
      assert s == s[..n] && s + "" + "" == s;
      JoinOne(s, "", [], []);
      assert [s] + [] == [s] && [""] + [] == [""];
    } else {
      var line, end := FirstLine(s);
      var more := LinesExactly(s[n + 1..]);
      hide Lines, Rejoin, Terminated;
      assert EndsLine(line, end, true);
      JoinOne(line, end, Lines(s[n + 1..]), more);
      ends := [end] + more;
    }
  }

  // ----- Lines of a comment, without the indentation they had in the source

  /**
   Where a line starts once its indentation is skipped. A line that ends while
   its indentation is being skipped is kept from its first character.
   */
  function LineStart(line: string, pos: nat, column: nat, indentation: nat, tabSize: nat): (n: nat)
    requires pos <= |line|
    ensures n <= |line|
    decreases |line| - pos
  {
    if pos == |line| then 0
    else if column >= indentation then pos
    else if line[pos] == ' ' then LineStart(line, pos + 1, column + 1, indentation, tabSize)
    else if line[pos] == '\t' then LineStart(line, pos + 1, column + tabSize, indentation, tabSize)
    else pos
  }

  function Outdent(line: string, indentation: nat, tabSize: nat): string {
    line[LineStart(line, 0, 0, indentation, tabSize)..]
  }

  function OutdentAll(lines: seq<string>, indentation: nat, tabSize: nat): (r: seq<string>)
    ensures |r| == |lines|
  {
    seq(|lines|, i requires 0 <= i < |lines| => Outdent(lines[i], indentation, tabSize))
  }

  function Split(comment: string, indentation: nat, tabSize: nat): seq<string> {
    OutdentAll(Lines(comment), indentation, tabSize)
  }

  lemma {:induction false} BlanksAreTrimmed(s: string, n: nat)
    requires n <= |s| && forall i :: 0 <= i < n ==> s[i] == ' ' || s[i] == '\t'
    ensures TrimLeft(s[n..]) == TrimLeft(s)
  {
    if n > 0 {
      BlanksAreTrimmed(s[1..], n - 1);
      assert s[n..] == s[1..][n - 1..];
      assert s[BlankPrefix(s)..] == s[1..][BlankPrefix(s[1..])..];
    } else {
      assert s[0..] == s;
    }
  }

  lemma {:induction false} OnlyBlanksSkipped(line: string, pos: nat, column: nat, indentation: nat, tabSize: nat)
    requires pos <= |line| && forall i :: 0 <= i < pos ==> line[i] == ' ' || line[i] == '\t'
    ensures
      var n := LineStart(line, pos, column, indentation, tabSize);
      forall i :: 0 <= i < n ==> line[i] == ' ' || line[i] == '\t'
    decreases |line| - pos
  {
    if pos < |line| && column < indentation && (line[pos] == ' ' || line[pos] == '\t') {
      OnlyBlanksSkipped(line, pos + 1, if line[pos] == ' ' then column + 1 else column + tabSize, indentation, tabSize);
    }
  }

  /** The width of leading blanks. */
  function Width(blanks: string, tabSize: nat): nat {
    if blanks == [] then 0
    else Width(blanks[..|blanks| - 1], tabSize) + if blanks[|blanks| - 1] == '\t' then tabSize else 1
  }

  predicate IsBlankChar(c: char) { c == ' ' || c == '\t' }

  /**
   The first `m` characters of the line are blanks, fewer are too narrow for the
   indentation, and they are wide enough unless no more blanks follow.
   */
  predicate Indents(line: string, m: nat, indentation: nat, tabSize: nat) {
    && m <= |line|
    && (forall i :: 0 <= i < m ==> IsBlankChar(line[i]))
    && (forall k :: 0 <= k < m ==> Width(line[..k], tabSize) < indentation)
    && (Width(line[..m], tabSize) >= indentation || m == |line| || !IsBlankChar(line[m]))
  }

  lemma {:induction false} LineStartIndents(line: string, pos: nat, indentation: nat, tabSize: nat) returns (m: nat)
    requires pos <= |line|
    requires forall i :: 0 <= i < pos ==> IsBlankChar(line[i])
    requires forall k :: 0 <= k < pos ==> Width(line[..k], tabSize) < indentation
    ensures Indents(line, m, indentation, tabSize)
    ensures LineStart(line, pos, Width(line[..pos], tabSize), indentation, tabSize) == if m == |line| then 0 else m
    decreases |line| - pos
  {
    m := pos;
    if pos < |line| && Width(line[..pos], tabSize) < indentation && IsBlankChar(line[pos]) {
      assert line[..pos + 1][..pos] == line[..pos];
      m := LineStartIndents(line, pos + 1, indentation, tabSize);
    }
  }

  /**
   What is removed from a line: the shortest run of leading blanks that is as wide
   as the indentation, or all of them if they are narrower, and nothing if the
   line ends there.
   */
  lemma OutdentExactly(line: string, m: nat, indentation: nat, tabSize: nat)
    requires Indents(line, m, indentation, tabSize)
    ensures Outdent(line, indentation, tabSize) == if m == |line| then line else line[m..]
  {
    var n := LineStartIndents(line, 0, indentation, tabSize);
  }

  /** Some run of leading blanks is what `OutdentExactly` is about. */
  lemma SomeIndents(line: string, indentation: nat, tabSize: nat) returns (m: nat)
    ensures Indents(line, m, indentation, tabSize)
  {
    m := LineStartIndents(line, 0, indentation, tabSize);
  }

  lemma NothingToOutdent(line: string, tabSize: nat)
    ensures Outdent(line, 0, tabSize) == line
  {}

  /** Outdenting only takes leading spaces and tabs away from the lines of a comment. */
  lemma SplitKeepsLines(comment: string, indentation: nat, tabSize: nat)
    ensures LineItems(Split(comment, indentation, tabSize)) == LineItems(Lines(comment))
  {
    var lines := Lines(comment);
    forall i | 0 <= i < |lines|
      ensures TrimLeft(Outdent(lines[i], indentation, tabSize)) == TrimLeft(lines[i])
    {
      OnlyBlanksSkipped(lines[i], 0, 0, indentation, tabSize);
      BlanksAreTrimmed(lines[i], LineStart(lines[i], 0, 0, indentation, tabSize));
    }
  }

  method SplitCommentLines(comment: string, indentation: nat, tabSize: nat) returns (result: seq<string>)
    ensures result == Split(comment, indentation, tabSize)
  {
    var lines := Lines(comment);
    result := [];
    for n := 0 to |lines|
      invariant |result| == n
      invariant forall k :: 0 <= k < n ==> result[k] == Outdent(lines[k], indentation, tabSize)
    {
      var line := lines[n];
      var column: nat, commentStart: nat, pos := 0, 0, 0;
      while pos < |line|
        invariant pos <= |line| && commentStart == 0
        invariant LineStart(line, pos, column, indentation, tabSize) == LineStart(line, 0, 0, indentation, tabSize)
      {
        if column >= indentation {
          commentStart := pos;
          break;
        }
        if line[pos] == ' ' {
          column := column + 1;
        } else if line[pos] == '\t' {
          column := column + tabSize;
        } else {
          commentStart := pos;
          break;
        }
        pos := pos + 1;
      }
      result := result + [line[commentStart..]];
    }
  }

  // ----- The automaton

  datatype State =
    | PreComment(leadingNewline: bool)
    | InComment(indentation: nat, leadingNewline: bool, trailingNewline: bool, lines: seq<string>)

  /** The token for a comment, given whether newlines surround it. */
  function Classify(lines: seq<string>, leading: bool, trailing: bool): Token {
    match (leading, trailing)
    case (true, true) => BlockComment(lines)
    case (true, false) => HeadComment(lines)
    case (false, true) => TailComment(lines)
    case (false, false) => InlineComment(lines)
  }

  function Made(lines: seq<string>, leading: bool, trailing: bool): seq<Token> {
    [Classify(lines, leading, trailing)] + if trailing then [Newline] else []
  }

  /** What one buffered token makes the automaton emit, and its next state and column. */
  function Step(tabSize: nat, st: State, column: nat, t: Token): (seq<Token>, State, nat) {
    match st
    case PreComment(leading) =>
      if t.Whitespace? then ([t], st, column + 1)
      else if t.Tab? then ([t], st, column + tabSize)
      else if t.Newline? then ([t], PreComment(true), 0)
      else if t.Comment? then
        ([], InComment(column, leading, false, Split(t.text, column, tabSize)), column + |t.text|)
      else ([t], st, column)
    case InComment(indentation, leading, trailing, lines) =>
      if t.Whitespace? then ([], st, column + 1)
      else if t.Tab? then ([], st, column + tabSize)
      else if t.Newline? then
        if trailing then (Made(lines, leading, trailing) + [Newline], PreComment(true), 0)
        else ([], st.(trailingNewline := true), 0)
      else if t.Comment? then
        if indentation == column then
          ([], InComment(indentation, leading, false, lines + Split(t.text, indentation, tabSize)), column)
        else
          (Made(lines, leading, trailing),
           InComment(column, trailing, false, Split(t.text, column, tabSize)), column)
      else ([t], st, column)
  }

  function Finish(st: State, endOfInput: bool): seq<Token> {
    match st
    case PreComment(_) => []
    case InComment(_, leading, trailing, lines) => Made(lines, leading, trailing || endOfInput)
  }

  /** What the automaton emits for a whole buffer, and the column that it reaches. */
  function Automaton(tabSize: nat, endOfInput: bool, st: State, column: nat, buffer: seq<Token>): (seq<Token>, nat)
    decreases |buffer|
  {
    if buffer == [] then (Finish(st, endOfInput), column)
    else
      var (emitted, next, column') := Step(tabSize, st, column, buffer[0]);
      var (rest, last) := Automaton(tabSize, endOfInput, next, column', buffer[1..]);
      (emitted + rest, last)
  }

  // ----- The stream

  const BUFFERED: Category := NEWLINE + {CWhitespace} + COMMENT + CONTROL

  function Flow(tabSize: nat, start: bool, column: nat, held: seq<Token>, ts: seq<Token>): seq<Token>
    decreases |ts|
  {
    if ts == [] then
      if held == [] then [] else Automaton(tabSize, true, PreComment(start), column, held).0
    else if Is(ts[0], BUFFERED) then Flow(tabSize, start, column, held + [ts[0]], ts[1..])
    else
      var (out, last) := Automaton(tabSize, false, PreComment(start), column, held);
      out + [ts[0]] + Flow(tabSize, false, last + |AsBytes(ts[0])|, [], ts[1..])
  }

  function Run(tabSize: nat, ts: seq<Token>): seq<Token> {
    Flow(tabSize, true, 0, [], ts)
  }

  /** Comments of the source are never empty. */
  ghost predicate NoEmptyComment(ts: seq<Token>) {
    forall i :: 0 <= i < |ts| && ts[i].Comment? ==> ts[i].text != []
  }

  // ----- What the automaton keeps

  /**
   A projection `f` that ignores spacing and sees nothing in a processed comment
   but its lines, by `g`, and that ignores either comments or control tokens.
   */
  ghost predicate Sees<X>(f: Token -> seq<X>, g: seq<string> -> seq<X>) {
    && SeesNoSpacing(f)
    && SeesLines(f, g)
    && Additive(g)
    && SeesThroughSplit(f, g)
    && ((forall lines :: g(lines) == []) || (forall t :: Is(t, CONTROL) ==> f(t) == []))
  }

  ghost predicate SeesNoSpacing<X>(f: Token -> seq<X>) {
    f(Whitespace) == [] && f(Tab) == [] && f(Newline) == []
  }

  ghost predicate SeesLines<X>(f: Token -> seq<X>, g: seq<string> -> seq<X>) {
    forall lines, l, t :: f(Classify(lines, l, t)) == g(lines)
  }

  ghost predicate Additive<X>(g: seq<string> -> seq<X>) {
    forall a, b :: g(a + b) == g(a) + g(b)
  }

  ghost predicate SeesThroughSplit<X>(f: Token -> seq<X>, g: seq<string> -> seq<X>) {
    forall c, indentation, tabSize :: f(Comment(c)) == g(Split(c, indentation, tabSize))
  }

  function Pending<X>(g: seq<string> -> seq<X>, st: State): seq<X> {
    if st.PreComment? then [] else g(st.lines)
  }

  lemma MadePreserves<X>(f: Token -> seq<X>, g: seq<string> -> seq<X>, lines: seq<string>, l: bool, t: bool)
    requires Sees(f, g)
    ensures FlatMap(f, Made(lines, l, t)) == g(lines)
  {
    var c := Classify(lines, l, t);
    FlatMapConcat(f, [c], if t then [Newline] else []);
    FlatMapOne(f, c);
    FlatMapOne(f, Newline);
    assert f(c) == g(lines);
  }

  lemma StepPreserves<X>(f: Token -> seq<X>, g: seq<string> -> seq<X>, tabSize: nat, st: State, column: nat, t: Token)
    requires Sees(f, g)
    requires Is(t, BUFFERED) && (Is(t, COMMENT) ==> t.Comment?)
    ensures
      var (emitted, next, _) := Step(tabSize, st, column, t);
      FlatMap(f, emitted) + Pending(g, next) == Pending(g, st) + f(t)
  {
    if st.PreComment? {
      BeforePreserves(f, g, tabSize, st, column, t);
    } else if t.Comment? {
      NextCommentPreserves(f, g, tabSize, st, column, t);
    } else {
      AfterPreserves(f, g, tabSize, st, column, t);
    }
  }

  lemma BeforePreserves<X>(f: Token -> seq<X>, g: seq<string> -> seq<X>, tabSize: nat, st: State, column: nat, t: Token)
    requires Sees(f, g) && st.PreComment?
    ensures
      var (emitted, next, _) := Step(tabSize, st, column, t);
      FlatMap(f, emitted) + Pending(g, next) == Pending(g, st) + f(t)
  {
    FlatMapOne(f, t);
    FlatMapNothing(f, []);
    hide FlatMap, Split;
    assert f(t) + [] == f(t) && [] + f(t) == f(t);
  }

  lemma NextCommentPreserves<X>(
      f: Token -> seq<X>, g: seq<string> -> seq<X>, tabSize: nat, st: State, column: nat, t: Token)
    requires Sees(f, g) && st.InComment? && t.Comment?
    ensures
      var (emitted, next, _) := Step(tabSize, st, column, t);
      FlatMap(f, emitted) + Pending(g, next) == Pending(g, st) + f(t)
  {
    MadePreserves(f, g, st.lines, st.leadingNewline, st.trailingNewline);
    FlatMapNothing(f, []);
    hide FlatMap, Split, Made;
    assert g(st.lines + Split(t.text, st.indentation, tabSize)) == g(st.lines) + f(t);
    assert [] + (g(st.lines) + f(t)) == g(st.lines) + f(t);
  }

  lemma AfterPreserves<X>(f: Token -> seq<X>, g: seq<string> -> seq<X>, tabSize: nat, st: State, column: nat, t: Token)
    requires Sees(f, g) && st.InComment? && !t.Comment?
    requires Is(t, BUFFERED) && !Is(t, COMMENT)
    ensures
      var (emitted, next, _) := Step(tabSize, st, column, t);
      FlatMap(f, emitted) + Pending(g, next) == Pending(g, st) + f(t)
  {
    var pending := g(st.lines);
    if t.Newline? && st.trailingNewline {
      EmptyLinePreserves(f, g, st.lines, st.leadingNewline);
      assert pending + [] == pending;
    } else if Is(t, CONTROL) {
      FlatMapOne(f, t);
      assert pending == [] || f(t) == [];
      assert f(t) + [] == [] + f(t) == f(t);
    } else {
      FlatMapNothing(f, []);
      assert [] + pending == pending + [];
    }
  }

  lemma EmptyLinePreserves<X>(f: Token -> seq<X>, g: seq<string> -> seq<X>, lines: seq<string>, leading: bool)
    requires Sees(f, g)
    ensures FlatMap(f, Made(lines, leading, true) + [Newline]) == g(lines)
  {
    MadePreserves(f, g, lines, leading, true);
    FlatMapConcat(f, Made(lines, leading, true), [Newline]);
    FlatMapOne(f, Newline);
    hide FlatMap, Made;
    assert g(lines) + [] == g(lines);
  }

  lemma FinishPreserves<X>(f: Token -> seq<X>, g: seq<string> -> seq<X>, st: State, end: bool)
    requires Sees(f, g)
    ensures FlatMap(f, Finish(st, end)) == Pending(g, st)
  {
    if st.InComment? {
      MadePreserves(f, g, st.lines, st.leadingNewline, st.trailingNewline || end);
    }
  }

  lemma {:induction false} AutomatonPreserves<X>(f: Token -> seq<X>, g: seq<string> -> seq<X>,
      tabSize: nat, end: bool, st: State, column: nat, buffer: seq<Token>)
    requires Sees(f, g)
    requires forall i :: 0 <= i < |buffer| ==>
        Is(buffer[i], BUFFERED) && (Is(buffer[i], COMMENT) ==> buffer[i].Comment?)
    ensures FlatMap(f, Automaton(tabSize, end, st, column, buffer).0) == Pending(g, st) + FlatMap(f, buffer)
    decreases |buffer|
  {
    hide Step;
    hide Sees;
    hide Pending;
    if buffer == [] {
      FinishPreserves(f, g, st, end);
      assert Pending(g, st) + [] == Pending(g, st);
    } else {
      var t, rest := buffer[0], buffer[1..];
      var (emitted, next, column') := Step(tabSize, st, column, t);
      StepPreserves(f, g, tabSize, st, column, t);
      AutomatonPreserves(f, g, tabSize, end, next, column', rest);
      FlatMapConcat(f, emitted, Automaton(tabSize, end, next, column', rest).0);
      var before, after := Pending(g, st), FlatMap(f, rest);
      assert FlatMap(f, emitted) + (Pending(g, next) + after) == (before + f(t)) + after;
      assert (before + f(t)) + after == before + (f(t) + after);
    }
  }

  /** Only raw comments are processed: the input has none that were processed before. */
  ghost predicate RawComments(ts: seq<Token>) {
    forall i :: 0 <= i < |ts| && Is(ts[i], COMMENT) ==> ts[i].Comment?
  }

  lemma {:induction false} FlowPreserves<X>(f: Token -> seq<X>, g: seq<string> -> seq<X>,
      tabSize: nat, start: bool, column: nat, held: seq<Token>, ts: seq<Token>)
    requires Sees(f, g) && RawComments(held) && RawComments(ts)
    requires forall i :: 0 <= i < |held| ==> Is(held[i], BUFFERED)
    ensures FlatMap(f, Flow(tabSize, start, column, held, ts)) == FlatMap(f, held) + FlatMap(f, ts)
    decreases |ts|
  {
    hide Sees, Automaton, FlatMap;
    var all := FlatMap(f, held);
    assert FlatMap(f, []) == [] by { FlatMapNothing(f, []); }
    assert [] + all == all && all + [] == all;
    if ts == [] {
      AutomatonPreserves(f, g, tabSize, true, PreComment(start), column, held);
    } else {
      var t, rest := ts[0], ts[1..];
      FlatMapOne(f, t);
      FlatMapCons(f, ts);
      Assoc(all, f(t), FlatMap(f, rest));
      if Is(t, BUFFERED) {
        FlatMapConcat(f, held, [t]);
        FlowPreserves(f, g, tabSize, start, column, held + [t], rest);
      } else {
        var (out, last) := Automaton(tabSize, false, PreComment(start), column, held);
        AutomatonPreserves(f, g, tabSize, false, PreComment(start), column, held);
        FlowPreserves(f, g, tabSize, false, last + |AsBytes(t)|, [], rest);
        FlatMapConcat(f, out + [t], Flow(tabSize, false, last + |AsBytes(t)|, [], rest));
        FlatMapConcat(f, out, [t]);
        assert [] + FlatMap(f, rest) == FlatMap(f, rest);
      }
    }
  }

  lemma LineItemsAdd()
    ensures Additive(LineItems)
  {
    forall a, b: seq<string>
      ensures LineItems(a + b) == LineItems(a) + LineItems(b)
    {}
  }

  lemma ItemsSeeLines()
    ensures SeesLines(Items, LineItems)
  {}

  lemma ItemsSeeThroughSplit()
    ensures SeesThroughSplit(Items, LineItems)
  {
    forall c, indentation, tabSize
      ensures Items(Comment(c)) == LineItems(Split(c, indentation, tabSize))
    {
      SplitKeepsLines(c, indentation, tabSize);
    }
  }

  lemma EssenceIsSeen()
    ensures Sees(Items, LineItems)
  {
    LineItemsAdd();
    ItemsSeeLines();
    ItemsSeeThroughSplit();
    hide Additive;
    hide SeesLines;
    hide SeesThroughSplit;
  }

  function NoItems(lines: seq<string>): seq<Token> { [] }

  lemma BonesSeeLines()
    ensures SeesLines(Bone, NoItems)
  {}

  lemma SkeletonIsSeen()
    ensures Sees(Bone, NoItems)
  {
    BonesSeeLines();
    BonesSeeNothingElse();
    hide SeesLines, SeesNoSpacing, Additive, SeesThroughSplit, Bone;
  }

  lemma BonesSeeNothingElse()
    ensures SeesNoSpacing(Bone) && Additive(NoItems) && SeesThroughSplit(Bone, NoItems)
  {
    hide Split;
  }

  /** The comment lines, the text and the grammar rules come out as they went in. */
  lemma RunPreserves(tabSize: nat, ts: seq<Token>)
    requires RawComments(ts)
    ensures Essence(Run(tabSize, ts)) == Essence(ts)
    ensures Skeleton(Run(tabSize, ts)) == Skeleton(ts)
  {
    EssenceIsSeen();
    SkeletonIsSeen();
    FlowPreserves(Items, LineItems, tabSize, true, 0, [], ts);
    FlowPreserves(Bone, NoItems, tabSize, true, 0, [], ts);
    assert [] + Essence(ts) == Essence(ts) && [] + Skeleton(ts) == Skeleton(ts);
  }

  /** One more token of the buffer, after what was emitted before. */
  lemma AutomatonStep(tabSize: nat, endOfInput: bool, st: State, column: nat, before: seq<Token>, buffer: seq<Token>)
    requires buffer != []
    ensures
      var (emitted, next, column') := Step(tabSize, st, column, buffer[0]);
      var (out, last) := Automaton(tabSize, endOfInput, st, column, buffer);
      var (rest, end) := Automaton(tabSize, endOfInput, next, column', buffer[1..]);
      before + out == before + emitted + rest && last == end
  {
    hide Step;
    var (emitted, next, column') := Step(tabSize, st, column, buffer[0]);
    Assoc(before, emitted, Automaton(tabSize, endOfInput, next, column', buffer[1..]).0);
  }

  /** The lines of a comment under construction are never none. */
  predicate HasLines(st: State) { st.InComment? ==> st.lines != [] }

  class CommentProcessor {
    const tabSize: nat
    var input: seq<Token>
    var inputBuffer: seq<Token>
    var outputBuffer: seq<Token>
    var startOfInput: bool
    var endOfInput: bool
    var indentation: nat

    ghost predicate Valid()
      reads this
    {
      && NoEmptyComment(inputBuffer) && NoEmptyComment(input)
      && (endOfInput ==> input == [] && inputBuffer == [])
    }

    /** Everything that the iterator will still return. */
    ghost function Remaining(): seq<Token>
      reads this
    {
      outputBuffer + Flow(tabSize, startOfInput, indentation, inputBuffer, input)
    }

    constructor (input: seq<Token>, tabSize: nat)
      requires NoEmptyComment(input)
      ensures Valid() && Remaining() == Run(tabSize, input)
    {
      this.tabSize := tabSize;
      this.input := input;
      inputBuffer, outputBuffer := [], [];
      startOfInput, endOfInput, indentation := true, false, 0;
    }

    method PushComment(lines: seq<string>, leadingNewline: bool, trailingNewline: bool)
      requires lines != []
      modifies this`outputBuffer
      ensures outputBuffer == old(outputBuffer) + Made(lines, leadingNewline, trailingNewline)
    {
      outputBuffer := outputBuffer + [Classify(lines, leadingNewline, trailingNewline)];
      if trailingNewline {
        outputBuffer := outputBuffer + [Newline];
      }
    }

    /** The arms for a token found before any comment. */
    method BeforeComment(st: State, token: Token) returns (next: State)
      requires st.PreComment? && (token.Comment? ==> token.text != [])
      modifies this`outputBuffer, this`indentation
      ensures
        var (emitted, state, column) := Step(tabSize, st, old(indentation), token);
        next == state && indentation == column && outputBuffer == old(outputBuffer) + emitted
      ensures HasLines(next)
    {
      next := st;
      if token.Comment? {
        var lines := SplitCommentLines(token.text, indentation, tabSize);
        LinesNonEmpty(token.text);
        next := InComment(indentation, st.leadingNewline, false, lines);
        indentation := indentation + |AsBytes(token)|;
        return;
      }
      if token.Whitespace? {
        indentation := indentation + 1;
      } else if token.Tab? {
        indentation := indentation + tabSize;
      } else if token.Newline? {
        indentation := 0;
        next := PreComment(true);
      }
      outputBuffer := outputBuffer + [token];
    }

    /** The arms for a token found after a comment. */
    method AfterComment(st: State, token: Token) returns (next: State)
      requires st.InComment? && st.lines != [] && (token.Comment? ==> token.text != [])
      modifies this`outputBuffer, this`indentation
      ensures
        var (emitted, state, column) := Step(tabSize, st, old(indentation), token);
        next == state && indentation == column && outputBuffer == old(outputBuffer) + emitted
      ensures HasLines(next)
    {
      next := st;
      if token.Whitespace? {
        indentation := indentation + 1;
      } else if token.Tab? {
        indentation := indentation + tabSize;
      } else if token.Newline? {
        if st.trailingNewline {
          PushComment(st.lines, st.leadingNewline, st.trailingNewline);
          outputBuffer := outputBuffer + [Newline];
          next := PreComment(true);
        } else {
          next := st.(trailingNewline := true);
        }
        indentation := 0;
      } else if token.Comment? {
        if st.indentation == indentation {
          var more := SplitCommentLines(token.text, st.indentation, tabSize);
          next := st.(lines := st.lines + more, trailingNewline := false);
        } else {
          PushComment(st.lines, st.leadingNewline, st.trailingNewline);
          var lines := SplitCommentLines(token.text, indentation, tabSize);
          LinesNonEmpty(token.text);
          next := InComment(indentation, st.trailingNewline, false, lines);
        }
      } else {
        outputBuffer := outputBuffer + [token];
      }
    }

    method ProcessInputBuffer()
      requires NoEmptyComment(inputBuffer)
      modifies this`inputBuffer, this`outputBuffer, this`indentation
      ensures
        var (out, last) := old(Automaton(tabSize, endOfInput, PreComment(startOfInput), indentation, inputBuffer));
        inputBuffer == [] && indentation == last && outputBuffer == old(outputBuffer) + out
    {
      var state := PreComment(startOfInput);
      ghost var (out, last) := Automaton(tabSize, endOfInput, state, indentation, inputBuffer);
      ghost var target := outputBuffer + out;
      while inputBuffer != []
        invariant HasLines(state) && NoEmptyComment(inputBuffer)
        invariant outputBuffer + Automaton(tabSize, endOfInput, state, indentation, inputBuffer).0 == target
        invariant Automaton(tabSize, endOfInput, state, indentation, inputBuffer).1 == last
        decreases |inputBuffer|
      {
        var token := inputBuffer[0];
        AutomatonStep(tabSize, endOfInput, state, indentation, outputBuffer, inputBuffer);
        hide Step, Split, Automaton;
        inputBuffer := inputBuffer[1..];
        if state.PreComment? {
          state := BeforeComment(state, token);
        } else {
          state := AfterComment(state, token);
        }
      }
      if state.InComment? {
        PushComment(state.lines, state.leadingNewline, state.trailingNewline || endOfInput);
      } else {
        assert outputBuffer + [] == outputBuffer;
      }
    }

    method Next() returns (r: Option<Token>)
      requires Valid()
      modifies this
      ensures Valid()
      ensures r.Some? ==> old(Remaining()) == [r.value] + Remaining()
      ensures r.None? ==> old(Remaining()) == [] && Remaining() == []
    {
      hide Automaton;
      while true
        invariant Valid() && Remaining() == old(Remaining())
        decreases |input|, |inputBuffer|, if outputBuffer == [] then 1 else 0
      {
        if outputBuffer != [] {
          r := PopOutput();
          return;
        }
        if input != [] && Is(input[0], BUFFERED) {
          inputBuffer, input := inputBuffer + [input[0]], input[1..];
        } else if input != [] {
          var token := input[0];
          input := input[1..];
          ProcessInputBuffer();
          startOfInput := false;
          indentation := indentation + |AsBytes(token)|;
          outputBuffer := outputBuffer + [token];
        } else if inputBuffer != [] {
          endOfInput := true;
          ProcessInputBuffer();
        } else {
          return None;
        }
      }
    }

    method PopOutput() returns (r: Option<Token>)
      requires outputBuffer != []
      modifies this`outputBuffer
      ensures r.Some? && old(Remaining()) == [r.value] + Remaining()
    {
      r := Some(outputBuffer[0]);
      assert outputBuffer == [outputBuffer[0]] + outputBuffer[1..];
      outputBuffer := outputBuffer[1..];
    }
  }
}
