/** Layout of the braces of hex patterns that span several lines. */
module HexPatterns {
  import opened Seqs
  import opened Tokens

  datatype State = State(buffering: bool, inHexPattern: bool, multiLine: bool)

  const START := State(false, false, false)

  /** What is emitted when `t` is read, which is nothing if it has to wait, and the new state. */
  function Emit(st: State, buffer: seq<Token>, t: Token): (seq<Token>, State) {
    if t == Begin(HexPattern) then (buffer + [t], State(false, true, false))
    else if t == End(HexPattern) then (buffer + [t], st.(inHexPattern := false))
    else if t == LBRACE && st.inHexPattern then (buffer + [t], st.(buffering := true))
    else if t == RBRACE && st.inHexPattern then (buffer + Separator(st.multiLine, buffer) + [t], st)
    else if t == Newline && st.inHexPattern then
      (FirstLine(st.multiLine, buffer + [t]), st.(multiLine := true))
    else if st.buffering then ([], st)
    else (buffer + [t], st)
  }

  /** The streaming specification, given the tokens that wait in the buffer. */
  function Flow(st: State, buffer: seq<Token>, ts: seq<Token>): seq<Token>
    decreases |ts|
  {
    if ts == [] then buffer
    else
      var (head, next) := Emit(st, buffer, ts[0]);
      if head == [] then Flow(next, buffer + [ts[0]], ts[1..]) else head + Flow(next, [], ts[1..])
  }

  /** The newline that goes before the closing brace, unless one is there already. */
  function Separator(multiLine: bool, before: seq<Token>): seq<Token> {
    if multiLine && before != [] && before[|before| - 1] != Newline then [Newline] else []
  }

  /** The newline that goes after the opening brace, unless one is there already. */
  function FirstLine(multiLine: bool, line: seq<Token>): seq<Token>
    requires line != []
  {
    if !multiLine && line[0] != Newline then [Newline] + line else line
  }

  // ----- The reference: the layout of the body of a pattern

  /** Neither a brace nor the start or the end of a hex pattern. */
  predicate IsInner(t: Token) {
    t != LBRACE && t != RBRACE && t != Begin(HexPattern) && t != End(HexPattern)
  }

  ghost predicate Inner(ts: seq<Token>) {
    forall i :: 0 <= i < |ts| ==> IsInner(ts[i])
  }

  /**
   What comes between the braces. `early` says that a newline came before the
   opening brace; then the body is taken for a later line of the pattern.
   */
  function Body(early: bool, body: seq<Token>): seq<Token> {
    if early then body + Separator(true, body)
    else if Newline !in body then body
    else FirstLine(false, body) + Separator(true, body)
  }

  const AFTER_BRACE := State(true, true, false)

  lemma FlowCons(st: State, buffer: seq<Token>, t: Token, rest: seq<Token>)
    ensures
      var (head, next) := Emit(st, buffer, t);
      Flow(st, buffer, [t] + rest) == if head == [] then Flow(next, buffer + [t], rest) else head + Flow(next, [], rest)
  {
    hide Emit;
    assert ([t] + rest)[1..] == rest;
  }

  lemma BodyCons(body: seq<Token>, tail: seq<Token>)
    requires body != []
    ensures body + [RBRACE] + tail == [body[0]] + (body[1..] + [RBRACE] + tail)
  {}

  lemma {:induction false} LaterLines(buffer: seq<Token>, body: seq<Token>, tail: seq<Token>)
    requires Inner(body) && Newline !in buffer
    ensures Flow(State(true, true, true), buffer, body + [RBRACE] + tail) ==
            buffer + body + Separator(true, buffer + body) + [RBRACE] + Flow(State(true, true, true), [], tail)
    decreases |body|
  {
    hide Flow;
    var st, end := State(true, true, true), [RBRACE] + Flow(State(true, true, true), [], tail);
    if body == [] {
      assert [] + [RBRACE] + tail == [RBRACE] + tail;
      FlowCons(st, buffer, RBRACE, tail);
      assert buffer + body == buffer;
    } else {
      var t, rest := body[0], body[1..];
      BodyCons(body, tail);
      FlowCons(st, buffer, t, rest + [RBRACE] + tail);
      var line := buffer + [t];
      assert buffer + body == line + rest;
      if t == Newline {
        LaterLines([], rest, tail);
        LastOfConcat(line, rest);
        hide Separator, Inner;
        NextLine(line, rest, Separator(true, rest), Flow(st, [], tail));
      } else {
        LaterLines(line, rest, tail);
      }
    }
  }

  lemma NextLine(line: seq<Token>, rest: seq<Token>, sep: seq<Token>, end: seq<Token>)
    ensures [] + rest == rest && line + (rest + sep + [RBRACE] + end) == line + rest + sep + [RBRACE] + end
  {}

  lemma LastOfConcat(a: seq<Token>, b: seq<Token>)
    requires a != [] && a[|a| - 1] == Newline
    ensures Separator(true, a + b) == Separator(true, b)
  {
    if b == [] {
      assert a + b == a;
    }
  }

  lemma {:induction false} FirstLines(buffer: seq<Token>, body: seq<Token>, tail: seq<Token>)
    requires Inner(body) && Newline !in buffer
    ensures Flow(AFTER_BRACE, buffer, body + [RBRACE] + tail) ==
            Body(false, buffer + body) + [RBRACE] +
            Flow(AFTER_BRACE.(multiLine := Newline in body), [], tail)
    decreases |body|
  {
    hide Flow;
    if body == [] {
      assert [] + [RBRACE] + tail == [RBRACE] + tail;
      FlowCons(AFTER_BRACE, buffer, RBRACE, tail);
      assert buffer + body == buffer && buffer + [] == buffer;
    } else {
      var t, rest := body[0], body[1..];
      BodyCons(body, tail);
      FlowCons(AFTER_BRACE, buffer, t, rest + [RBRACE] + tail);
      assert buffer + body == (buffer + [t]) + rest;
      if t == Newline {
        EndsFirstLine(buffer, rest, tail);
      } else {
        FirstLines(buffer + [t], rest, tail);
        assert body == [t] + rest;
      }
    }
  }

  lemma EndsFirstLine(buffer: seq<Token>, rest: seq<Token>, tail: seq<Token>)
    requires Inner(rest)
    ensures
      var (line, end) := (buffer + [Newline], Flow(State(true, true, true), [], tail));
      FirstLine(false, line) + Flow(State(true, true, true), [], rest + [RBRACE] + tail)
      == Body(false, line + rest) + [RBRACE] + end
  {
    hide Flow, Inner, Separator, Body, FirstLine;
    LaterLines([], rest, tail);
    var end := Flow(State(true, true, true), [], tail);
    EndOfFirstLine(buffer, rest, [RBRACE] + end);
    Assoc([] + rest + Separator(true, [] + rest), [RBRACE], end);
    Assoc(Body(false, buffer + [Newline] + rest), [RBRACE], end);
  }

  lemma EndOfFirstLine(buffer: seq<Token>, rest: seq<Token>, end: seq<Token>)
    ensures
      var line := buffer + [Newline];
      FirstLine(false, line) + ([] + rest + Separator(true, [] + rest) + end) == Body(false, line + rest) + end
  {
    var line := buffer + [Newline];
    var all := line + rest;
    LastOfConcat(line, rest);
    FirstLineConcat(line, rest);
    assert all[|buffer|] == Newline && [] + rest == rest;
    var sep := Separator(true, rest);
    assert FirstLine(false, line) + (rest + sep + end) == FirstLine(false, line) + rest + sep + end;
  }

  lemma FirstLineConcat(a: seq<Token>, b: seq<Token>)
    requires a != []
    ensures FirstLine(false, a + b) == FirstLine(false, a) + b
  {
    assert (a + b)[0] == a[0];
    Assoc([Newline], a, b);
  }

  lemma {:induction false} BeforeBrace(early: bool, pre: seq<Token>, tail: seq<Token>)
    requires Inner(pre)
    ensures Flow(State(false, true, early), [], pre + [LBRACE] + tail) ==
            pre + [LBRACE] + Flow(State(true, true, early || Newline in pre), [], tail)
    decreases |pre|
  {
    var ts := pre + [LBRACE] + tail;
    if pre == [] {
      assert ts[0] == LBRACE && ts[1..] == tail;
    } else {
      var t, rest := pre[0], pre[1..];
      assert ts[0] == t && ts[1..] == rest + [LBRACE] + tail;
      assert pre == [t] + rest && [] + [t] == [t];
      assert Emit(State(false, true, early), [], t) == ([t], State(false, true, early || t == Newline));
      var more := early || t == Newline;
      var end := Flow(State(true, true, more || Newline in rest), [], tail);
      assert [t] + (rest + [LBRACE] + end) == pre + [LBRACE] + end;
      BeforeBrace(early || t == Newline, rest, tail);
    }
  }

  /**
   The layout of a hex pattern. With no newline before its opening brace, a
   pattern that spans several lines gets a newline right after `{` and right
   before `}`, and a pattern in a single line is left as it is.
   */
  lemma PatternLayout(pre: seq<Token>, body: seq<Token>, tail: seq<Token>)
    requires Inner(pre) && Inner(body)
    ensures
      var early := Newline in pre;
      Flow(State(false, true, false), [], pre + [LBRACE] + (body + [RBRACE] + tail)) ==
      pre + [LBRACE] + Body(early, body) + [RBRACE] +
      Flow(State(true, true, early || Newline in body), [], tail)
  {
    var early := Newline in pre;
    hide Flow, Separator, FirstLine;
    BeforeBrace(false, pre, body + [RBRACE] + tail);
    assert [] + body == body;
    var end := Flow(State(true, true, early || Newline in body), [], tail);
    if early {
      LaterLines([], body, tail);
    } else {
      FirstLines([], body, tail);
    }
    hide Body, Inner;
    Assoc4(pre + [LBRACE], Body(early, body), [RBRACE], end);
  }

  /**
   The body of a pattern with its newlines: one is added at the start if the body
   spans several lines and nothing before it did, one at the end if the pattern
   spans several lines, and neither where there is a newline already.
   */
  lemma BodyExactly(early: bool, body: seq<Token>)
    ensures
      var severalLines := exists i :: 0 <= i < |body| && body[i] == Newline;
      var first := if !early && severalLines && body[0] != Newline then [Newline] else [];
      var last := if (early || severalLines) && body != [] && body[|body| - 1] != Newline then [Newline] else [];
      Body(early, body) == first + body + last
  {
    assert [] + body == body && body + [] == body;
    if Newline in body {
      var line := FirstLine(false, body);
      assert line[|line| - 1] == body[|body| - 1];
    }
  }

  lemma EmitOutside(st: State, buffer: seq<Token>, t: Token)
    requires !st.inHexPattern && t != Begin(HexPattern)
    ensures var (head, next) := Emit(st, buffer, t); !next.inHexPattern && (head == [] || head == buffer + [t])
  {}

  /** Without the start of a hex pattern nothing changes. */
  lemma {:induction false} OutsidePatterns(st: State, buffer: seq<Token>, ts: seq<Token>)
    requires !st.inHexPattern && Begin(HexPattern) !in ts
    ensures Flow(st, buffer, ts) == buffer + ts
    decreases |ts|
  {
    if ts == [] {
      assert buffer + ts == buffer;
    } else {
      hide Emit;
      var t, rest := ts[0], ts[1..];
      assert t in ts && ts == [t] + rest;
      assert Begin(HexPattern) !in rest by { if Begin(HexPattern) in rest { RestIn(ts, Begin(HexPattern)); } }
      EmitOutside(st, buffer, t);
      var (head, next) := Emit(st, buffer, t);
      OutsidePatterns(next, if head == [] then buffer + [t] else [], rest);
      assert buffer + [t] + rest == buffer + ts;
    }
  }

  lemma RestIn(ts: seq<Token>, t: Token)
    requires ts != [] && t in ts[1..]
    ensures t in ts
  {}

  lemma {:induction false} BeforePattern(st: State, buffer: seq<Token>, pre: seq<Token>, rest: seq<Token>)
    requires !st.inHexPattern && Begin(HexPattern) !in pre
    ensures Flow(st, buffer, pre + ([Begin(HexPattern)] + rest)) ==
            buffer + pre + [Begin(HexPattern)] + Flow(State(false, true, false), [], rest)
    decreases |pre|
  {
    var all := [Begin(HexPattern)] + rest;
    hide Flow;
    if pre == [] {
      assert pre + all == all && buffer + pre == buffer;
      FlowCons(st, buffer, Begin(HexPattern), rest);
    } else {
      hide Emit;
      EmitOutside(st, buffer, pre[0]);
      var t, others := pre[0], pre[1..];
      assert t in pre;
      assert Begin(HexPattern) !in others by { if Begin(HexPattern) in others { RestIn(pre, Begin(HexPattern)); } }
      assert pre + all == [t] + (others + all);
      FlowCons(st, buffer, t, others + all);
      var (head, next) := Emit(st, buffer, t);
      BeforePattern(next, if head == [] then buffer + [t] else [], others, rest);
      assert pre == [t] + others;
      var end := [Begin(HexPattern)] + Flow(State(false, true, false), [], rest);
      assert buffer + [t] + others + end == buffer + pre + end;
      assert buffer + [t] + ([] + others + end) == buffer + pre + end;
    }
  }

  /**
   A hex pattern in a stream is laid out on its own, whatever comes before it, and
   what comes after it is processed as from outside of any pattern.
   */
  lemma PatternInStream(
      st: State, before: seq<Token>, pre: seq<Token>, body: seq<Token>, tail: seq<Token>) returns (next: State)
    requires !st.inHexPattern && Begin(HexPattern) !in before && Inner(pre) && Inner(body)
    ensures !next.inHexPattern
    ensures
      Flow(st, [], before +
          ([Begin(HexPattern)] + (pre + [LBRACE] + (body + [RBRACE] + ([End(HexPattern)] + tail))))) ==
      before + [Begin(HexPattern)]
      + (pre + [LBRACE] + Body(Newline in pre, body) + [RBRACE] + ([End(HexPattern)] + Flow(next, [], tail)))
  {
    hide Flow, Inner, Body;
    var end := [End(HexPattern)] + tail;
    BeforePattern(st, [], before, pre + [LBRACE] + (body + [RBRACE] + end));
    PatternLayout(pre, body, end);
    var last := State(true, true, Newline in pre || Newline in body);
    FlowCons(last, [], End(HexPattern), tail);
    next := last.(inHexPattern := false);
    assert [] + before == before && [] + [End(HexPattern)] == [End(HexPattern)];
  }

  /**
   The body has a newline at both ends if it has one at all and none came
   before the opening brace. When one did, a newline is only sure at the end.
   */
  lemma BodyEnds(early: bool, body: seq<Token>)
    ensures
      var b := Body(early, body);
      && (!early && Newline !in body ==> b == body)
      && (!early && Newline in body ==> b[0] == Newline && b[|b| - 1] == Newline)
      && (early && body != [] ==> b[0] == body[0] && b[|b| - 1] == Newline)
      && (forall t :: t != Newline ==> multiset(b)[t] == multiset(body)[t])
  {
    var b, sep := Body(early, body), Separator(true, body);
    if early {
      assert multiset(b) == multiset(body) + multiset(sep);
    } else if Newline in body {
      assert multiset(b) == multiset(FirstLine(false, body)) + multiset(sep);
    }
  }

  /**
   In a pattern of several lines a newline comes right after the opening brace
   if and only if one was there or none came before the brace.
   */
  lemma NewlineAfterBraceExactly(pre: seq<Token>, body: seq<Token>, tail: seq<Token>)
    requires Inner(pre) && Inner(body) && Newline in body
    ensures
      var out := Flow(State(false, true, false), [], pre + [LBRACE] + (body + [RBRACE] + tail));
      && |out| > |pre| + 1 && out[|pre|] == LBRACE
      && (out[|pre| + 1] == Newline <==> body[0] == Newline || Newline !in pre)
  {
    PatternLayout(pre, body, tail);
    BodyEnds(Newline in pre, body);
  }

  /** A comment and a newline before the opening brace prevent the newline after it. */
  lemma EarlyNewlineIsNotFixed()
    ensures
      var pre, body := [BlockComment(["/*c*/"]), Newline] + [LBRACE], [Literal("00"), Newline, Literal("01")];
      Flow(START, [], [Begin(HexPattern)] + pre + body + ([RBRACE] + [End(HexPattern)])) ==
      [Begin(HexPattern)] + pre + body + ([Newline, RBRACE] + [End(HexPattern)])
  {
    var pre, body, end := [BlockComment(["/*c*/"]), Newline], [Literal("00"), Newline, Literal("01")],
        [End(HexPattern)];
    var rest := pre + [LBRACE] + (body + [RBRACE] + end);
    assert pre[1] == Newline && body[1] == Newline;
    hide Flow;
    FlowCons(START, [], Begin(HexPattern), rest);
    assert Flow(START, [], [Begin(HexPattern)] + rest) ==
      [Begin(HexPattern)] + Flow(State(false, true, false), [], rest);
    PatternLayout(pre, body, end);
    FlowCons(State(true, true, true), [], End(HexPattern), []);
    FlowEnds(State(true, false, true), []);
    assert Body(true, body) == body + [Newline];
    assert end + [] == end && [] + end == end;
    hide Body, Emit;
    Regroup(pre, body, end);
  }

  lemma Regroup(pre: seq<Token>, body: seq<Token>, end: seq<Token>)
    ensures [Begin(HexPattern)] + (pre + [LBRACE]) + body + ([RBRACE] + end)
         == [Begin(HexPattern)] + (pre + [LBRACE] + (body + [RBRACE] + end))
    ensures [Begin(HexPattern)] + (pre + [LBRACE] + (body + [Newline]) + [RBRACE] + end)
         == [Begin(HexPattern)] + (pre + [LBRACE]) + body + ([Newline, RBRACE] + end)
  {}

  lemma FlowEnds(st: State, buffer: seq<Token>)
    ensures Flow(st, buffer, []) == buffer
  {}

  /** Outside hex patterns the buffering flag, which is never reset there, only delays tokens. */
  lemma {:induction false} BufferingOnlyDelays(st: State, buffer: seq<Token>, ts: seq<Token>)
    requires !st.inHexPattern
    ensures Flow(st, buffer, ts) == buffer + Flow(st.(buffering := false), [], ts)
    decreases |ts|
  {
    if ts == [] {
      assert buffer + [] == buffer;
    } else {
      var t, rest, plain := ts[0], ts[1..], st.(buffering := false);
      OutsideEmit(st, buffer, t);
      OutsideEmit(plain, [], t);
      var next := Emit(plain, [], t).1;
      var tail := Flow(next, [], rest);
      assert Flow(plain, [], ts) == [t] + tail;
      hide Emit;
      Assoc(buffer, [t], tail);
      assert [] + tail == tail;
      if t != Begin(HexPattern) {
        BufferingOnlyDelays(st, [], rest);
        if Emit(st, buffer, t).0 == [] {
          BufferingOnlyDelays(st, buffer + [t], rest);
        }
      }
    }
  }

  /** Outside hex patterns a token comes out as it is, unless it has to wait. */
  lemma OutsideEmit(st: State, buffer: seq<Token>, t: Token)
    requires !st.inHexPattern
    ensures
      var (head, next) := Emit(st, buffer, t);
      && (if t == Begin(HexPattern) then next == State(false, true, false) else next == st)
      && (head == buffer + [t] || (head == [] && st.buffering && t != Begin(HexPattern)))
  {
    assert [] + [t] == [t];
  }

  lemma {:induction false} FlowPreserves<X>(f: Token -> seq<X>, st: State, buffer: seq<Token>, ts: seq<Token>)
    requires f(Newline) == []
    ensures FlatMap(f, Flow(st, buffer, ts)) == FlatMap(f, buffer) + FlatMap(f, ts)
    decreases |ts|
  {
    hide Emit, FlatMap;
    assert FlatMap(f, []) == [] by { FlatMapNothing(f, []); }
    if ts == [] {
      assert FlatMap(f, buffer) + [] == FlatMap(f, buffer);
    } else {
      var t, rest := ts[0], ts[1..];
      var (head, next) := Emit(st, buffer, t);
      var before, here, after := FlatMap(f, buffer), f(t), FlatMap(f, rest);
      if head == [] {
        FlowPreserves(f, next, buffer + [t], rest);
        FlatMapConcat(f, buffer, [t]);
        FlatMapOne(f, t);
      } else {
        EmitPreserves(f, st, buffer, t);
        FlowPreserves(f, next, [], rest);
        FlatMapConcat(f, head, Flow(next, [], rest));
        assert [] + after == after;
      }
      FlatMapCons(f, ts);
      Assoc(before, here, after);
    }
  }

  lemma EmitPreserves<X>(f: Token -> seq<X>, st: State, buffer: seq<Token>, t: Token)
    requires f(Newline) == []
    ensures
      var head := Emit(st, buffer, t).0;
      head != [] ==> FlatMap(f, head) == FlatMap(f, buffer) + f(t)
  {
    FlatMapOne(f, t);
    FlatMapConcat(f, buffer, [t]);
    if t == RBRACE && st.inHexPattern {
      var sep := Separator(st.multiLine, buffer);
      FlatMapNothing(f, sep);
      hide FlatMap, Separator;
      FlatMapConcat(f, buffer, sep);
      FlatMapConcat(f, buffer + sep, [t]);
      assert FlatMap(f, buffer) + [] == FlatMap(f, buffer);
    } else if t == Newline {
      FlatMapOne(f, Newline);
      hide FlatMap;
      FlatMapConcat(f, [Newline], buffer + [t]);
      var all := FlatMap(f, buffer + [t]);
      assert [] + all == all;
    }
  }

  class FormatHexPatterns {
    var input: seq<Token>
    var outputBuffer: seq<Token>
    var buffering: bool
    var inHexPattern: bool
    var multiLine: bool

    /**
     Everything that the iterator will still return. Once a token has been
     returned, the rest of the buffer is returned before more input is read.
     */
    ghost function Remaining(): seq<Token>
      reads this
    {
      outputBuffer + Flow(State(buffering, inHexPattern, multiLine), [], input)
    }

    constructor (input: seq<Token>)
      ensures Remaining() == Flow(START, [], input)
    {
      this.input := input;
      outputBuffer := [];
      buffering, inHexPattern, multiLine := false, false, false;
    }

    method Next() returns (r: Option<Token>)
      modifies this
      ensures r.Some? ==> old(Remaining()) == [r.value] + Remaining()
      ensures r.None? ==> old(Remaining()) == [] && Remaining() == []
    {
      if outputBuffer != [] {
        r := PopOutput();
        return;
      }
      while input != []
        invariant Flow(State(buffering, inHexPattern, multiLine), outputBuffer, input) == old(Remaining())
        decreases |input|
      {
        var next := input[0];
        input := input[1..];
        var ready := Take(next);
        if ready {
          r := PopOutput();
          return;
        }
      }
      assert outputBuffer + Flow(State(buffering, inHexPattern, multiLine), [], input) == outputBuffer;
      if outputBuffer == [] {
        return None;
      }
      r := PopOutput();
    }

    /** The arms that handle one token; true if the buffer is to be returned. */
    method Take(next: Token) returns (ready: bool)
      modifies this`buffering, this`inHexPattern, this`multiLine, this`outputBuffer
      ensures
        var (head, state) := Emit(old(State(buffering, inHexPattern, multiLine)), old(outputBuffer), next);
        && State(buffering, inHexPattern, multiLine) == state
        && ready == (head != [])
        && outputBuffer == if ready then head else old(outputBuffer) + [next]
    {
      if next == Begin(HexPattern) {
        inHexPattern, multiLine, buffering := true, false, false;
        outputBuffer := outputBuffer + [next];
        return true;
      } else if next == End(HexPattern) {
        inHexPattern := false;
        outputBuffer := outputBuffer + [next];
        return true;
      } else if next == LBRACE && inHexPattern {
        buffering := true;
        outputBuffer := outputBuffer + [next];
        return true;
      } else if next == RBRACE && inHexPattern {
        if outputBuffer != [] && outputBuffer[|outputBuffer| - 1] != Newline && multiLine {
          outputBuffer := outputBuffer + [Newline];
        }
        outputBuffer := outputBuffer + [next];
        return true;
      } else if next == Newline && inHexPattern {
        outputBuffer := outputBuffer + [next];
        if !multiLine && outputBuffer[0] != Newline {
          outputBuffer := [Newline] + outputBuffer;
        }
        multiLine := true;
        return true;
      } else {
        outputBuffer := outputBuffer + [next];
        return !buffering;
      }
    }

    method PopOutput() returns (r: Option<Token>)
      requires outputBuffer != []
      modifies this`outputBuffer
      ensures r.Some? && old(Remaining()) == [r.value] + Remaining()
    {
      r := Some(outputBuffer[0]);
      assert outputBuffer == [outputBuffer[0]] + outputBuffer[1..];
      outputBuffer := outputBuffer[1..];
    }
  }
}
