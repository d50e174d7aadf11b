/**
 What the processing of comments does to the rest of a stream: text and newlines
 stay where they are, and each group of comments stands in the place of its raw
 comments. Only the newlines inside of a group go, into its lines.
 */
module CommentLayout {
  import opened Seqs
  import opened Tokens
  import opened Comments
  import opened CommentClasses

  /** Text and newlines. */
  function Plain(t: Token): seq<Token> {
    if t == Newline || !Is(t, BUFFERED) then [t] else []
  }

  /** Text, newlines and comments. */
  function Shape(t: Token): seq<Token> {
    if Is(t, COMMENT) then [t] else Plain(t)
  }

  function Between(ts: seq<Token>, from: nat, to: nat): seq<Token> {
    if from <= to <= |ts| then FlatMap(Plain, ts[from..to]) else []
  }

  /** The stream up to a position, with the groups in the place of their raw comments. */
  function WithGroups(ts: seq<Token>, groups: seq<Group>, to: nat): seq<Token>
    decreases |groups|
  {
    if groups == [] then Between(ts, 0, to)
    else
      var g := groups[|groups| - 1];
      WithGroups(ts, groups[..|groups| - 1], g.first) + GroupToken(g) + Between(ts, g.last + 1, to)
  }

  lemma BetweenSnoc(ts: seq<Token>, from: nat, to: nat)
    requires from <= to < |ts|
    ensures Between(ts, from, to + 1) == Between(ts, from, to) + Plain(ts[to])
  {
    assert ts[from..to + 1] == ts[from..to] + [ts[to]];
    FlatMapConcat(Plain, ts[from..to], [ts[to]]);
    FlatMapOne(Plain, ts[to]);
  }

  lemma GroupsSnoc(ts: seq<Token>, groups: seq<Group>, g: Group, to: nat)
    ensures WithGroups(ts, groups + [g], to) == WithGroups(ts, groups, g.first) + GroupToken(g)
                                                + Between(ts, g.last + 1, to)
  {
    assert (groups + [g])[..|groups|] == groups;
  }

  /** All groups end before the position. */
  predicate EndBefore(groups: seq<Group>, pos: nat) { forall i :: 0 <= i < |groups| ==> groups[i].last < pos }

  lemma WithLast(ts: seq<Token>, groups: seq<Group>, to: nat)
    requires groups != []
    ensures
      var g := groups[|groups| - 1];
      WithGroups(ts, groups, to) ==
      WithGroups(ts, groups[..|groups| - 1], g.first) + GroupToken(g) + Between(ts, g.last + 1, to)
  {}

  lemma WithNone(ts: seq<Token>, to: nat)
    ensures WithGroups(ts, [], to) == Between(ts, 0, to)
  {}

  lemma OneMore(ts: seq<Token>, groups: seq<Group>, pos: nat)
    requires pos < |ts| && EndBefore(groups, pos)
    ensures WithGroups(ts, groups, pos + 1) == WithGroups(ts, groups, pos) + Plain(ts[pos])
  {
    hide Plain, WithGroups, Between, GroupToken;
    if groups == [] {
      WithNone(ts, pos);
      WithNone(ts, pos + 1);
      BetweenSnoc(ts, 0, pos);
    } else {
      var g := groups[|groups| - 1];
      BetweenSnoc(ts, g.last + 1, pos);
      WithLast(ts, groups, pos);
      WithLast(ts, groups, pos + 1);
      var before := WithGroups(ts, groups[..|groups| - 1], g.first) + GroupToken(g);
      Assoc(before, Between(ts, g.last + 1, pos), Plain(ts[pos]));
    }
  }

  // ----- The automaton

  /** What has been emitted before a position. */
  function Emitted(ts: seq<Token>, tr: Trace, pos: nat): seq<Token> {
    WithGroups(ts, tr.groups, if tr.st.PreComment? then pos else tr.first)
  }

  /** Behind the comment under construction there is at most one newline. */
  ghost predicate Consistent(ts: seq<Token>, tr: Trace, pos: nat) {
    && EndBefore(tr.groups, pos)
    && (tr.st.InComment? ==>
          && tr.first <= tr.last < pos && EndBefore(tr.groups, tr.first + 1)
          && Between(ts, tr.last + 1, pos) == if tr.st.trailingNewline then [Newline] else [])
    && (tr.st.PreComment? ==> Followed(ts, tr.groups, pos))
  }

  /** Something comes between the last group and the position. */
  predicate Followed(ts: seq<Token>, groups: seq<Group>, pos: nat) {
    groups != [] ==> Between(ts, groups[|groups| - 1].last + 1, pos) != []
  }

  lemma StaysFollowed(ts: seq<Token>, groups: seq<Group>, pos: nat)
    requires Followed(ts, groups, pos) && EndBefore(groups, pos) && pos < |ts|
    ensures Followed(ts, groups, pos + 1)
  {
    hide Between, Plain, Is;
    if groups != [] {
      BetweenSnoc(ts, groups[|groups| - 1].last + 1, pos);
    }
  }

  lemma MadeShape(g: Group)
    ensures FlatMap(Shape, Made(g.lines, g.leading, g.trailing)) ==
            GroupToken(g) + if g.trailing then [Newline] else []
  {
    FlatMapConcat(Shape, GroupToken(g), if g.trailing then [Newline] else []);
    FlatMapOne(Shape, GroupToken(g)[0]);
    FlatMapOne(Shape, Newline);
  }

  /** Outside of a comment. */
  lemma StepOutside(tabSize: nat, ts: seq<Token>, tr: Trace, pos: nat)
    requires pos < |ts| && Is(ts[pos], BUFFERED) && (Is(ts[pos], COMMENT) ==> ts[pos].Comment?)
    requires Consistent(ts, tr, pos) && tr.st.PreComment?
    ensures
      var next := TraceStep(tabSize, tr, pos, ts[pos]);
      && Consistent(ts, next, pos + 1)
      && Emitted(ts, next, pos + 1) == Emitted(ts, tr, pos) + FlatMap(Shape, Step(tabSize, tr.st, tr.column, ts[pos]).0)
  {
    var t := ts[pos];
    FlatMapOne(Shape, t);
    FlatMapNothing(Shape, []);
    assert ts[pos + 1..pos + 1] == [];
    var before := Emitted(ts, tr, pos);
    assert before + [] == before;
    if !t.Comment? {
      OneMore(ts, tr.groups, pos);
      StaysFollowed(ts, tr.groups, pos);
    }
    hide WithGroups, FlatMap, Split;
  }

  lemma ClosedGroup(ts: seq<Token>, tr: Trace, pos: nat)
    requires tr.st.InComment? && Consistent(ts, tr, pos)
    ensures
      var g := tr.Current();
      && EndBefore(tr.groups + [g], pos)
      && WithGroups(ts, tr.groups + [g], pos) ==
         Emitted(ts, tr, pos) + FlatMap(Shape, Made(g.lines, g.leading, g.trailing))
  {
    hide WithGroups, FlatMap, Between, Made, GroupToken, Shape;
    var g := tr.Current();
    GroupsSnoc(ts, tr.groups, g, pos);
    MadeShape(g);
    Assoc(Emitted(ts, tr, pos), GroupToken(g), Between(ts, g.last + 1, pos));
  }

  lemma BlankIsSilent(tabSize: nat, tr: Trace, pos: nat, t: Token)
    requires Is(t, BUFFERED) && !Is(t, COMMENT) && !t.Newline? && tr.st.InComment?
    ensures var next := TraceStep(tabSize, tr, pos, t); next == tr.(column := next.column)
    ensures FlatMap(Shape, Step(tabSize, tr.st, tr.column, t).0) == [] && Plain(t) == []
  {
    FlatMapOne(Shape, t);
    FlatMapNothing(Shape, []);
    hide FlatMap, Split, Made;
  }

  /** In a comment, at a token that is no newline and no comment. */
  lemma StepBlank(tabSize: nat, ts: seq<Token>, tr: Trace, pos: nat)
    requires pos < |ts| && Is(ts[pos], BUFFERED) && !Is(ts[pos], COMMENT) && !ts[pos].Newline?
    requires Consistent(ts, tr, pos) && tr.st.InComment?
    ensures
      var next := TraceStep(tabSize, tr, pos, ts[pos]);
      && Consistent(ts, next, pos + 1)
      && Emitted(ts, next, pos + 1) == Emitted(ts, tr, pos) + FlatMap(Shape, Step(tabSize, tr.st, tr.column, ts[pos]).0)
  {
    hide WithGroups, FlatMap, Between, TraceStep, Step, Plain, Is;
    BlankIsSilent(tabSize, tr, pos, ts[pos]);
    BetweenSnoc(ts, tr.last + 1, pos);
    var before, between := Emitted(ts, tr, pos), Between(ts, tr.last + 1, pos);
    assert before + [] == before && between + [] == between;
  }

  lemma FirstNewline(tabSize: nat, tr: Trace, pos: nat, t: Token)
    requires t.Newline? && tr.st.InComment? && !tr.st.trailingNewline
    ensures
      var next := TraceStep(tabSize, tr, pos, t);
      && next.st == tr.st.(trailingNewline := true) && next.groups == tr.groups
      && next.first == tr.first && next.last == tr.last
    ensures FlatMap(Shape, Step(tabSize, tr.st, tr.column, t).0) == [] && Plain(t) == [Newline]
  {
    FlatMapNothing(Shape, []);
    hide FlatMap, Split, Made;
  }

  lemma SecondNewline(tabSize: nat, tr: Trace, pos: nat, t: Token)
    requires t.Newline? && tr.st.InComment? && tr.st.trailingNewline
    ensures
      var g, next := tr.Current(), TraceStep(tabSize, tr, pos, t);
      && next.st.PreComment? && next.groups == tr.groups + [g]
      && FlatMap(Shape, Step(tabSize, tr.st, tr.column, t).0) ==
         FlatMap(Shape, Made(g.lines, g.leading, g.trailing)) + [Newline]
      && Plain(t) == [Newline]
  {
    var g := tr.Current();
    FlatMapConcat(Shape, Made(g.lines, g.leading, g.trailing), [Newline]);
    FlatMapOne(Shape, Newline);
    hide FlatMap, Split, Made;
  }

  lemma StepNewline(tabSize: nat, ts: seq<Token>, tr: Trace, pos: nat)
    requires pos < |ts| && ts[pos].Newline? && Consistent(ts, tr, pos) && tr.st.InComment?
    ensures
      var next := TraceStep(tabSize, tr, pos, ts[pos]);
      && Consistent(ts, next, pos + 1)
      && Emitted(ts, next, pos + 1) == Emitted(ts, tr, pos) + FlatMap(Shape, Step(tabSize, tr.st, tr.column, ts[pos]).0)
  {
    hide WithGroups, FlatMap, Between, TraceStep, Step, Plain, Made;
    var g, before := tr.Current(), Emitted(ts, tr, pos);
    if tr.st.trailingNewline {
      SecondNewline(tabSize, tr, pos, ts[pos]);
      ClosedGroup(ts, tr, pos);
      OneMore(ts, tr.groups + [g], pos);
      BetweenSnoc(ts, g.last + 1, pos);
      Assoc(before, FlatMap(Shape, Made(g.lines, g.leading, g.trailing)), [Newline]);
    } else {
      FirstNewline(tabSize, tr, pos, ts[pos]);
      BetweenSnoc(ts, tr.last + 1, pos);
      assert before + [] == before && [] + [Newline] == [Newline];
    }
  }

  lemma JoinedComment(tabSize: nat, tr: Trace, pos: nat, t: Token)
    requires t.Comment? && tr.st.InComment? && tr.st.indentation == tr.column
    ensures
      var next := TraceStep(tabSize, tr, pos, t);
      && next.st.InComment? && !next.st.trailingNewline && next.groups == tr.groups
      && next.first == tr.first && next.last == pos
    ensures FlatMap(Shape, Step(tabSize, tr.st, tr.column, t).0) == []
  {
    FlatMapNothing(Shape, []);
    hide FlatMap, Split, Made;
  }

  lemma OtherComment(tabSize: nat, tr: Trace, pos: nat, t: Token)
    requires t.Comment? && tr.st.InComment? && tr.st.indentation != tr.column
    ensures
      var g, next := tr.Current(), TraceStep(tabSize, tr, pos, t);
      && next.st.InComment? && !next.st.trailingNewline && next.groups == tr.groups + [g]
      && next.first == next.last == pos
      && Step(tabSize, tr.st, tr.column, t).0 == Made(g.lines, g.leading, g.trailing)
  {
    hide FlatMap, Split, Made;
  }

  lemma StepComment(tabSize: nat, ts: seq<Token>, tr: Trace, pos: nat)
    requires pos < |ts| && ts[pos].Comment? && Consistent(ts, tr, pos) && tr.st.InComment?
    ensures
      var next := TraceStep(tabSize, tr, pos, ts[pos]);
      && Consistent(ts, next, pos + 1)
      && Emitted(ts, next, pos + 1) == Emitted(ts, tr, pos) + FlatMap(Shape, Step(tabSize, tr.st, tr.column, ts[pos]).0)
  {
    hide WithGroups, FlatMap, Made, TraceStep, Step;
    assert ts[pos + 1..pos + 1] == [];
    assert Between(ts, pos + 1, pos + 1) == [] by { FlatMapNothing(Plain, []); }
    hide Between;
    var before := Emitted(ts, tr, pos);
    assert before + [] == before;
    if tr.st.indentation == tr.column {
      JoinedComment(tabSize, tr, pos, ts[pos]);
    } else {
      OtherComment(tabSize, tr, pos, ts[pos]);
      ClosedGroup(ts, tr, pos);
    }
  }

  lemma StepShapes(tabSize: nat, ts: seq<Token>, tr: Trace, pos: nat)
    requires pos < |ts| && Is(ts[pos], BUFFERED) && RawComments(ts) && Consistent(ts, tr, pos)
    ensures
      var next := TraceStep(tabSize, tr, pos, ts[pos]);
      && Consistent(ts, next, pos + 1)
      && Emitted(ts, next, pos + 1) == Emitted(ts, tr, pos) + FlatMap(Shape, Step(tabSize, tr.st, tr.column, ts[pos]).0)
  {
    hide Consistent, Emitted, TraceStep, Step, FlatMap;
    if tr.st.PreComment? {
      StepOutside(tabSize, ts, tr, pos);
    } else if ts[pos].Newline? {
      StepNewline(tabSize, ts, tr, pos);
    } else if ts[pos].Comment? {
      StepComment(tabSize, ts, tr, pos);
    } else {
      StepBlank(tabSize, ts, tr, pos);
    }
  }

  // ----- Whole streams

  /** The newline that a comment at the end of the input gets. */
  predicate EndsInComment(tr: Trace, end: bool) { end && tr.st.InComment? && !tr.st.trailingNewline }

  function FinalNewline(tr: Trace, end: bool): seq<Token> { if EndsInComment(tr, end) then [Newline] else [] }

  lemma CloseShapes(ts: seq<Token>, tr: Trace, pos: nat, end: bool)
    requires Consistent(ts, tr, pos)
    ensures EndBefore(Close(tr, end), pos)
    ensures WithGroups(ts, Close(tr, end), pos) + FinalNewline(tr, end) ==
            Emitted(ts, tr, pos) + FlatMap(Shape, Finish(tr.st, end))
  {
    hide WithGroups, FlatMap, Between, Made;
    var before := Emitted(ts, tr, pos);
    FinishShape(tr, end);
    assert before + [] == before && tr.groups + [] == tr.groups;
    if tr.st.InComment? {
      var g := tr.Current().(trailing := tr.st.trailingNewline || end);
      var between, last := Between(ts, g.last + 1, pos), FinalNewline(tr, end);
      GroupsSnoc(ts, tr.groups, g, pos);
      assert between + last == if g.trailing then [Newline] else [];
      Assoc(before + GroupToken(g), between, last);
      Assoc(before, GroupToken(g), between + last);
    }
  }

  lemma FinishShape(tr: Trace, end: bool)
    ensures tr.st.PreComment? ==> FlatMap(Shape, Finish(tr.st, end)) == []
    ensures tr.st.InComment? ==>
              var g := tr.Current().(trailing := tr.st.trailingNewline || end);
              FlatMap(Shape, Finish(tr.st, end)) == GroupToken(g) + if g.trailing then [Newline] else []
  {
    FlatMapNothing(Shape, []);
    if tr.st.InComment? { MadeShape(tr.Current().(trailing := tr.st.trailingNewline || end)); }
  }

  lemma {:induction false} BufferShapes(tabSize: nat, ts: seq<Token>, p: nat, q: nat, end: bool)
    requires p <= q <= |ts| && Buffered(ts, p, q) && RawComments(ts) && Consistent(ts, Scan(tabSize, ts, p), p)
    ensures
      var tr, last := Scan(tabSize, ts, p), Scan(tabSize, ts, q);
      && Consistent(ts, last, q)
      && WithGroups(ts, Close(last, end), q) + FinalNewline(last, end) ==
         Emitted(ts, tr, p) + FlatMap(Shape, Automaton(tabSize, end, tr.st, tr.column, ts[p..q]).0)
    decreases q - p
  {
    hide Step, TraceStep, FlatMap, WithGroups, Consistent, Emitted, Close, FinalNewline;
    var tr := Scan(tabSize, ts, p);
    if p == q {
      CloseShapes(ts, tr, p, end);
    } else {
      var t := ts[p];
      StepShapes(tabSize, ts, tr, p);
      var next := Scan(tabSize, ts, p + 1);
      NextState(tabSize, tr, p, t);
      BufferShapes(tabSize, ts, p + 1, q, end);
      assert ts[p..q][1..] == ts[p + 1..q];
      var emitted := Step(tabSize, tr.st, tr.column, t).0;
      var rest := Automaton(tabSize, end, next.st, next.column, ts[p + 1..q]).0;
      FlatMapConcat(Shape, emitted, rest);
      Assoc(Emitted(ts, tr, p), FlatMap(Shape, emitted), FlatMap(Shape, rest));
    }
  }

  lemma NextState(tabSize: nat, tr: Trace, pos: nat, t: Token)
    ensures TraceStep(tabSize, tr, pos, t).st == Step(tabSize, tr.st, tr.column, t).1
    ensures TraceStep(tabSize, tr, pos, t).column == Step(tabSize, tr.st, tr.column, t).2
  {}

  /** The shape of the whole output, given what was emitted before position `p`. */
  ghost predicate Shapes(tabSize: nat, start: bool, ts: seq<Token>, p: nat, pos: nat)
    requires p <= pos <= |ts|
  {
    var tr := Scan(tabSize, ts, p);
    WithGroups(ts, Groups(tabSize, ts), |ts|) + FinalNewline(Scan(tabSize, ts, |ts|), true) ==
    Emitted(ts, tr, p) + FlatMap(Shape, Flow(tabSize, start, tr.column, ts[p..pos], ts[pos..]))
  }

  ghost predicate AtStart(tabSize: nat, start: bool, ts: seq<Token>, p: nat)
    requires p <= |ts|
  {
    Consistent(ts, Scan(tabSize, ts, p), p) && Scan(tabSize, ts, p).st == PreComment(start)
  }

  lemma {:induction false} FlowShapes(tabSize: nat, start: bool, ts: seq<Token>, p: nat, pos: nat)
    requires p <= pos <= |ts| && Buffered(ts, p, pos) && RawComments(ts) && AtStart(tabSize, start, ts, p)
    ensures Shapes(tabSize, start, ts, p, pos)
    decreases |ts| - pos
  {
    hide Shapes, Scan, RawComments, AtStart;
    if pos == |ts| {
      EndShapes(tabSize, start, ts, p);
    } else if Is(ts[pos], BUFFERED) {
      FlowShapes(tabSize, start, ts, p, pos + 1);
      BufferedShapes(tabSize, start, ts, p, pos);
    } else {
      TextStarts(tabSize, start, ts, p, pos);
      FlowShapes(tabSize, false, ts, pos + 1, pos + 1);
      TextShapes(tabSize, start, ts, p, pos);
    }
  }

  lemma EndShapes(tabSize: nat, start: bool, ts: seq<Token>, p: nat)
    requires p <= |ts| && Buffered(ts, p, |ts|) && RawComments(ts) && AtStart(tabSize, start, ts, p)
    ensures Shapes(tabSize, start, ts, p, |ts|)
  {
    hide FlatMap, Automaton, Scan, WithGroups;
    BufferShapes(tabSize, ts, p, |ts|, true);
    assert ts[p..|ts|] == ts[p..] && ts[|ts|..] == [];
    if p == |ts| {
      var tr := Scan(tabSize, ts, p);
      FlatMapNothing(Shape, []);
      assert tr.groups + [] == tr.groups;
    }
  }

  lemma BufferedShapes(tabSize: nat, start: bool, ts: seq<Token>, p: nat, pos: nat)
    requires p <= pos < |ts| && Is(ts[pos], BUFFERED) && Shapes(tabSize, start, ts, p, pos + 1)
    ensures Shapes(tabSize, start, ts, p, pos)
  {
    hide FlatMap, Scan, Groups, Automaton, WithGroups;
    assert ts[pos..][0] == ts[pos] && ts[pos..][1..] == ts[pos + 1..];
    assert ts[p..pos] + [ts[pos]] == ts[p..pos + 1];
  }

  lemma TextStarts(tabSize: nat, start: bool, ts: seq<Token>, p: nat, pos: nat)
    requires p <= pos < |ts| && Buffered(ts, p, pos) && RawComments(ts) && !Is(ts[pos], BUFFERED)
    requires AtStart(tabSize, start, ts, p)
    ensures AtStart(tabSize, false, ts, pos + 1)
    ensures
      var tr, t := Scan(tabSize, ts, p), ts[pos];
      Emitted(ts, Scan(tabSize, ts, pos + 1), pos + 1) ==
      Emitted(ts, tr, p) + FlatMap(Shape, Automaton(tabSize, false, tr.st, tr.column, ts[p..pos]).0) + [t]
  {
    hide FlatMap, Automaton, Scan, WithGroups, Close;
    BufferShapes(tabSize, ts, p, pos, false);
    TextCloses(tabSize, ts, pos);
    var last := Scan(tabSize, ts, pos);
    CloseShapes(ts, last, pos, false);
    var all := WithGroups(ts, Close(last, false), pos);
    assert all + [] == all;
    OneMore(ts, Close(last, false), pos);
    TextFollows(ts, Close(last, false), pos);
  }

  lemma TextFollows(ts: seq<Token>, groups: seq<Group>, pos: nat)
    requires pos < |ts| && !Is(ts[pos], BUFFERED) && EndBefore(groups, pos)
    ensures Followed(ts, groups, pos + 1)
  {
    assert Plain(ts[pos]) == [ts[pos]];
    hide Between, Plain, Is;
    if groups != [] {
      BetweenSnoc(ts, groups[|groups| - 1].last + 1, pos);
    }
  }

  lemma TextShapes(tabSize: nat, start: bool, ts: seq<Token>, p: nat, pos: nat)
    requires p <= pos < |ts| && Buffered(ts, p, pos) && RawComments(ts) && !Is(ts[pos], BUFFERED)
    requires AtStart(tabSize, start, ts, p) && Shapes(tabSize, false, ts, pos + 1, pos + 1)
    ensures Shapes(tabSize, start, ts, p, pos)
  {
    hide FlatMap, Groups, Automaton, Close, Scan, StreamStep, WithGroups, Emitted, Consistent;
    var tr, t := Scan(tabSize, ts, p), ts[pos];
    TextStarts(tabSize, start, ts, p, pos);
    BufferMakesGroups(tabSize, ts, p, pos, false);
    TextCloses(tabSize, ts, pos);
    assert ts[pos..][0] == t && ts[pos..][1..] == ts[pos + 1..] && ts[pos + 1..pos + 1] == [];
    var (out, last) := Automaton(tabSize, false, PreComment(start), tr.column, ts[p..pos]);
    var rest := Flow(tabSize, false, last + |AsBytes(t)|, [], ts[pos + 1..]);
    FlatMapConcat(Shape, out + [t], rest);
    FlatMapConcat(Shape, out, [t]);
    FlatMapOne(Shape, t);
    assert Shape(t) == [t];
    hide Flow;
    Assoc4(Emitted(ts, tr, p), FlatMap(Shape, out), [t], FlatMap(Shape, rest));
    assert FlatMap(Shape, out) + [t] + FlatMap(Shape, rest) == FlatMap(Shape, out) + ([t] + FlatMap(Shape, rest));
  }

  /** Neither text nor a newline comes behind the last comment of the stream. */
  predicate EndsWithComment(tabSize: nat, ts: seq<Token>) {
    var groups := Groups(tabSize, ts);
    groups != [] && Between(ts, groups[|groups| - 1].last + 1, |ts|) == []
  }

  lemma EndIsSeen(tabSize: nat, ts: seq<Token>)
    requires Consistent(ts, Scan(tabSize, ts, |ts|), |ts|)
    ensures EndsInComment(Scan(tabSize, ts, |ts|), true) <==> EndsWithComment(tabSize, ts)
  {
    hide Between, Scan;
    var tr := Scan(tabSize, ts, |ts|);
    assert tr.groups + [] == tr.groups;
  }

  lemma {:induction false} ScanIsConsistent(tabSize: nat, ts: seq<Token>, pos: nat)
    requires pos <= |ts| && RawComments(ts)
    ensures Consistent(ts, Scan(tabSize, ts, pos), pos)
    decreases pos
  {
    hide Consistent, Scan, Is, RawComments;
    if pos == 0 {
      StartIsConsistent(tabSize, ts);
    } else {
      ScanIsConsistent(tabSize, ts, pos - 1);
      NextIsConsistent(tabSize, ts, pos - 1);
    }
  }

  lemma StartIsConsistent(tabSize: nat, ts: seq<Token>)
    ensures Consistent(ts, Scan(tabSize, ts, 0), 0)
  {}

  lemma NextIsConsistent(tabSize: nat, ts: seq<Token>, pos: nat)
    requires pos < |ts| && RawComments(ts) && Consistent(ts, Scan(tabSize, ts, pos), pos)
    ensures Consistent(ts, Scan(tabSize, ts, pos + 1), pos + 1)
  {
    hide TraceStep, Step, Consistent, WithGroups, RawComments, Emitted;
    var tr := Scan(tabSize, ts, pos);
    if Is(ts[pos], BUFFERED) {
      StepShapes(tabSize, ts, tr, pos);
    } else {
      TextIsConsistent(ts, tr, Scan(tabSize, ts, pos + 1), pos);
    }
  }

  lemma TextIsConsistent(ts: seq<Token>, tr: Trace, next: Trace, pos: nat)
    requires pos < |ts| && !Is(ts[pos], BUFFERED) && Consistent(ts, tr, pos)
    requires next.st.PreComment? && next.groups == Close(tr, false)
    ensures Consistent(ts, next, pos + 1)
  {
    CloseShapes(ts, tr, pos, false);
    hide WithGroups, Close, Between, FlatMap;
    TextFollows(ts, Close(tr, false), pos);
  }

  /**
   Text, newlines and comments of the processed stream: each group stands in the
   place of its raw comments, only the newlines inside of a group are gone, and a
   comment at the very end gets a newline.
   */
  lemma CommentsStayInPlace(tabSize: nat, ts: seq<Token>)
    requires RawComments(ts)
    ensures
      FlatMap(Shape, Run(tabSize, ts)) ==
      WithGroups(ts, Groups(tabSize, ts), |ts|) + if EndsWithComment(tabSize, ts) then [Newline] else []
  {
    ScanIsConsistent(tabSize, ts, |ts|);
    EndIsSeen(tabSize, ts);
    hide FlatMap, Automaton, Flow, Groups, EndsWithComment;
    assert AtStart(tabSize, true, ts, 0);
    FlowShapes(tabSize, true, ts, 0, 0);
    assert ts[0..0] == [] && ts[0..] == ts;
    assert Between(ts, 0, 0) == [] by { FlatMapNothing(Plain, []); }
    var made := FlatMap(Shape, Run(tabSize, ts));
    assert [] + made == made;
  }

  /** The class of a group: whether a newline comes before it, after it, both or neither. */
  lemma ClassesExactly(tabSize: nat, ts: seq<Token>, i: nat)
    requires RawComments(ts) && i < |Groups(tabSize, ts)|
    ensures
      var groups := Groups(tabSize, ts);
      var g := groups[i];
      var before := Leads(ts, PrevEnd(groups, i), g.first);
      var after := NewlineAfter(ts, g.last + 1, NextStart(groups, i, |ts|))
                   || (i == |groups| - 1 && Buffered(ts, g.last + 1, |ts|));
      GroupToken(g) ==
      [ if before && after then BlockComment(g.lines)
        else if before then HeadComment(g.lines)
        else if after then TailComment(g.lines)
        else InlineComment(g.lines) ]
  {
    ClassesSayNewlines(tabSize, ts);
    assert FinalGroup(tabSize, ts, Groups(tabSize, ts), i);
    hide Groups, Leads, NewlineAfter, LinesOf, NoEmptyLine;
  }
}
