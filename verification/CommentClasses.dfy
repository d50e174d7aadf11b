/**
 Which comments of a stream are joined, with which lines, and what the class
 of a processed comment says about the newlines around it.
 */
module CommentClasses {
  import opened Seqs
  import opened Tokens
  import opened Comments

  /**
   A processed comment: the positions of its first and last raw comment, the
   column to which its lines are outdented, its class and its lines.
   */
  datatype Group = Group(first: nat, last: nat, column: nat, leading: bool, trailing: bool, lines: seq<string>)

  /** The automaton after some tokens, with the groups that it has closed. */
  datatype Trace = Trace(st: State, column: nat, groups: seq<Group>, first: nat, last: nat) {
    /** The group of the comment under construction. */
    function Current(): Group
      requires st.InComment?
    {
      Group(first, last, st.indentation, st.leadingNewline, st.trailingNewline, st.lines)
    }

    /** Where the last closed group has to end. */
    function Limit(pos: nat): nat {
      if st.InComment? then first else pos
    }
  }

  function TraceStep(tabSize: nat, tr: Trace, pos: nat, t: Token): Trace {
    var (_, next, column) := Step(tabSize, tr.st, tr.column, t);
    if tr.st.InComment? && t.Newline? && tr.st.trailingNewline then
      Trace(next, column, tr.groups + [tr.Current()], tr.first, tr.last)
    else if t.Comment? then
      if tr.st.PreComment? then Trace(next, column, tr.groups, pos, pos)
      else if tr.st.indentation == tr.column then Trace(next, column, tr.groups, tr.first, pos)
      else Trace(next, column, tr.groups + [tr.Current()], pos, pos)
    else Trace(next, column, tr.groups, tr.first, tr.last)
  }

  function Close(tr: Trace, endOfInput: bool): seq<Group> {
    tr.groups +
    if tr.st.PreComment? then []
    else [tr.Current().(trailing := tr.st.trailingNewline || endOfInput)]
  }

  /** A token that is not buffered ends the comment under construction. */
  function StreamStep(tabSize: nat, tr: Trace, pos: nat, t: Token): Trace {
    if Is(t, BUFFERED) then TraceStep(tabSize, tr, pos, t)
    else Trace(PreComment(false), tr.column + |AsBytes(t)|, Close(tr, false), tr.first, tr.last)
  }

  /** The state before position `pos` of a stream. */
  function Scan(tabSize: nat, ts: seq<Token>, pos: nat): Trace
    requires pos <= |ts|
  {
    if pos == 0 then Trace(PreComment(true), 0, [], 0, 0)
    else StreamStep(tabSize, Scan(tabSize, ts, pos - 1), pos - 1, ts[pos - 1])
  }

  /** The groups made from a stream. */
  function Groups(tabSize: nat, ts: seq<Token>): seq<Group> {
    Close(Scan(tabSize, ts, |ts|), true)
  }

  // ----- No raw comment is left

  lemma {:induction false} AutomatonLeavesNoRaw(tabSize: nat, end: bool, st: State, column: nat, buffer: seq<Token>)
    ensures forall t :: t in Automaton(tabSize, end, st, column, buffer).0 ==> !t.Comment?
    decreases |buffer|
  {
    if buffer != [] {
      var (emitted, next, column') := Step(tabSize, st, column, buffer[0]);
      assert forall t :: t in emitted ==> !t.Comment?;
      hide Step;
      AutomatonLeavesNoRaw(tabSize, end, next, column', buffer[1..]);
    }
  }

  lemma {:induction false} FlowLeavesNoRaw(tabSize: nat, start: bool, column: nat, held: seq<Token>, ts: seq<Token>)
    ensures forall t :: t in Flow(tabSize, start, column, held, ts) ==> !t.Comment?
    decreases |ts|
  {
    hide Automaton;
    if ts == [] {
      AutomatonLeavesNoRaw(tabSize, true, PreComment(start), column, held);
    } else if Is(ts[0], BUFFERED) {
      FlowLeavesNoRaw(tabSize, start, column, held + [ts[0]], ts[1..]);
    } else {
      var (out, last) := Automaton(tabSize, false, PreComment(start), column, held);
      AutomatonLeavesNoRaw(tabSize, false, PreComment(start), column, held);
      FlowLeavesNoRaw(tabSize, false, last + |AsBytes(ts[0])|, [], ts[1..]);
    }
  }

  /** No raw comment is left in the stream. */
  lemma NoRawComments(tabSize: nat, ts: seq<Token>)
    ensures forall t :: t in Run(tabSize, ts) ==> !t.Comment?
  {
    FlowLeavesNoRaw(tabSize, true, 0, [], ts);
  }

  // ----- The tokens made are those of the groups

  function CommentOf(t: Token): seq<Token> {
    if Is(t, COMMENT) then [t] else []
  }

  function GroupToken(g: Group): seq<Token> {
    [Classify(g.lines, g.leading, g.trailing)]
  }

  lemma MadeIsGroup(g: Group)
    ensures FlatMap(CommentOf, Made(g.lines, g.leading, g.trailing)) == GroupToken(g)
  {
    FlatMapConcat(CommentOf, GroupToken(g), if g.trailing then [Newline] else []);
    FlatMapOne(CommentOf, GroupToken(g)[0]);
    FlatMapOne(CommentOf, Newline);
  }

  lemma StepMakesGroups(tabSize: nat, tr: Trace, pos: nat, t: Token)
    requires Is(t, COMMENT) ==> t.Comment?
    ensures
      var next := TraceStep(tabSize, tr, pos, t);
      && next.st == Step(tabSize, tr.st, tr.column, t).1 && next.column == Step(tabSize, tr.st, tr.column, t).2
      && FlatMap(GroupToken, next.groups) ==
         FlatMap(GroupToken, tr.groups) + FlatMap(CommentOf, Step(tabSize, tr.st, tr.column, t).0)
  {
    hide FlatMap, Classify;
    FlatMapOne(CommentOf, t);
    FlatMapNothing(CommentOf, []);
    var before := FlatMap(GroupToken, tr.groups);
    assert before + [] == before;
    if tr.st.InComment? {
      var g := tr.Current();
      MadeIsGroup(g);
      FlatMapConcat(GroupToken, tr.groups, [g]);
      FlatMapOne(GroupToken, g);
      FlatMapConcat(CommentOf, Made(g.lines, g.leading, true), [Newline]);
      FlatMapOne(CommentOf, Newline);
    }
  }

  ghost predicate Buffered(ts: seq<Token>, from: nat, to: nat) {
    forall i :: from <= i < to && i < |ts| ==> Is(ts[i], BUFFERED)
  }

  lemma {:induction false} BufferMakesGroups(tabSize: nat, ts: seq<Token>, p: nat, q: nat, end: bool)
    requires p <= q <= |ts| && Buffered(ts, p, q) && RawComments(ts)
    ensures
      var tr := Scan(tabSize, ts, p);
      var made := Automaton(tabSize, end, tr.st, tr.column, ts[p..q]);
      && FlatMap(GroupToken, Close(Scan(tabSize, ts, q), end)) ==
          FlatMap(GroupToken, tr.groups) + FlatMap(CommentOf, made.0)
      && Scan(tabSize, ts, q).column == made.1
    decreases q - p
  {
    hide Step, TraceStep, FlatMap;
    var tr := Scan(tabSize, ts, p);
    if p == q {
      CloseMakesGroups(tr, end);
    } else {
      var t := ts[p];
      StepMakesGroups(tabSize, tr, p, t);
      var next := Scan(tabSize, ts, p + 1);
      BufferMakesGroups(tabSize, ts, p + 1, q, end);
      assert ts[p..q][1..] == ts[p + 1..q];
      var emitted := Step(tabSize, tr.st, tr.column, t).0;
      var rest := Automaton(tabSize, end, next.st, next.column, ts[p + 1..q]).0;
      FlatMapConcat(CommentOf, emitted, rest);
      Assoc(FlatMap(GroupToken, tr.groups), FlatMap(CommentOf, emitted), FlatMap(CommentOf, rest));
    }
  }

  lemma CloseMakesGroups(tr: Trace, end: bool)
    ensures FlatMap(GroupToken, Close(tr, end)) ==
            FlatMap(GroupToken, tr.groups) + FlatMap(CommentOf, Finish(tr.st, end))
  {
    if tr.st.InComment? {
      var g := tr.Current().(trailing := tr.st.trailingNewline || end);
      MadeIsGroup(g);
      FlatMapConcat(GroupToken, tr.groups, [g]);
      FlatMapOne(GroupToken, g);
    } else {
      assert tr.groups + [] == tr.groups;
    }
  }

  lemma EndMakesGroups(tabSize: nat, start: bool, ts: seq<Token>, p: nat)
    requires p <= |ts| && Buffered(ts, p, |ts|) && RawComments(ts) && Scan(tabSize, ts, p).st == PreComment(start)
    ensures
      var tr := Scan(tabSize, ts, p);
      FlatMap(GroupToken, Groups(tabSize, ts)) ==
      FlatMap(GroupToken, tr.groups) + FlatMap(CommentOf, Flow(tabSize, start, tr.column, ts[p..], []))
  {
    hide FlatMap, Automaton, TraceStep;
    var tr := Scan(tabSize, ts, p);
    BufferMakesGroups(tabSize, ts, p, |ts|, true);
    assert ts[p..|ts|] == ts[p..];
    if p == |ts| {
      FlatMapNothing(CommentOf, []);
      var before := FlatMap(GroupToken, tr.groups);
      assert tr.groups + [] == tr.groups && before + [] == before;
    }
  }

  /** What the rest of the stream adds to the groups that were closed before position `p`. */
  ghost predicate Makes(tabSize: nat, start: bool, ts: seq<Token>, p: nat, pos: nat)
    requires p <= pos <= |ts|
  {
    var tr := Scan(tabSize, ts, p);
    FlatMap(GroupToken, Groups(tabSize, ts)) ==
    FlatMap(GroupToken, tr.groups) + FlatMap(CommentOf, Flow(tabSize, start, tr.column, ts[p..pos], ts[pos..]))
  }

  lemma {:induction false} FlowMakesGroups(tabSize: nat, start: bool, ts: seq<Token>, p: nat, pos: nat)
    requires p <= pos <= |ts| && Buffered(ts, p, pos) && RawComments(ts)
    requires Scan(tabSize, ts, p).st == PreComment(start)
    ensures Makes(tabSize, start, ts, p, pos)
    decreases |ts| - pos
  {
    hide Makes, Scan, RawComments;
    if pos == |ts| {
      EndMakes(tabSize, start, ts, p);
    } else if Is(ts[pos], BUFFERED) {
      FlowMakesGroups(tabSize, start, ts, p, pos + 1);
      BufferedMakes(tabSize, start, ts, p, pos);
    } else {
      TextCloses(tabSize, ts, pos);
      FlowMakesGroups(tabSize, false, ts, pos + 1, pos + 1);
      TextMakes(tabSize, start, ts, p, pos);
    }
  }

  lemma EndMakes(tabSize: nat, start: bool, ts: seq<Token>, p: nat)
    requires p <= |ts| && Buffered(ts, p, |ts|) && RawComments(ts) && Scan(tabSize, ts, p).st == PreComment(start)
    ensures Makes(tabSize, start, ts, p, |ts|)
  {
    hide Flow, FlatMap, Scan, Groups;
    EndMakesGroups(tabSize, start, ts, p);
    assert ts[p..|ts|] == ts[p..] && ts[|ts|..] == [];
  }

  lemma BufferedMakes(tabSize: nat, start: bool, ts: seq<Token>, p: nat, pos: nat)
    requires p <= pos < |ts| && Is(ts[pos], BUFFERED) && Makes(tabSize, start, ts, p, pos + 1)
    ensures Makes(tabSize, start, ts, p, pos)
  {
    hide FlatMap, Scan, Groups, Automaton;
    assert ts[pos..][0] == ts[pos] && ts[pos..][1..] == ts[pos + 1..];
    assert ts[p..pos] + [ts[pos]] == ts[p..pos + 1];
  }

  lemma TextMakes(tabSize: nat, start: bool, ts: seq<Token>, p: nat, pos: nat)
    requires p <= pos < |ts| && Buffered(ts, p, pos) && RawComments(ts) && !Is(ts[pos], BUFFERED)
    requires Scan(tabSize, ts, p).st == PreComment(start) && Makes(tabSize, false, ts, pos + 1, pos + 1)
    ensures Makes(tabSize, start, ts, p, pos)
  {
    hide FlatMap, Groups, Automaton, Close, Scan, StreamStep;
    var tr, t := Scan(tabSize, ts, p), ts[pos];
    BufferMakesGroups(tabSize, ts, p, pos, false);
    TextCloses(tabSize, ts, pos);
    assert ts[pos..][0] == t && ts[pos..][1..] == ts[pos + 1..] && ts[pos + 1..pos + 1] == [];
    var (out, last) := Automaton(tabSize, false, PreComment(start), tr.column, ts[p..pos]);
    var rest := Flow(tabSize, false, last + |AsBytes(t)|, [], ts[pos + 1..]);
    TextSplitsComments(out, t, rest);
    Assoc(FlatMap(GroupToken, tr.groups), FlatMap(CommentOf, out), FlatMap(CommentOf, rest));
  }

  lemma TextCloses(tabSize: nat, ts: seq<Token>, pos: nat)
    requires pos < |ts| && !Is(ts[pos], BUFFERED)
    ensures
      var tr, next := Scan(tabSize, ts, pos), Scan(tabSize, ts, pos + 1);
      next.st == PreComment(false) && next.groups == Close(tr, false) && next.column == tr.column + |AsBytes(ts[pos])|
  {}

  lemma TextSplitsComments(out: seq<Token>, t: Token, rest: seq<Token>)
    requires !Is(t, BUFFERED)
    ensures FlatMap(CommentOf, out + [t] + rest) == FlatMap(CommentOf, out) + FlatMap(CommentOf, rest)
  {
    FlatMapConcat(CommentOf, out + [t], rest);
    FlatMapConcat(CommentOf, out, [t]);
    FlatMapOne(CommentOf, t);
    assert CommentOf(t) == [];
    assert FlatMap(CommentOf, out) + [] == FlatMap(CommentOf, out);
  }

  /** The comments of the processed stream are exactly the tokens of the groups, in order. */
  lemma CommentsAreGroups(tabSize: nat, ts: seq<Token>)
    requires RawComments(ts)
    ensures FlatMap(CommentOf, Run(tabSize, ts)) == FlatMap(GroupToken, Groups(tabSize, ts))
  {
    hide FlatMap, Automaton, Flow, Groups;
    FlowMakesGroups(tabSize, true, ts, 0, 0);
    FlatMapNothing(GroupToken, []);
    assert ts[0..0] == [] && ts[0..] == ts;
    var made := FlatMap(CommentOf, Run(tabSize, ts));
    assert [] + made == made;
  }

  // ----- Where groups lie, what their lines are, and what their class says

  ghost predicate CommentIn(ts: seq<Token>, from: nat, to: nat) {
    exists i :: from <= i < to && i < |ts| && ts[i].Comment?
  }

  /** Between two newlines there is a comment: no empty line in between. */
  ghost predicate NoEmptyLine(ts: seq<Token>, from: nat, to: nat) {
    forall a, b :: from <= a < b < to && b < |ts| && ts[a].Newline? && ts[b].Newline? ==> CommentIn(ts, a, b)
  }

  /** A newline comes before `to`, at `from` or later, with no text in between. */
  ghost predicate NewlineBefore(ts: seq<Token>, from: nat, to: nat) {
    exists j :: from <= j < to && j < |ts| && ts[j].Newline? && Buffered(ts, j, to)
  }

  /** A newline comes at `from` or later, before `to`, with no text in between. */
  ghost predicate NewlineAfter(ts: seq<Token>, from: nat, to: nat) {
    exists j :: from <= j < to && j < |ts| && ts[j].Newline? && Buffered(ts, from, j)
  }

  /** The lines of the comments from `first` to `last`, each one outdented to the column. */
  function LinesOf(tabSize: nat, ts: seq<Token>, first: nat, last: nat, column: nat): seq<string>
    decreases last + 1 - first
  {
    if first > last || last >= |ts| then []
    else if first == last then if ts[last].Comment? then Split(ts[last].text, column, tabSize) else []
    else
      LinesOf(tabSize, ts, first, last - 1, column)
      + if ts[last].Comment? then Split(ts[last].text, column, tabSize) else []
  }

  /** The position after the last comment of the group before the i-th one. */
  function PrevEnd(groups: seq<Group>, i: nat): nat
    requires i <= |groups|
  {
    if i == 0 then 0 else groups[i - 1].last + 1
  }

  function NextStart(groups: seq<Group>, i: nat, limit: nat): nat
    requires i < |groups|
  {
    if i == |groups| - 1 then limit else groups[i + 1].first
  }

  /** Where a group lies: after the previous one, with no comment in between, and without text in it. */
  ghost predicate Placed(ts: seq<Token>, prevEnd: nat, g: Group, limit: nat) {
    && prevEnd <= g.first <= g.last < limit <= |ts|
    && ts[g.first].Comment? && ts[g.last].Comment?
    && !CommentIn(ts, prevEnd, g.first) && !CommentIn(ts, g.last + 1, limit)
    && Buffered(ts, g.first, g.last + 1) && NoEmptyLine(ts, g.first, g.last + 1)
  }

  /** A newline, or the start of the file, comes before. */
  ghost predicate Leads(ts: seq<Token>, prevEnd: nat, first: nat) {
    NewlineBefore(ts, prevEnd, first) || (prevEnd == 0 && Buffered(ts, 0, first))
  }

  ghost predicate GroupOk(tabSize: nat, ts: seq<Token>, groups: seq<Group>, i: nat, limit: nat)
    requires i < |groups|
  {
    var g := groups[i];
    && Placed(ts, PrevEnd(groups, i), g, NextStart(groups, i, limit))
    && g.lines == LinesOf(tabSize, ts, g.first, g.last, g.column)
    && (g.leading <==> Leads(ts, PrevEnd(groups, i), g.first))
    && (g.trailing <==> NewlineAfter(ts, g.last + 1, NextStart(groups, i, limit)))
  }

  ghost predicate AllOk(tabSize: nat, ts: seq<Token>, groups: seq<Group>, limit: nat) {
    forall i :: 0 <= i < |groups| ==> GroupOk(tabSize, ts, groups, i, limit)
  }

  /** After an empty line or text, or before any comment. */
  ghost predicate PreOk(ts: seq<Token>, tr: Trace, pos: nat, prevEnd: nat)
    requires tr.st.PreComment?
  {
    && !CommentIn(ts, prevEnd, pos)
    && (tr.st.leadingNewline <==> Leads(ts, prevEnd, pos))
    && (tr.groups != [] ==> Ended(ts, tr.groups[|tr.groups| - 1], pos))
  }

  /** What keeps later comments out of a group: an empty line or text. */
  ghost predicate Ended(ts: seq<Token>, g: Group, pos: nat) {
    (g.trailing && !NoEmptyLine(ts, g.last + 1, pos)) || !Buffered(ts, g.last + 1, pos)
  }

  /** The group under construction. */
  ghost predicate InOk(tabSize: nat, ts: seq<Token>, tr: Trace, pos: nat, prevEnd: nat)
    requires tr.st.InComment?
  {
    && Placed(ts, prevEnd, tr.Current(), pos)
    && Buffered(ts, tr.first, pos)
    && tr.st.lines == LinesOf(tabSize, ts, tr.first, tr.last, tr.st.indentation)
    && (tr.st.leadingNewline <==> Leads(ts, prevEnd, tr.first))
    && (tr.st.trailingNewline <==> NewlineAfter(ts, tr.last + 1, pos))
    && NoEmptyLine(ts, tr.last + 1, pos)
  }

  ghost predicate Inv(tabSize: nat, ts: seq<Token>, tr: Trace, pos: nat) {
    var prevEnd := PrevEnd(tr.groups, |tr.groups|);
    && prevEnd <= pos <= |ts|
    && AllOk(tabSize, ts, tr.groups, tr.Limit(pos))
    && (tr.st.PreComment? ==> PreOk(ts, tr, pos, prevEnd))
    && (tr.st.InComment? ==> InOk(tabSize, ts, tr, pos, prevEnd))
  }

  // ----- One more token

  lemma CommentStays(ts: seq<Token>, from: nat, pos: nat)
    requires from <= pos < |ts|
    ensures CommentIn(ts, from, pos + 1) <==> CommentIn(ts, from, pos) || ts[pos].Comment?
  {
    if CommentIn(ts, from, pos) {
      var i :| from <= i < pos && i < |ts| && ts[i].Comment?;
      assert from <= i < pos + 1;
    }
  }

  lemma BufferedStays(ts: seq<Token>, from: nat, pos: nat)
    requires from <= pos < |ts|
    ensures Buffered(ts, from, pos + 1) <==> Buffered(ts, from, pos) && Is(ts[pos], BUFFERED)
  {}

  lemma AfterStays(ts: seq<Token>, from: nat, pos: nat)
    requires from <= pos < |ts|
    ensures NewlineAfter(ts, from, pos + 1) <==>
            NewlineAfter(ts, from, pos) || (ts[pos].Newline? && Buffered(ts, from, pos))
  {
    if NewlineAfter(ts, from, pos) {
      var j :| from <= j < pos && j < |ts| && ts[j].Newline? && Buffered(ts, from, j);
      assert from <= j < pos + 1;
    }
  }

  lemma BeforeStays(ts: seq<Token>, from: nat, pos: nat)
    requires from <= pos < |ts|
    ensures NewlineBefore(ts, from, pos + 1) <==>
            Is(ts[pos], BUFFERED) && (NewlineBefore(ts, from, pos) || ts[pos].Newline?)
  {
    if Is(ts[pos], BUFFERED) && NewlineBefore(ts, from, pos) {
      var j :| from <= j < pos && j < |ts| && ts[j].Newline? && Buffered(ts, j, pos);
      BufferedStays(ts, j, pos);
      assert from <= j < pos + 1;
    }
    if Is(ts[pos], BUFFERED) && ts[pos].Newline? {
      assert Buffered(ts, pos, pos + 1);
    }
    if NewlineBefore(ts, from, pos + 1) {
      var j :| from <= j < pos + 1 && j < |ts| && ts[j].Newline? && Buffered(ts, j, pos + 1);
      BufferedStays(ts, j, pos);
      assert Is(ts[pos], BUFFERED);
    }
  }

  lemma LeadsStays(ts: seq<Token>, prevEnd: nat, pos: nat)
    requires prevEnd <= pos < |ts|
    ensures Leads(ts, prevEnd, pos + 1) <==> Is(ts[pos], BUFFERED) && (Leads(ts, prevEnd, pos) || ts[pos].Newline?)
  {
    BeforeStays(ts, prevEnd, pos);
    BufferedStays(ts, 0, pos);
  }

  /** Within a run of tokens that are not text, both kinds of newline are the same. */
  lemma BeforeIsAfter(ts: seq<Token>, from: nat, to: nat)
    requires Buffered(ts, from, to)
    ensures NewlineBefore(ts, from, to) <==> NewlineAfter(ts, from, to)
  {
    if NewlineBefore(ts, from, to) {
      var j :| from <= j < to && j < |ts| && ts[j].Newline? && Buffered(ts, j, to);
      assert Buffered(ts, from, j);
    }
    if NewlineAfter(ts, from, to) {
      var j :| from <= j < to && j < |ts| && ts[j].Newline? && Buffered(ts, from, j);
      assert Buffered(ts, j, to);
    }
  }

  lemma {:induction false} LinesStay(tabSize: nat, ts: seq<Token>, first: nat, last: nat, k: nat, column: nat)
    requires first <= last <= k < |ts| && !CommentIn(ts, last + 1, k + 1)
    ensures LinesOf(tabSize, ts, first, k, column) == LinesOf(tabSize, ts, first, last, column)
    decreases k - last
  {
    if last < k {
      assert !ts[k].Comment?;
      CommentStays(ts, last + 1, k);
      LinesStay(tabSize, ts, first, last, k - 1, column);
    }
  }

  lemma InsertGroup(tabSize: nat, ts: seq<Token>, groups: seq<Group>, g: Group, limit: nat)
    requires AllOk(tabSize, ts, groups, g.first)
    requires GroupOk(tabSize, ts, groups + [g], |groups|, limit)
    ensures AllOk(tabSize, ts, groups + [g], limit)
  {
    var more := groups + [g];
    forall i | 0 <= i < |groups| ensures GroupOk(tabSize, ts, more, i, limit) {
      assert GroupOk(tabSize, ts, groups, i, g.first);
      assert PrevEnd(more, i) == PrevEnd(groups, i) && NextStart(more, i, limit) == NextStart(groups, i, g.first);
    }
  }

  /** The groups closed so far stay as they are while no comment is found. */
  lemma LimitGrows(tabSize: nat, ts: seq<Token>, groups: seq<Group>, pos: nat, next: nat)
    requires pos < |ts| && !ts[pos].Comment? && next == pos + 1
    requires AllOk(tabSize, ts, groups, pos)
    requires groups != [] ==> Ended(ts, groups[|groups| - 1], pos)
    ensures AllOk(tabSize, ts, groups, next)
  {
    hide NewlineAfter, CommentIn, NoEmptyLine, Leads, LinesOf, Buffered;
    forall i | 0 <= i < |groups| ensures GroupOk(tabSize, ts, groups, i, next) {
      assert GroupOk(tabSize, ts, groups, i, pos);
      if i == |groups| - 1 {
        CommentStays(ts, groups[i].last + 1, pos);
        AfterStays(ts, groups[i].last + 1, pos);
      }
    }
  }

  /** A comment begins a group. */
  lemma FreshGroup(tabSize: nat, ts: seq<Token>, tr: Trace, pos: nat, prevEnd: nat)
    requires prevEnd <= pos < |ts| && ts[pos].Comment? && !CommentIn(ts, prevEnd, pos)
    requires tr.st.InComment? && tr.first == tr.last == pos && !tr.st.trailingNewline
    requires tr.st.lines == Split(ts[pos].text, tr.st.indentation, tabSize)
    requires tr.st.leadingNewline <==> Leads(ts, prevEnd, pos)
    ensures InOk(tabSize, ts, tr, pos + 1, prevEnd)
  {
    hide Leads;
    assert !CommentIn(ts, pos + 1, pos + 1) && !NewlineAfter(ts, pos + 1, pos + 1) && NoEmptyLine(ts, pos + 1, pos + 1);
  }

  lemma StaysEnded(ts: seq<Token>, g: Group, pos: nat)
    requires pos < |ts| && Ended(ts, g, pos)
    ensures Ended(ts, g, pos + 1)
  {}

  lemma StepInPre(tabSize: nat, ts: seq<Token>, tr: Trace, pos: nat)
    requires pos < |ts| && Inv(tabSize, ts, tr, pos) && tr.st.PreComment? && Is(ts[pos], BUFFERED)
    requires Is(ts[pos], COMMENT) ==> ts[pos].Comment?
    ensures Inv(tabSize, ts, TraceStep(tabSize, tr, pos, ts[pos]), pos + 1)
  {
    var t, prevEnd := ts[pos], PrevEnd(tr.groups, |tr.groups|);
    hide LinesOf, Leads, NewlineAfter, CommentIn, NoEmptyLine;
    if t.Comment? {
      FreshGroup(tabSize, ts, TraceStep(tabSize, tr, pos, t), pos, prevEnd);
    } else {
      CommentStays(ts, prevEnd, pos);
      LeadsStays(ts, prevEnd, pos);
      LimitGrows(tabSize, ts, tr.groups, pos, pos + 1);
      if tr.groups != [] {
        StaysEnded(ts, tr.groups[|tr.groups| - 1], pos);
      }
    }
  }

  /** A token that neither closes the group nor extends it. */
  lemma StepWaits(tabSize: nat, ts: seq<Token>, tr: Trace, pos: nat)
    requires pos < |ts| && Inv(tabSize, ts, tr, pos) && tr.st.InComment? && Is(ts[pos], BUFFERED)
    requires !ts[pos].Comment? && (ts[pos].Newline? ==> !tr.st.trailingNewline)
    ensures Inv(tabSize, ts, TraceStep(tabSize, tr, pos, ts[pos]), pos + 1)
  {
    hide LinesOf, Leads;
    CommentStays(ts, tr.last + 1, pos);
    AfterStays(ts, tr.last + 1, pos);
    BufferedStays(ts, tr.first, pos);
    if ts[pos].Newline? {
      forall a | tr.last + 1 <= a < pos ensures !ts[a].Newline? {
        assert Buffered(ts, tr.last + 1, a);
      }
    }
    hide AllOk, CommentIn, NewlineAfter;
    assert NoEmptyLine(ts, tr.last + 1, pos + 1);
  }

  /** A comment at the same column extends the group. */
  lemma StepExtends(tabSize: nat, ts: seq<Token>, tr: Trace, pos: nat)
    requires pos < |ts| && Inv(tabSize, ts, tr, pos) && tr.st.InComment?
    requires ts[pos].Comment? && tr.st.indentation == tr.column
    ensures Inv(tabSize, ts, TraceStep(tabSize, tr, pos, ts[pos]), pos + 1)
  {
    hide AllOk, InOk, Split;
    ExtendedIsOk(tabSize, ts, tr, pos, PrevEnd(tr.groups, |tr.groups|));
  }

  lemma ExtendedIsOk(tabSize: nat, ts: seq<Token>, tr: Trace, pos: nat, prevEnd: nat)
    requires pos < |ts| && tr.st.InComment? && InOk(tabSize, ts, tr, pos, prevEnd)
    requires ts[pos].Comment? && tr.st.indentation == tr.column
    ensures InOk(tabSize, ts, TraceStep(tabSize, tr, pos, ts[pos]), pos + 1, prevEnd)
  {
    hide Leads, LinesOf, CommentIn, NewlineAfter, NoEmptyLine, Buffered, Split;
    LinesStay(tabSize, ts, tr.first, tr.last, pos - 1, tr.st.indentation);
    LinesGrow(tabSize, ts, tr.first, pos, tr.st.indentation);
    NoEmptyLineJoins(ts, tr.first, tr.last, pos);
    BufferedStays(ts, tr.first, pos);
    NothingAfter(ts, pos);
  }

  lemma NothingAfter(ts: seq<Token>, pos: nat)
    ensures !CommentIn(ts, pos + 1, pos + 1) && !NewlineAfter(ts, pos + 1, pos + 1) && NoEmptyLine(ts, pos + 1, pos + 1)
  {}

  lemma LinesGrow(tabSize: nat, ts: seq<Token>, first: nat, pos: nat, column: nat)
    requires first < pos < |ts| && ts[pos].Comment?
    ensures LinesOf(tabSize, ts, first, pos, column)
         == LinesOf(tabSize, ts, first, pos - 1, column) + Split(ts[pos].text, column, tabSize)
  {}

  lemma NoEmptyLineJoins(ts: seq<Token>, first: nat, last: nat, pos: nat)
    requires first <= last < pos < |ts| && ts[last].Comment? && ts[pos].Comment?
    requires NoEmptyLine(ts, first, last + 1) && NoEmptyLine(ts, last + 1, pos)
    ensures NoEmptyLine(ts, first, pos + 1)
  {
    forall a, b | first <= a < b < pos + 1 && b < |ts| && ts[a].Newline? && ts[b].Newline? ensures CommentIn(ts, a, b) {
      if a <= last < b {
        assert a <= last < b && ts[last].Comment?;
      }
    }
  }

  /** What closes the group: a second newline, a comment at another column or text. */
  lemma GroupCloses(tabSize: nat, ts: seq<Token>, tr: Trace, pos: nat, limit: nat)
    requires pos < |ts| && Inv(tabSize, ts, tr, pos) && tr.st.InComment?
    requires limit == if ts[pos].Comment? then pos else pos + 1
    requires ts[pos].Newline? ==> tr.st.trailingNewline
    ensures AllOk(tabSize, ts, tr.groups + [tr.Current()], limit)
  {
    var g, n := tr.Current(), |tr.groups|;
    var more := tr.groups + [g];
    CommentStays(ts, tr.last + 1, pos);
    AfterStays(ts, tr.last + 1, pos);
    assert PrevEnd(more, n) == PrevEnd(tr.groups, n) && NextStart(more, n, limit) == limit;
    hide LinesOf, Leads, CommentIn, NewlineAfter, NoEmptyLine, Buffered;
    assert GroupOk(tabSize, ts, more, n, limit);
    InsertGroup(tabSize, ts, tr.groups, g, limit);
  }

  lemma StepCloses(tabSize: nat, ts: seq<Token>, tr: Trace, pos: nat)
    requires pos < |ts| && Inv(tabSize, ts, tr, pos) && tr.st.InComment?
    requires (ts[pos].Comment? && tr.st.indentation != tr.column) || (ts[pos].Newline? && tr.st.trailingNewline)
    ensures Inv(tabSize, ts, TraceStep(tabSize, tr, pos, ts[pos]), pos + 1)
  {
    var g, next, end := tr.Current(), TraceStep(tabSize, tr, pos, ts[pos]), tr.last + 1;
    var more, limit := tr.groups + [g], if ts[pos].Comment? then pos else pos + 1;
    GroupCloses(tabSize, ts, tr, pos, limit);
    assert more[|more| - 1] == g && PrevEnd(more, |more|) == end;
    CommentStays(ts, end, pos);
    LeadsStays(ts, end, pos);
    LeadsAfterComment(ts, tr.first, end, pos);
    hide AllOk, LinesOf, Leads, CommentIn, NewlineAfter, NoEmptyLine, Buffered;
    if ts[pos].Comment? {
      FreshGroup(tabSize, ts, next, pos, end);
    } else {
      EmptyLineEnds(ts, g, pos);
    }
  }

  lemma EmptyLineEnds(ts: seq<Token>, g: Group, pos: nat)
    requires g.last < pos < |ts| && g.trailing && ts[pos].Newline?
    requires NewlineAfter(ts, g.last + 1, pos) && !CommentIn(ts, g.last + 1, pos)
    ensures Ended(ts, g, pos + 1)
  {
    var j :| g.last + 1 <= j < pos && j < |ts| && ts[j].Newline? && Buffered(ts, g.last + 1, j);
    assert ts[j].Newline? && ts[pos].Newline? && !CommentIn(ts, j, pos);
  }

  lemma LeadsAfterComment(ts: seq<Token>, first: nat, from: nat, to: nat)
    requires first < from && Buffered(ts, first, to)
    ensures Leads(ts, from, to) <==> NewlineAfter(ts, from, to)
  {
    BeforeIsAfter(ts, from, to);
  }

  /** Text ends the comment under construction. */
  lemma StepText(tabSize: nat, ts: seq<Token>, tr: Trace, pos: nat)
    requires pos < |ts| && Inv(tabSize, ts, tr, pos) && !Is(ts[pos], BUFFERED)
    ensures Inv(tabSize, ts, StreamStep(tabSize, tr, pos, ts[pos]), pos + 1)
  {
    var groups := Close(tr, false);
    var prevEnd := PrevEnd(groups, |groups|);
    TextClosesAll(tabSize, ts, tr, pos);
    CommentStays(ts, prevEnd, pos);
    LeadsStays(ts, prevEnd, pos);
    hide AllOk, LinesOf, Leads, CommentIn;
    assert groups != [] ==> !Buffered(ts, groups[|groups| - 1].last + 1, pos + 1);
  }

  lemma TextClosesAll(tabSize: nat, ts: seq<Token>, tr: Trace, pos: nat)
    requires pos < |ts| && Inv(tabSize, ts, tr, pos) && !Is(ts[pos], BUFFERED)
    ensures
      var groups := Close(tr, false);
      var prevEnd := PrevEnd(groups, |groups|);
      AllOk(tabSize, ts, groups, pos + 1) && prevEnd <= pos && !CommentIn(ts, prevEnd, pos)
  {
    var groups := Close(tr, false);
    hide AllOk, LinesOf, Leads, NewlineAfter, NoEmptyLine, CommentIn;
    if tr.st.InComment? {
      GroupCloses(tabSize, ts, tr, pos, pos + 1);
      assert groups == tr.groups + [tr.Current()];
    } else {
      assert groups == tr.groups;
      LimitGrows(tabSize, ts, groups, pos, pos + 1);
    }
  }

  lemma {:induction false} ScanKeepsInv(tabSize: nat, ts: seq<Token>, pos: nat)
    requires pos <= |ts| && RawComments(ts)
    ensures Inv(tabSize, ts, Scan(tabSize, ts, pos), pos)
    decreases pos
  {
    if pos == 0 {
      assert !CommentIn(ts, 0, 0) && Buffered(ts, 0, 0);
    } else {
      hide Inv, StreamStep;
      var tr := Scan(tabSize, ts, pos - 1);
      assert Scan(tabSize, ts, pos) == StreamStep(tabSize, tr, pos - 1, ts[pos - 1]);
      hide Scan;
      ScanKeepsInv(tabSize, ts, pos - 1);
      StepKeepsInv(tabSize, ts, tr, pos - 1);
    }
  }

  lemma StepKeepsInv(tabSize: nat, ts: seq<Token>, tr: Trace, pos: nat)
    requires pos < |ts| && RawComments(ts) && Inv(tabSize, ts, tr, pos)
    ensures Inv(tabSize, ts, StreamStep(tabSize, tr, pos, ts[pos]), pos + 1)
  {
    hide Inv, TraceStep;
    var t := ts[pos];
    if !Is(t, BUFFERED) {
      StepText(tabSize, ts, tr, pos);
    } else if tr.st.PreComment? {
      StepInPre(tabSize, ts, tr, pos);
    } else if t.Comment? && tr.st.indentation == tr.column {
      StepExtends(tabSize, ts, tr, pos);
    } else if t.Comment? || (t.Newline? && tr.st.trailingNewline) {
      StepCloses(tabSize, ts, tr, pos);
    } else {
      StepWaits(tabSize, ts, tr, pos);
    }
  }

  // ----- The whole stream

  ghost predicate FinalGroup(tabSize: nat, ts: seq<Token>, groups: seq<Group>, i: nat)
    requires i < |groups|
  {
    var g, next := groups[i], NextStart(groups, i, |ts|);
    && Placed(ts, PrevEnd(groups, i), g, next)
    && g.lines == LinesOf(tabSize, ts, g.first, g.last, g.column)
    && (g.leading <==> Leads(ts, PrevEnd(groups, i), g.first))
    && (g.trailing <==>
        NewlineAfter(ts, g.last + 1, next) || (i == |groups| - 1 && Buffered(ts, g.last + 1, |ts|)))
  }

  /**
   The groups cover the comments of the stream in order, and none spans text or
   an empty line. The lines of a group are those of its raw comments, each
   outdented to the column of the group. The class says whether a newline, or
   the start of the file, comes before the first comment and whether a newline,
   or the end of the file, comes after the last one, without text in between.
   */
  lemma ClassesSayNewlines(tabSize: nat, ts: seq<Token>)
    requires RawComments(ts)
    ensures
      var groups := Groups(tabSize, ts);
      && (forall i :: 0 <= i < |groups| ==> FinalGroup(tabSize, ts, groups, i))
      && !CommentIn(ts, PrevEnd(groups, |groups|), |ts|)
  {
    ScanKeepsInv(tabSize, ts, |ts|);
    CloseIsOk(tabSize, ts, Scan(tabSize, ts, |ts|));
  }

  lemma CloseIsOk(tabSize: nat, ts: seq<Token>, tr: Trace)
    requires Inv(tabSize, ts, tr, |ts|)
    ensures
      var groups := Close(tr, true);
      && (forall i :: 0 <= i < |groups| ==> FinalGroup(tabSize, ts, groups, i))
      && !CommentIn(ts, PrevEnd(groups, |groups|), |ts|)
  {
    var groups, n := Close(tr, true), |tr.groups|;
    hide LinesOf, Leads, CommentIn, NewlineAfter, NoEmptyLine;
    forall i | 0 <= i < |groups| ensures FinalGroup(tabSize, ts, groups, i) {
      if i < n {
        assert GroupOk(tabSize, ts, tr.groups, i, tr.Limit(|ts|));
        assert PrevEnd(groups, i) == PrevEnd(tr.groups, i);
        assert NextStart(groups, i, |ts|) == NextStart(tr.groups, i, tr.Limit(|ts|));
        if i == |groups| - 1 && Buffered(ts, groups[i].last + 1, |ts|) {
          assert groups == tr.groups;
        }
      } else {
        assert PrevEnd(groups, i) == PrevEnd(tr.groups, n);
        assert Buffered(ts, tr.last + 1, |ts|);
      }
    }
  }

  ghost predicate StopsAt(ts: seq<Token>, p: nat, j: nat) {
    p <= j <= |ts| && (j < |ts| ==> ts[j].Newline?) && forall k :: p <= k < j ==> Is(ts[k], CONTROL)
  }

  /** Control tokens aside, a newline comes next, or nothing. */
  ghost predicate LineStops(ts: seq<Token>, p: nat) {
    exists j :: StopsAt(ts, p, j)
  }

  /** A group whose last raw comment ends its line has a class that ends a line. */
  lemma LastOnLineTrails(tabSize: nat, ts: seq<Token>, i: nat)
    requires RawComments(ts) && i < |Groups(tabSize, ts)| && LineStops(ts, Groups(tabSize, ts)[i].last + 1)
    ensures Groups(tabSize, ts)[i].trailing
  {
    hide *;
    var groups := Groups(tabSize, ts);
    ClassesSayNewlines(tabSize, ts);
    assert FinalGroup(tabSize, ts, groups, i);
    assert i + 1 < |groups| ==> FinalGroup(tabSize, ts, groups, i + 1);
    StoppedGroupTrails(tabSize, ts, groups, i);
  }

  lemma StoppedGroupTrails(tabSize: nat, ts: seq<Token>, groups: seq<Group>, i: nat)
    requires i < |groups| && FinalGroup(tabSize, ts, groups, i) && LineStops(ts, groups[i].last + 1)
    requires i + 1 < |groups| ==> FinalGroup(tabSize, ts, groups, i + 1)
    ensures groups[i].trailing
  {
    hide LinesOf, Leads, NoEmptyLine, CommentIn, LineStops, NewlineAfter, Buffered;
    NewlineIsAfter(ts, groups[i].last + 1, NextStart(groups, i, |ts|));
  }

  lemma NewlineIsAfter(ts: seq<Token>, p: nat, next: nat)
    requires LineStops(ts, p) && p <= next <= |ts| && (next < |ts| ==> ts[next].Comment?)
    ensures NewlineAfter(ts, p, next) || (next == |ts| && Buffered(ts, p, |ts|))
  {
    var j :| StopsAt(ts, p, j);
    assert Buffered(ts, p, j);
  }
}
