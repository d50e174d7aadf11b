/**
 Which neighbouring comments are joined, in terms of the raw stream. Comments
 are joined when they stand at one column, in the count of the automaton: a
 comment that is found while another one is under construction has width 0.
 */
module CommentMerging {
  import opened Seqs
  import opened Tokens
  import opened Comments
  import opened CommentClasses

  /** The comment at `q` is the next one after that at `p`, without text in between. */
  ghost predicate Follows(ts: seq<Token>, p: nat, q: nat) {
    p < q < |ts| && ts[p].Comment? && ts[q].Comment? && Buffered(ts, p, q) && !CommentIn(ts, p + 1, q)
  }

  /** A comment that no other one precedes, or only beyond text or an empty line. */
  ghost predicate Opens(ts: seq<Token>, q: nat) {
    forall p: nat :: Follows(ts, p, q) ==> !NoEmptyLine(ts, p + 1, q)
  }

  /** The column before position `pos`, as the automaton counts it. */
  ghost function ColumnAt(tabSize: nat, ts: seq<Token>, pos: nat): nat
    requires pos <= |ts|
  {
    if pos == 0 then 0
    else
      var t, before := ts[pos - 1], ColumnAt(tabSize, ts, pos - 1);
      if t.Newline? then 0
      else if t.Whitespace? then before + 1
      else if t.Tab? then before + tabSize
      else if t.Comment? && !Opens(ts, pos - 1) then before
      else if Is(t, CONTROL) then before
      else before + |AsBytes(t)|
  }

  /** The width of the blanks between two positions. */
  function Width(tabSize: nat, ts: seq<Token>, from: nat, to: nat): nat
    requires to <= |ts|
  {
    if to <= from then 0
    else
      Width(tabSize, ts, from, to - 1)
      + if ts[to - 1].Whitespace? then 1 else if ts[to - 1].Tab? then tabSize else 0
  }

  // ----- When a comment is found outside of any other

  lemma OpensExactly(tabSize: nat, ts: seq<Token>, pos: nat)
    requires pos < |ts| && RawComments(ts) && ts[pos].Comment?
    ensures Scan(tabSize, ts, pos).st.PreComment? <==> Opens(ts, pos)
    ensures forall p: nat :: Follows(ts, p, pos) && Scan(tabSize, ts, pos).st.InComment? ==>
        p == Scan(tabSize, ts, pos).last
  {
    var tr := Scan(tabSize, ts, pos);
    var prevEnd := PrevEnd(tr.groups, |tr.groups|);
    ScanKeepsInv(tabSize, ts, pos);
    hide Scan, AllOk, LinesOf, Leads, NewlineAfter;
    if tr.st.InComment? {
      assert Follows(ts, tr.last, pos) && NoEmptyLine(ts, tr.last + 1, pos);
      forall p: nat | Follows(ts, p, pos) ensures p == tr.last {
        NeighbourIsUnique(ts, p, tr.last, pos);
      }
    } else {
      forall p: nat | Follows(ts, p, pos) ensures !NoEmptyLine(ts, p + 1, pos) {
        EndedGroupPrecedes(tabSize, ts, tr, p, pos);
      }
    }
  }

  lemma NeighbourIsUnique(ts: seq<Token>, p: nat, p': nat, q: nat)
    requires Follows(ts, p, q) && Follows(ts, p', q)
    ensures p == p'
  {}

  lemma EndedGroupPrecedes(tabSize: nat, ts: seq<Token>, tr: Trace, p: nat, pos: nat)
    requires Inv(tabSize, ts, tr, pos) && tr.st.PreComment? && Follows(ts, p, pos)
    ensures !NoEmptyLine(ts, p + 1, pos)
  {
    var n := |tr.groups|;
    assert p < PrevEnd(tr.groups, n);
    assert GroupOk(tabSize, ts, tr.groups, n - 1, tr.Limit(pos));
    var g := tr.groups[n - 1];
    assert ts[g.last].Comment? && p == g.last;
  }

  // ----- The columns of comments

  ghost predicate ColumnsOk(tabSize: nat, ts: seq<Token>, tr: Trace, pos: nat)
    requires pos <= |ts|
  {
    && tr.column == ColumnAt(tabSize, ts, pos)
    && (tr.st.InComment? ==>
        && tr.first <= tr.last < pos
        && tr.st.indentation == ColumnAt(tabSize, ts, tr.first)
        && tr.st.indentation == ColumnAt(tabSize, ts, tr.last))
  }

  lemma {:induction false} ScanColumns(tabSize: nat, ts: seq<Token>, pos: nat)
    requires pos <= |ts| && RawComments(ts)
    ensures ColumnsOk(tabSize, ts, Scan(tabSize, ts, pos), pos)
    decreases pos
  {
    if pos > 0 {
      var tr := Scan(tabSize, ts, pos - 1);
      ScanColumns(tabSize, ts, pos - 1);
      if ts[pos - 1].Comment? {
        OpensExactly(tabSize, ts, pos - 1);
      }
      StepColumns(tabSize, ts, tr, pos - 1);
    }
  }

  lemma StepColumns(tabSize: nat, ts: seq<Token>, tr: Trace, pos: nat)
    requires pos < |ts| && ColumnsOk(tabSize, ts, tr, pos)
    requires Is(ts[pos], COMMENT) ==> ts[pos].Comment? && (tr.st.PreComment? <==> Opens(ts, pos))
    ensures ColumnsOk(tabSize, ts, StreamStep(tabSize, tr, pos, ts[pos]), pos + 1)
  {
    hide Opens, Split;
  }

  // ----- Groups are only added to

  /** The groups begin with those of a trace, the one under construction possibly longer. */
  ghost predicate Leading(tr: Trace, groups: seq<Group>) {
    var n := |tr.groups|;
    && n <= |groups| && groups[..n] == tr.groups
    && (tr.st.InComment? ==>
        n < |groups| && groups[n].first == tr.first && tr.last <= groups[n].last &&
            groups[n].column == tr.st.indentation)
  }

  lemma StepLeads(tabSize: nat, tr: Trace, pos: nat, t: Token, groups: seq<Group>)
    requires Leading(StreamStep(tabSize, tr, pos, t), groups) && (tr.st.InComment? ==> tr.last < pos)
    ensures Leading(tr, groups)
  {
    var n, next := |tr.groups|, StreamStep(tabSize, tr, pos, t);
    assert groups[..n] == groups[..|next.groups|][..n];
  }

  lemma ScanStep(tabSize: nat, ts: seq<Token>, pos: nat)
    requires pos < |ts| && RawComments(ts)
    ensures
      var tr := Scan(tabSize, ts, pos);
      && Scan(tabSize, ts, pos + 1) == StreamStep(tabSize, tr, pos, ts[pos])
      && (tr.st.InComment? ==> tr.last < pos)
  {
    hide StreamStep, ColumnAt;
    ScanColumns(tabSize, ts, pos);
  }

  lemma {:induction false} ScanLeads(tabSize: nat, ts: seq<Token>, pos: nat)
    requires pos <= |ts| && RawComments(ts)
    ensures Leading(Scan(tabSize, ts, pos), Groups(tabSize, ts))
    decreases |ts| - pos
  {
    hide *;
    if pos == |ts| {
      GroupsAreClosed(tabSize, ts);
      CloseLeads(Scan(tabSize, ts, pos));
    } else {
      ScanStep(tabSize, ts, pos);
      ScanLeads(tabSize, ts, pos + 1);
      StepLeads(tabSize, Scan(tabSize, ts, pos), pos, ts[pos], Groups(tabSize, ts));
    }
  }

  lemma GroupsAreClosed(tabSize: nat, ts: seq<Token>)
    ensures Groups(tabSize, ts) == Close(Scan(tabSize, ts, |ts|), true)
  {}

  lemma CloseLeads(tr: Trace)
    ensures Leading(tr, Close(tr, true))
  {
    assert Close(tr, true)[..|tr.groups|] == tr.groups;
  }

  lemma {:induction false} GroupsAscend(tabSize: nat, ts: seq<Token>, i: nat, j: nat)
    requires RawComments(ts) && i < j < |Groups(tabSize, ts)|
    ensures Groups(tabSize, ts)[i].last < Groups(tabSize, ts)[j].first
  {
    hide Groups;
    GroupInOrder(tabSize, ts, j);
    if i < j - 1 {
      GroupInOrder(tabSize, ts, j - 1);
      GroupsAscend(tabSize, ts, i, j - 1);
    }
  }

  lemma GroupInOrder(tabSize: nat, ts: seq<Token>, j: nat)
    requires RawComments(ts) && j < |Groups(tabSize, ts)|
    ensures var groups := Groups(tabSize, ts); PrevEnd(groups, j) <= groups[j].first <= groups[j].last
  {
    var groups := Groups(tabSize, ts);
    ClassesSayNewlines(tabSize, ts);
    hide Groups, LinesOf, Leads, NewlineAfter, Buffered, CommentIn, NoEmptyLine;
    assert FinalGroup(tabSize, ts, groups, j);
  }

  ghost predicate Holds(groups: seq<Group>, i: nat, p: nat) {
    i < |groups| && groups[i].first <= p <= groups[i].last
  }

  /** Every comment is in one group, whose column is its own. */
  lemma CommentHasGroup(tabSize: nat, ts: seq<Token>, p: nat) returns (i: nat)
    requires p < |ts| && RawComments(ts) && ts[p].Comment?
    ensures i == |Scan(tabSize, ts, p + 1).groups|
    ensures Scan(tabSize, ts, p + 1).st.InComment? && Scan(tabSize, ts, p + 1).last == p
    ensures var groups := Groups(tabSize, ts);
      Holds(groups, i, p) && groups[i].column == ColumnAt(tabSize, ts, p) == ColumnAt(tabSize, ts, groups[i].first)
    ensures forall j: nat :: Holds(Groups(tabSize, ts), j, p) ==> j == i
  {
    var tr, groups := Scan(tabSize, ts, p + 1), Groups(tabSize, ts);
    i := |tr.groups|;
    ScanLeads(tabSize, ts, p + 1);
    ScanColumns(tabSize, ts, p + 1);
    forall j: nat | Holds(groups, j, p) ensures j == i {
      if i < j {
        GroupsAscend(tabSize, ts, i, j);
      } else if j < i {
        GroupsAscend(tabSize, ts, j, i);
      }
    }
  }

  lemma GroupColumn(tabSize: nat, ts: seq<Token>, i: nat, p: nat)
    requires RawComments(ts) && Holds(Groups(tabSize, ts), i, p) && p < |ts| && ts[p].Comment?
    ensures Groups(tabSize, ts)[i].column == ColumnAt(tabSize, ts, p)
  {
    var k := CommentHasGroup(tabSize, ts, p);
  }

  // ----- The theorem

  /**
   Of two neighbouring comments without text between them, the second one is in
   the group of the first one if and only if there is no empty line in between
   and it stands at the column of the group.
   */
  lemma JoinedExactly(tabSize: nat, ts: seq<Token>, p: nat, q: nat, i: nat)
    requires RawComments(ts) && Follows(ts, p, q) && Holds(Groups(tabSize, ts), i, p)
    ensures Holds(Groups(tabSize, ts), i, q) <==>
            NoEmptyLine(ts, p + 1, q) && ColumnAt(tabSize, ts, q) == Groups(tabSize, ts)[i].column
  {
    OpensExactly(tabSize, ts, q);
    if NoEmptyLine(ts, p + 1, q) {
      JoinedAtColumn(tabSize, ts, p, q, i);
    } else {
      NeighbourOnly(ts, p, q);
      BeginsGroup(tabSize, ts, p, q, i);
    }
  }

  lemma FirstIsNotHeld(tabSize: nat, ts: seq<Token>, p: nat, q: nat, i: nat)
    requires RawComments(ts) && p < q < |ts| && ts[q].Comment? && Holds(Groups(tabSize, ts), i, p)
    requires Scan(tabSize, ts, q + 1).first == q
    ensures !Holds(Groups(tabSize, ts), i, q)
  {
    hide Scan, Groups, ColumnAt;
    var n := CommentHasGroup(tabSize, ts, q);
    ScanLeads(tabSize, ts, q + 1);
  }

  lemma BeginsGroup(tabSize: nat, ts: seq<Token>, p: nat, q: nat, i: nat)
    requires RawComments(ts) && p < q < |ts| && ts[q].Comment? && Holds(Groups(tabSize, ts), i, p)
    requires Scan(tabSize, ts, q).st.PreComment?
    ensures !Holds(Groups(tabSize, ts), i, q)
  {
    hide Groups, Holds, Split;
    FirstIsNotHeld(tabSize, ts, p, q, i);
  }

  lemma JoinedAtColumn(tabSize: nat, ts: seq<Token>, p: nat, q: nat, i: nat)
    requires RawComments(ts) && Follows(ts, p, q) && Holds(Groups(tabSize, ts), i, p)
    requires Scan(tabSize, ts, q).st.InComment? && Scan(tabSize, ts, q).last == p
    ensures Holds(Groups(tabSize, ts), i, q) <==> ColumnAt(tabSize, ts, q) == Groups(tabSize, ts)[i].column
  {
    var tr := Scan(tabSize, ts, q);
    NextComment(tabSize, ts, q);
    hide Groups, Scan, Follows, ColumnAt;
    UnderConstruction(tabSize, ts, p, q, i);
    if tr.st.indentation == tr.column {
      ScanLeads(tabSize, ts, q + 1);
    } else {
      FirstIsNotHeld(tabSize, ts, p, q, i);
    }
  }

  lemma NextComment(tabSize: nat, ts: seq<Token>, q: nat)
    requires q < |ts| && ts[q].Comment? && Scan(tabSize, ts, q).st.InComment?
    ensures
      var tr, next := Scan(tabSize, ts, q), Scan(tabSize, ts, q + 1);
      && next.st.InComment?
      && (if tr.st.indentation == tr.column then next.groups == tr.groups && next.last == q else next.first == q)
  {
    hide Split;
  }

  /** The group of the last comment found is the one under construction. */
  lemma UnderConstruction(tabSize: nat, ts: seq<Token>, p: nat, q: nat, i: nat)
    requires RawComments(ts) && p < q <= |ts| && ts[p].Comment? && Holds(Groups(tabSize, ts), i, p)
    requires Scan(tabSize, ts, q).st.InComment? && Scan(tabSize, ts, q).last == p
    ensures
      var tr := Scan(tabSize, ts, q);
      && i == |tr.groups| && tr.st.indentation == Groups(tabSize, ts)[i].column
      && tr.column == ColumnAt(tabSize, ts, q) && tr.first <= p
  {
    hide Groups, Scan, ColumnAt;
    var k := CommentHasGroup(tabSize, ts, p);
    ScanColumns(tabSize, ts, q);
    ScanLeads(tabSize, ts, q);
    assert Holds(Groups(tabSize, ts), |Scan(tabSize, ts, q).groups|, p);
  }

  lemma NeighbourOnly(ts: seq<Token>, p: nat, q: nat)
    requires Follows(ts, p, q) && !NoEmptyLine(ts, p + 1, q)
    ensures Opens(ts, q)
  {
    hide NoEmptyLine;
    forall p': nat | Follows(ts, p', q) ensures !NoEmptyLine(ts, p' + 1, q) {
      NeighbourIsUnique(ts, p, p', q);
    }
  }

  lemma {:induction false} ColumnOnLine(tabSize: nat, ts: seq<Token>, from: nat, end: nat)
    requires from <= end <= |ts| && Buffered(ts, from, end) && !CommentIn(ts, from, end) && RawComments(ts)
    requires forall j: nat :: from <= j < end ==> !ts[j].Newline?
    ensures ColumnAt(tabSize, ts, end) == ColumnAt(tabSize, ts, from) + Width(tabSize, ts, from, end)
    decreases end
  {
    if from < end {
      var last := end - 1;
      assert Is(ts[last], BUFFERED) && !ts[last].Comment?;
      CommentStays(ts, from, last);
      ColumnOnLine(tabSize, ts, from, last);
    }
  }

  /**
   Two neighbouring comments of one line are joined if and only if the blanks
   between them have width 0 and the first one does not open a comment.
   */
  lemma OnOneLineJoinedExactly(tabSize: nat, ts: seq<Token>, p: nat, q: nat, i: nat)
    requires RawComments(ts) && NoEmptyComment(ts) && Follows(ts, p, q) && Holds(Groups(tabSize, ts), i, p)
    requires forall j :: p < j < q ==> !ts[j].Newline?
    ensures Holds(Groups(tabSize, ts), i, q) <==> Width(tabSize, ts, p + 1, q) == 0 && !Opens(ts, p)
  {
    hide Groups, Opens, NewlineAfter;
    JoinedExactly(tabSize, ts, p, q, i);
    GroupColumn(tabSize, ts, i, p);
    ColumnOnLine(tabSize, ts, p + 1, q);
  }

  /**
   Two neighbouring comments on two lines are joined if and only if the blanks
   before the second one reach the column of the group.
   */
  lemma OnNextLineJoinedExactly(tabSize: nat, ts: seq<Token>, p: nat, n: nat, q: nat, i: nat)
    requires RawComments(ts) && Follows(ts, p, q) && Holds(Groups(tabSize, ts), i, p)
    requires p < n < q && ts[n].Newline? && forall j :: p < j < q && j != n ==> !ts[j].Newline?
    ensures Holds(Groups(tabSize, ts), i, q) <==> Width(tabSize, ts, n + 1, q) == Groups(tabSize, ts)[i].column
  {
    hide Groups, Opens;
    JoinedExactly(tabSize, ts, p, q, i);
    ColumnOnLine(tabSize, ts, n + 1, q);
  }

  lemma OneLine(c: char, column: nat, tabSize: nat)
    requires c != '\n'
    ensures var text := ['/', '*', c, '*', '/']; Split(text, column, tabSize) == [text]
  {
    var text := ['/', '*', c, '*', '/'];
    assert LineEnd(text[4..]) == 1 && LineEnd(text[3..]) == 2 && LineEnd(text[2..]) == 3;
    assert Lines(text) == [text];
    assert Outdent(text, column, tabSize) == text;
  }

  /** Of three comments with nothing in between, only the last two are joined. */
  lemma ThirdCommentMerges(tabSize: nat)
    ensures
      var ts := [Comment("/*a*/"), Comment("/*b*/"), Comment("/*c*/")];
      Run(tabSize, ts) == [HeadComment(["/*a*/"]), TailComment(["/*b*/", "/*c*/"]), Newline]
  {
    var a, b, c := "/*a*/", "/*b*/", "/*c*/";
    var ts := [Comment(a), Comment(b), Comment(c)];
    OneLine('a', 0, tabSize);
    OneLine('b', 5, tabSize);
    OneLine('c', 5, tabSize);
    hide Split, Automaton;
    ThreeSteps(tabSize, a, b, c);
  }

  lemma FirstStep(tabSize: nat, st: State, column: nat, t: Token, rest: seq<Token>)
    ensures
      var (emitted, next, column') := Step(tabSize, st, column, t);
      var after := Automaton(tabSize, true, next, column', rest);
      Automaton(tabSize, true, st, column, [t] + rest) == (emitted + after.0, after.1)
  {
    assert ([t] + rest)[1..] == rest;
  }

  lemma ThreeSteps(tabSize: nat, a: string, b: string, c: string)
    requires |a| > 0 && Split(a, 0, tabSize) == [a]
    requires Split(b, |a|, tabSize) == [b] && Split(c, |a|, tabSize) == [c]
    ensures Run(tabSize, [Comment(a), Comment(b), Comment(c)]) == [HeadComment([a]), TailComment([b, c]), Newline]
  {
    hide Split;
    var n, t, u, v := |a|, Comment(a), Comment(b), Comment(c);
    var inA, inB, inC := InComment(0, true, false, [a]), InComment(n, false, false, [b]),
        InComment(n, false, false, [b, c]);
    FirstStep(tabSize, PreComment(true), 0, t, [u, v]);
    FirstStep(tabSize, inA, n, u, [v]);
    FirstStep(tabSize, inB, n, v, []);
    var made := [TailComment([b, c]), Newline];
    assert Automaton(tabSize, true, inC, n, []).0 == made;
    assert Made([a], true, false) == [HeadComment([a])] && [b] + [c] == [b, c];
    assert Step(tabSize, inA, n, u) == ([HeadComment([a])], inB, n);
    assert Step(tabSize, inB, n, v) == ([], inC, n);
    assert [t] + [u, v] == [t, u, v] && [u] + [v] == [u, v];
    hide Automaton, Step;
    Gathers(tabSize, t, u, v);
  }

  lemma Gathers(tabSize: nat, t: Token, u: Token, v: Token)
    requires Is(t, BUFFERED) && Is(u, BUFFERED) && Is(v, BUFFERED)
    ensures Run(tabSize, [t, u, v]) == Automaton(tabSize, true, PreComment(true), 0, [t, u, v]).0
  {
    hide Automaton;
    var ts := [t, u, v];
    assert ts[1..] == [u, v] && [u, v][1..] == [v];
    assert [] + [t] == [t] && [t] + [u] == [t, u] && [t, u] + [v] == ts;
    assert Run(tabSize, ts) == Flow(tabSize, true, 0, [t], [u, v]);
    assert Flow(tabSize, true, 0, [t], [u, v]) == Flow(tabSize, true, 0, [t, u], [v]);
    assert Flow(tabSize, true, 0, [t, u], [v]) == Flow(tabSize, true, 0, ts, []);
  }
}
