/**
 The rules that insert alignment marks produce well-bracketed blocks, so that
 aligning them never meets a nested block and never ends the stream early.
 */
module BlockMarkers {
  import opened Seqs
  import opened Tokens
  import opened Processors
  import opened Preservation
  import opened RuleSets
  import opened Alignment

  datatype Marking = HexComments | EqualSigns(block: Kind, item: Kind) {
    function Rules(): RuleSet {
      if HexComments? then HexCommentMarkers() else EqualSignMarkers(block, item)
    }

    function Block(): Kind {
      if HexComments? then HexPattern else block
    }

    predicate Splits(v: View) { EqualSigns? && EmptyLineIn(v, block) }

    predicate Marks(v: View) {
      if HexComments? then UnmarkedHexComment(v) else UnmarkedEqualSign(v, item)
    }
  }

  lemma RulesFit(k: Marking)
    ensures Fit(k.Rules(), IsMark)
  {
    if k.HexComments? { HexCommentMarkersFit(); } else { EqualSignMarkersFit(k.block, k.item); }
  }

  // ----- Blocks in a stream: never nested, never empty

  predicate Fits(b: Kind, p: Place, t: Token) {
    (t == Begin(b) ==> p == Outside) && (t == End(b) ==> p == Filled)
  }

  function Move(b: Kind, p: Place, t: Token): Place {
    if p == Outside then if t == Begin(b) then Empty else Outside
    else if t == End(b) then Outside
    else Filled
  }

  /** Grammar rules of kind `b` are neither nested in themselves nor empty. */
  predicate WellBlocked(b: Kind, p: Place, ts: seq<Token>)
    decreases |ts|
  {
    ts == [] || (Fits(b, p, ts[0]) && WellBlocked(b, Move(b, p, ts[0]), ts[1..]))
  }

  lemma {:induction false} EmptyIsStricter(b: Kind, ts: seq<Token>)
    requires WellBlocked(b, Empty, ts)
    ensures WellBlocked(b, Filled, ts)
  {}

  /** It is enough to look at the skeleton: other tokens only fill a block. */
  lemma {:induction false} WellBlockedBySkeleton(b: Kind, p: Place, ts: seq<Token>)
    requires WellBlocked(b, p, Skeleton(ts))
    ensures WellBlocked(b, p, ts)
    decreases |ts|
  {
    if ts != [] {
      var t, rest := ts[0], ts[1..];
      if Bone(t) == [] {
        assert Skeleton(ts) == Skeleton(rest);
        if p == Empty { EmptyIsStricter(b, Skeleton(rest)); }
      } else {
        assert Skeleton(ts) == [t] + Skeleton(rest);
        assert Skeleton(ts)[1..] == Skeleton(rest);
      }
      WellBlockedBySkeleton(b, Move(b, p, t), rest);
    }
  }

  // ----- What is inserted before a token

  const BEGIN_MARK := [AlignmentBlockBegin]
  const END_MARK := [AlignmentBlockEnd]
  const MARK := [AlignmentMarker]

  lemma MatchOfMarking(k: Marking, v: View)
    ensures k.Rules().Match(v) ==
            if BlockOpened(v, k.Block()) then Insert(BEGIN_MARK)
            else if BlockCloses(v, k.Block()) then Insert(END_MARK)
            else if k.Splits(v) then Insert(END_MARK + BEGIN_MARK)
            else if k.Marks(v) then Insert(MARK)
            else Copy
  {
    hide BlockOpened;
    hide BlockCloses;
    hide EmptyLineIn;
    hide UnmarkedHexComment;
    hide UnmarkedEqualSign;
    var s := k.Rules();
    assert s.MatchFrom(0, v) == if s.rules[0].cond(v) then s.rules[0].action else s.MatchFrom(1, v);
    assert s.MatchFrom(1, v) == if s.rules[1].cond(v) then s.rules[1].action else s.MatchFrom(2, v);
    assert s.MatchFrom(2, v) == if s.rules[2].cond(v) then s.rules[2].action else s.MatchFrom(3, v);
    if k.EqualSigns? {
      assert s.MatchFrom(3, v) == if s.rules[3].cond(v) then s.rules[3].action else s.MatchFrom(4, v);
    }
  }

  lemma InsertedIs(s: RuleSet, v: View, n: nat, ts: seq<Token>)
    requires s.Settles(v, n) && s.Match(v) == Insert(ts)
    ensures n > 0 && s.Settles(s.After(v, ts), n - 1)
    ensures s.Inserted(v, n) == ts + s.Inserted(s.After(v, ts), n - 1)
    ensures s.Drops(v, n) == s.Drops(s.After(v, ts), n - 1)
  {}

  /** After the start mark of a block, before a token in it, a marker may come. */
  lemma AfterBeginMark(k: Marking, v: View, n: nat)
    requires k.Rules().Settles(v, n)
    requires v.Tok(-1) == AlignmentBlockBegin && v.Tok(1) != End(k.Block())
    ensures k.Rules().Inserted(v, n) == [] || k.Rules().Inserted(v, n) == MARK
    ensures !k.Rules().Drops(v, n)
  {
    MatchOfMarking(k, v);
    if k.Marks(v) {
      var s := k.Rules();
      InsertedIs(s, v, n, MARK);
      AfterOne(s, v, AlignmentMarker);
      MatchOfMarking(k, s.After(v, MARK));
      assert MARK + [] == MARK;
    }
  }

  /** What may be inserted at a view, when its last token is `last` and its next one is `next`. */
  predicate Expected(b: Kind, last: Token, next: Token, splits: bool, marks: bool, ins: seq<Token>) {
    if last == Begin(b) then next != End(b) ==> ins == BEGIN_MARK || ins == BEGIN_MARK + MARK
    else if next == End(b) then ins == END_MARK
    else
      || ins == [] || (marks && ins == MARK)
      || (splits && (ins == END_MARK + BEGIN_MARK || ins == END_MARK + BEGIN_MARK + MARK))
  }

  lemma InsertedByMarking(k: Marking, v: View)
    requires k.Rules().Settles(v, MAX_INSERTIONS) && !IsMark(v.Tok(-1))
    requires v.Tok(-1) == Begin(k.Block()) ==> v.Tok(1) != End(k.Block())
    ensures Expected(k.Block(), v.Tok(-1), v.Tok(1), v.InRule(k.Block(), false), k.Marks(v),
                     k.Rules().Inserted(v, MAX_INSERTIONS))
    ensures !k.Rules().Drops(v, MAX_INSERTIONS)
  {
    var s, b := k.Rules(), k.Block();
    MatchOfMarking(k, v);
    if v.Tok(-1) == Begin(b) {
      InsertedIs(s, v, MAX_INSERTIONS, BEGIN_MARK);
      AfterOne(s, v, AlignmentBlockBegin);
      AfterBeginMark(k, s.After(v, BEGIN_MARK), MAX_INSERTIONS - 1);
      assert BEGIN_MARK + [] == BEGIN_MARK;
    } else if v.Tok(1) == End(b) {
      InsertedIs(s, v, MAX_INSERTIONS, END_MARK);
      AfterOne(s, v, AlignmentBlockEnd);
      MatchOfMarking(k, s.After(v, END_MARK));
      assert END_MARK + [] == END_MARK;
    } else if k.Splits(v) {
      InsertedIs(s, v, MAX_INSERTIONS, END_MARK + BEGIN_MARK);
      AfterTwo(s, v, AlignmentBlockEnd, AlignmentBlockBegin);
      assert END_MARK + BEGIN_MARK == [AlignmentBlockEnd, AlignmentBlockBegin];
      AfterBeginMark(k, s.After(v, END_MARK + BEGIN_MARK), MAX_INSERTIONS - 1);
      assert END_MARK + BEGIN_MARK + [] == END_MARK + BEGIN_MARK;
    } else if k.Marks(v) {
      InsertedIs(s, v, MAX_INSERTIONS, MARK);
      AfterOne(s, v, AlignmentMarker);
      MatchOfMarking(k, s.After(v, MARK));
      assert MARK + [] == MARK;
    }
  }

  // ----- The output is well bracketed

  /** Blocks are not nested, not empty, and hold all the markers. */
  predicate WellMarked(p: Place, ts: seq<Token>)
    decreases |ts|
  {
    ts == [] || (Proper(p, ts[0]) && WellMarked(Enter(p, ts[0]), ts[1..]))
  }

  predicate Proper(p: Place, t: Token) {
    Allowed(p, t) && (t == AlignmentMarker || t == AlignmentBlockEnd ==> p != Outside)
  }

  lemma {:induction false} WellMarkedIsBracketed(p: Place, ts: seq<Token>)
    requires WellMarked(p, ts)
    ensures Bracketed(p, ts)
    decreases |ts|
  {
    if ts != [] {
      WellMarkedIsBracketed(Enter(p, ts[0]), ts[1..]);
    }
  }

  function EnterAll(p: Place, ts: seq<Token>): Place
    decreases |ts|
  {
    if ts == [] then p else EnterAll(Enter(p, ts[0]), ts[1..])
  }

  lemma {:induction false} WellMarkedConcat(p: Place, a: seq<Token>, b: seq<Token>)
    ensures WellMarked(p, a + b) <==> WellMarked(p, a) && WellMarked(EnterAll(p, a), b)
    ensures EnterAll(p, a + b) == EnterAll(EnterAll(p, a), b)
    decreases |a|
  {
    if a == [] {
      assert a + b == b;
    } else {
      assert (a + b)[0] == a[0] && (a + b)[1..] == a[1..] + b;
      WellMarkedConcat(Enter(p, a[0]), a[1..], b);
    }
  }

  function Last(out: seq<Token>): Token {
    if out == [] then NoToken else out[|out| - 1]
  }

  /** How often `b` is open. */
  function Depth(b: Kind, out: seq<Token>): nat {
    multiset(Open([], out))[b]
  }

  /** The output so far agrees with the place `p` reached in the input. */
  predicate Sound(b: Kind, p: Place, out: seq<Token>) {
    && WellMarked(Outside, out)
    && EnterAll(Outside, out) == (if p == Filled then Filled else Outside)
    && (Last(out) == Begin(b) <==> p == Empty)
    && !IsMark(Last(out))
    && Depth(b, out) == (if p == Outside then 0 else 1)
  }

  /** No mark and no placeholder. */
  ghost predicate Unmarked(ts: seq<Token>) {
    forall i :: 0 <= i < |ts| ==> Tokens.Marks(ts[i]) == []
  }

  lemma LastSeen(s: RuleSet, out: seq<Token>, rest: seq<Token>)
    requires out != [] ==> !s.Hidden(Last(out))
    ensures s.Look(out, rest).Tok(-1) == Last(out)
  {
    if out != [] {
      var init := out[..|out| - 1];
      assert out == init + [Last(out)];
      RecentSnoc(s, init, Last(out));
    }
  }

  lemma InRuleIsOpen(b: Kind, v: View, deep: bool)
    requires v.InRule(b, deep)
    ensures b in multiset(v.stack)
  {
    var n := |v.stack|;
    if !deep {
      var open := if v.next != [] && v.next[0].End? && v.stack != [] then v.stack[..n - 1] else v.stack;
      assert open[|open| - 1] in v.stack;
    }
  }

  /** An item is only open inside its block. */
  predicate Covered(k: Marking, stack: seq<Kind>) {
    k.EqualSigns? ==> forall i :: 0 <= i < |stack| && stack[i] == k.item ==> k.block in stack[..i]
  }

  /** Each item opens inside its block. */
  predicate ItemsInside(k: Marking, stack: seq<Kind>, ts: seq<Token>)
    decreases |ts|
  {
    ts == [] || (
      && (k.EqualSigns? && ts[0] == Begin(k.item) ==> k.block in stack)
      && ItemsInside(k, OpenOne(stack, ts[0]), ts[1..])
    )
  }

  lemma {:induction false} ItemsInsideBySkeleton(k: Marking, stack: seq<Kind>, ts: seq<Token>)
    ensures ItemsInside(k, stack, Skeleton(ts)) == ItemsInside(k, stack, ts)
    decreases |ts|
  {
    if ts != [] {
      var t, rest := ts[0], ts[1..];
      ItemsInsideBySkeleton(k, OpenOne(stack, t), rest);
      if Bone(t) == [] {
        assert Skeleton(ts) == Skeleton(rest);
      } else {
        assert Skeleton(ts)[0] == t && Skeleton(ts)[1..] == Skeleton(rest);
      }
    }
  }

  lemma CoveredAfter(k: Marking, stack: seq<Kind>, t: Token)
    requires Covered(k, stack)
    requires k.EqualSigns? && t == Begin(k.item) ==> k.block in stack
    ensures Covered(k, OpenOne(stack, t))
  {
    var more := OpenOne(stack, t);
    if k.EqualSigns? {
      forall i | 0 <= i < |more| && more[i] == k.item ensures k.block in more[..i] {
        if i < |stack| {
          assert stack[i] == k.item && more[..i] == stack[..i];
        } else {
          assert more[..i] == stack;
        }
      }
    }
  }

  lemma MarksAreInside(k: Marking, v: View)
    requires k.Marks(v) && Covered(k, v.stack)
    ensures k.Block() in multiset(v.stack)
  {
    if k.HexComments? {
      InRuleIsOpen(HexPattern, v, true);
    } else {
      InRuleIsOpen(k.item, v, false);
      var i :| 0 <= i < |v.stack| && v.stack[i] == k.item;
      assert k.block in v.stack[..i];
    }
  }

  lemma DepthAfter(b: Kind, out: seq<Token>, t: Token)
    requires Closes(Open([], out), t)
    ensures Depth(b, out + [t]) ==
            if t == Begin(b) then Depth(b, out) + 1
            else if t == End(b) then Depth(b, out) - 1
            else Depth(b, out)
  {
    OpenSnoc(out, t);
    hide Open;
    var stack := Open([], out);
    if t.End? {
      assert stack == stack[..|stack| - 1] + [t.kind];
    }
  }

  lemma DepthUnchanged(b: Kind, out: seq<Token>, ins: seq<Token>)
    requires forall i :: 0 <= i < |ins| ==> IsMark(ins[i])
    ensures Open([], out + ins) == Open([], out)
  {
    OpenConcat([], out, ins);
    OpenUnchanged(Open([], out), ins);
  }

  /** How the marks inserted before `t`, and `t` itself, change the place. */
  lemma MarksBracket(b: Kind, p: Place, splits: bool, marks: bool, last: Token, t: Token, ins: seq<Token>)
    requires Fits(b, p, t) && Tokens.Marks(t) == []
    requires last == Begin(b) <==> p == Empty
    requires p == Outside ==> !splits && !marks
    requires Expected(b, last, t, splits, marks, ins)
    ensures
      var from := if p == Filled then Filled else Outside;
      var to := Move(b, p, t);
      && WellMarked(from, ins + [t])
      && EnterAll(from, ins + [t]) == (if to == Filled then Filled else Outside)
      && (forall i :: 0 <= i < |ins| ==> IsMark(ins[i]))
  {
    var from := if p == Filled then Filled else Outside;
    MarksEnter();
    hide EnterAll;
    hide WellMarked;
    WellMarkedConcat(from, ins, [t]);
    EnterOne(EnterAll(from, ins), t);
  }

  lemma EnterOne(p: Place, t: Token)
    ensures EnterAll(p, [t]) == Enter(p, t) && (WellMarked(p, [t]) <==> Proper(p, t))
  {
    assert [t][1..] == [];
  }

  /** Where sequences of marks lead. */
  lemma MarksEnter()
    ensures forall p :: WellMarked(p, []) && EnterAll(p, []) == p
    ensures forall p :: (WellMarked(p, MARK) <==> p != Outside) && EnterAll(p, MARK) == p
    ensures WellMarked(Outside, BEGIN_MARK) && EnterAll(Outside, BEGIN_MARK) == Empty
    ensures WellMarked(Filled, END_MARK) && EnterAll(Filled, END_MARK) == Outside
    ensures WellMarked(Outside, BEGIN_MARK + MARK) && EnterAll(Outside, BEGIN_MARK + MARK) == Empty
    ensures WellMarked(Filled, END_MARK + BEGIN_MARK) && EnterAll(Filled, END_MARK + BEGIN_MARK) == Empty
    ensures WellMarked(Filled, END_MARK + BEGIN_MARK + MARK)
    ensures EnterAll(Filled, END_MARK + BEGIN_MARK + MARK) == Empty
  {
    forall p ensures (WellMarked(p, MARK) <==> p != Outside) && EnterAll(p, MARK) == p {
      EnterOne(p, AlignmentMarker);
    }
    EnterOne(Outside, AlignmentBlockBegin);
    EnterOne(Filled, AlignmentBlockEnd);
    WellMarkedConcat(Outside, BEGIN_MARK, MARK);
    WellMarkedConcat(Filled, END_MARK, BEGIN_MARK);
    WellMarkedConcat(Filled, END_MARK + BEGIN_MARK, MARK);
  }

  lemma LookEnds(s: RuleSet, out: seq<Token>, rest: seq<Token>)
    requires rest != [] && !s.Hidden(rest[0])
    requires out != [] ==> !s.Hidden(Last(out))
    ensures
      var v := s.Look(out, rest);
      v.Tok(-1) == Last(out) && v.Tok(1) == rest[0] && v.stack == Open([], out)
  {
    LastSeen(s, out, rest);
    FirstAhead(s, out, rest);
  }

  lemma FitIsLawful(k: Marking)
    requires Fit(k.Rules(), IsMark)
    ensures k.Rules().Valid() && k.Rules().pass == NONE
  {}

  /** What is inserted before the next token, as the output and the stack show it. */
  lemma MarksAsExpected(k: Marking, p: Place, out: seq<Token>, rest: seq<Token>)
    requires Fit(k.Rules(), IsMark)
    requires rest != [] && Unmarked(rest) && Sound(k.Block(), p, out)
    requires Last(out) != NoToken || out == []
    requires Fits(k.Block(), p, rest[0]) && Closes(Open([], out), rest[0]) && Covered(k, Open([], out))
    ensures !k.Rules().Drops(k.Rules().Look(out, rest), MAX_INSERTIONS)
    ensures
      var s, t, v := k.Rules(), rest[0], k.Rules().Look(out, rest);
      && (p == Outside ==> !v.InRule(k.Block(), false) && !k.Marks(v))
      && Expected(k.Block(), Last(out), t, v.InRule(k.Block(), false), k.Marks(v), s.Inserted(v, MAX_INSERTIONS))
  {
    var s, b := k.Rules(), k.Block();
    assert Tokens.Marks(rest[0]) == [];
    FitIsLawful(k);
    var v := s.Look(out, rest);
    LookEnds(s, out, rest);
    InsertedByMarking(k, v);
    if v.InRule(b, false) { InRuleIsOpen(b, v, false); }
    if k.Marks(v) { MarksAreInside(k, v); }
  }

  /** One more token of the input keeps the output sound. */
  lemma SoundStep(k: Marking, p: Place, out: seq<Token>, rest: seq<Token>)
    requires Fit(k.Rules(), IsMark)
    requires rest != [] && Unmarked(rest) && Sound(k.Block(), p, out)
    requires Last(out) != NoToken || out == []
    requires Fits(k.Block(), p, rest[0]) && Closes(Open([], out), rest[0]) && Covered(k, Open([], out))
    ensures
      var s, t := k.Rules(), rest[0];
      var after := s.Consume(out, s.Look(out, rest), t);
      && Sound(k.Block(), Move(k.Block(), p, t), after)
      && Last(after) == t
      && Open([], after) == OpenOne(Open([], out), t)
  {
    MarksAsExpected(k, p, out, rest);
    FitIsLawful(k);
    var s, b, t := k.Rules(), k.Block(), rest[0];
    assert Tokens.Marks(t) == [];
    var v := s.Look(out, rest);
    assert s.Settles(v, MAX_INSERTIONS);
    hide Fit, Sound, Marking.Rules, Marking.Marks, Expected, Move, Fits, RuleSet.Look, RuleSet.Settles;
    SoundMarks(b, p, v.InRule(b, false), k.Marks(v), out, t, s.Inserted(v, MAX_INSERTIONS));
  }

  lemma SoundMarks(b: Kind, p: Place, splits: bool, marks: bool, out: seq<Token>, t: Token, ins: seq<Token>)
    requires Sound(b, p, out) && Fits(b, p, t) && Tokens.Marks(t) == [] && Closes(Open([], out), t)
    requires p == Outside ==> !splits && !marks
    requires Expected(b, Last(out), t, splits, marks, ins)
    ensures Sound(b, Move(b, p, t), out + ins + [t])
    ensures Open([], out + ins + [t]) == OpenOne(Open([], out), t)
  {
    MarksBracket(b, p, splits, marks, Last(out), t, ins);
    hide Expected;
    hide EnterAll;
    hide WellMarked;
    WellMarkedConcat(Outside, out, ins + [t]);
    assert out + ins + [t] == out + (ins + [t]);
    DepthUnchanged(b, out, ins);
    DepthAfter(b, out + ins, t);
    OpenSnoc(out + ins, t);
  }

  lemma RewriteNothing(s: RuleSet, out: seq<Token>)
    requires s.Valid()
    ensures s.Rewrite(out, []) == out
  {}

  lemma {:induction false} RewriteIsMarked(k: Marking, p: Place, out: seq<Token>, rest: seq<Token>)
    requires Fit(k.Rules(), IsMark)
    requires Unmarked(rest) && Sound(k.Block(), p, out) && (Last(out) != NoToken || out == [])
    requires WellBlocked(k.Block(), p, rest) && Nested(Open([], out), rest)
    requires Covered(k, Open([], out)) && ItemsInside(k, Open([], out), rest)
    ensures WellMarked(Outside, k.Rules().Rewrite(out, rest))
    decreases |rest|
  {
    hide Sound;
    hide RuleSet.Look, RuleSet.Consume, RuleSet.Rewrite, WellMarked, Fit, Last, Marking.Rules, Marking.Block, Open;
    FitIsLawful(k);
    if rest != [] {
      var s, t := k.Rules(), rest[0];
      assert Tokens.Marks(rest[0]) == [];
      SoundStep(k, p, out, rest);
      CoveredAfter(k, Open([], out), t);
      RewriteVisible(s, out, rest);
      RewriteIsMarked(k, Move(k.Block(), p, t), s.Consume(out, s.Look(out, rest), t), rest[1..]);
    } else {
      RewriteNothing(k.Rules(), out);
      SoundIsMarked(k.Block(), p, out);
    }
  }

  lemma SoundIsMarked(b: Kind, p: Place, out: seq<Token>)
    requires Sound(b, p, out)
    ensures WellMarked(Outside, out)
  {}

  /** The blocks of a grammar rule are not empty, not nested, and hold its items. */
  ghost predicate Blocks(k: Marking, ts: seq<Token>) {
    WellBlocked(k.Block(), Outside, Skeleton(ts)) && ItemsInside(k, [], Skeleton(ts))
  }

  /** Marking a stream of such blocks marks it well. */
  lemma MarkingIsProper(k: Marking, ts: seq<Token>)
    requires Fit(k.Rules(), IsMark)
    requires Unmarked(ts) && Nested([], ts) && Blocks(k, ts)
    ensures WellMarked(Outside, k.Rules().Run(ts))
    ensures Bracketed(Outside, k.Rules().Run(ts))
  {
    WellBlockedBySkeleton(k.Block(), Outside, ts);
    ItemsInsideBySkeleton(k, [], ts);
    RewriteIsMarked(k, Outside, [], ts);
    WellMarkedIsBracketed(Outside, k.Rules().Run(ts));
  }

  // ----- Aligning a marked stream takes all marks away

  lemma {:induction false} PaddedTokens(pads: seq<nat>, block: seq<Token>, t: Token)
    requires |pads| == |Columns(0, block)|
    requires t in Unmark(PadWith(pads, block))
    ensures t == Whitespace || (t in block && t != AlignmentMarker)
    decreases |block|
  {
    if block != [] {
      PadStep(pads, block);
      if block[0].AlignmentMarker? {
        if t in Unmark(PadWith(pads[1..], block[1..])) { PaddedTokens(pads[1..], block[1..], t); }
      } else if t != block[0] {
        PaddedTokens(pads, block[1..], t);
      }
    }
  }

  lemma {:induction false} MarkedBlock(p: Place, ts: seq<Token>)
    requires p != Outside && WellMarked(p, ts)
    ensures AlignmentBlockBegin !in Alignment.Block(ts) && AlignmentBlockEnd !in Alignment.Block(ts)
    ensures forall t :: t in Alignment.Block(ts) ==> t in ts
    ensures forall t :: t in AfterBlock(ts) ==> t in ts
    ensures WellMarked(Outside, AfterBlock(ts))
    decreases |ts|
  {
    if ts != [] && ts[0] != AlignmentBlockEnd {
      MarkedBlock(Enter(p, ts[0]), ts[1..]);
    }
  }

  lemma {:induction false} AligningUnmarks(ts: seq<Token>, t: Token)
    requires WellMarked(Outside, ts) && NoToken !in ts
    requires t in Alignment.Flow(ts)
    ensures Tokens.Marks(t) == []
    decreases |ts|
  {
    if ts[0] == AlignmentBlockBegin {
      var rest := ts[1..];
      MarkedBlock(Empty, rest);
      var block, after := Alignment.Block(rest), AfterBlock(rest);
      if t in Alignment.Flow(after) {
        AligningUnmarks(after, t);
      } else {
        var columns := Columns(0, block);
        PaddedTokens(Lacking(Max(columns), columns), block, t);
      }
    } else if t != ts[0] {
      AligningUnmarks(ts[1..], t);
    }
  }

  function Holes(t: Token): seq<Token> {
    if t.NoToken? then [t] else []
  }

  /** Marking and aligning leaves a stream without marks. */
  lemma AlignedIsUnmarked(k: Marking, ts: seq<Token>)
    requires Fit(k.Rules(), IsMark)
    requires Unmarked(ts) && Nested([], ts) && Blocks(k, ts)
    ensures Unmarked(Alignment.Flow(k.Rules().Run(ts)))
  {
    var out := k.Rules().Run(ts);
    MarkingIsProper(k, ts);
    assert Harmless(k.Rules(), Holes);
    RewritePreserves(k.Rules(), Holes, [], ts);
    FlatMapNothing(Holes, ts);
    NothingMapped(Holes, out);
    forall i | 0 <= i < |Alignment.Flow(out)| ensures Tokens.Marks(Alignment.Flow(out)[i]) == [] {
      AligningUnmarks(out, Alignment.Flow(out)[i]);
    }
  }
}
