/**
 The marks of hex comments: no line has two of them, so the alignment puts all
 the marks of a hex pattern at one column, as the alignment counts columns.
 */
module HexMarks {
  import opened Seqs
  import opened Tokens
  import opened Processors
  import opened Preservation
  import opened RuleSets
  import opened RuleEffects
  import opened BlockMarkers
  import opened Formatter
  import opened LineEnds
  import opened WordSpacing
  import Alignment
  import Comments

  // ----- A mark is followed by what it marks

  /** What a marking marks: comments at the end of a line, or equal signs. */
  predicate IsItem(k: Marking, t: Token) { if k.HexComments? then t.TailComment? else t == EQUAL }

  function MarkBefore(k: Marking): Condition {
    (v: View) => v.Tok(-1) == AlignmentMarker ==> IsItem(k, v.Tok(1))
  }

  /** The next token is no mark. */
  predicate NoMarkNext(ahead: seq<Token>) { ahead != [] ==> ahead[0] != AlignmentMarker }

  lemma MarkersCopy(k: Marking)
    ensures CopyKeeps(k.Rules(), NoMarkNext, MarkBefore(k), MarkBefore(k))
  {
    hide NoneApplies, IsItem, Marking.Rules;
  }

  /** What a marking rule inserts, and where. */
  lemma MarkingRule(k: Marking, i: nat, v: View)
    requires i < |k.Rules().rules| && k.Rules().rules[i].cond(v)
    ensures
      var ts := k.Rules().rules[i].action.tokens;
      && k.Rules().rules[i].action.Insert?
      && (ts == [AlignmentBlockBegin] || ts == [AlignmentBlockEnd] || ts == [AlignmentBlockEnd, AlignmentBlockBegin]
          || (ts == [AlignmentMarker] && v.Tok(-1) != AlignmentMarker && IsItem(k, v.Tok(1))))
      && (v.Tok(-1) == AlignmentMarker ==> v.Tok(1).End?)
  {
    hide View.InRule;
  }

  lemma MarkersKeep(k: Marking, i: nat)
    requires i < |k.Rules().rules|
    ensures Keeps(k.Rules(), MarkBefore(k), MarkBefore(k), i)
  {
    var s, ok := k.Rules(), MarkBefore(k);
    RuleInserts(k, i);
    var ts := s.rules[i].action.tokens;
    hide Marking.Rules;
    forall v: View | ok(v) && Applies(s, i, v) ensures ok(s.After(v, ts)) && OkAll(s, ok, v.prev, v.stack, ts) {
      MarkingRule(k, i, v);
      InsertedMarks(k, s, v, ts);
    }
  }

  lemma RuleInserts(k: Marking, i: nat)
    requires i < |k.Rules().rules|
    ensures k.Rules().rules[i].action.Insert?
  {}

  lemma InsertedMarks(k: Marking, s: RuleSet, v: View, ts: seq<Token>)
    requires MarkBefore(k)(v) && (v.Tok(-1) == AlignmentMarker ==> v.Tok(1).End?)
    requires ts == [AlignmentBlockBegin] || ts == [AlignmentBlockEnd] || ts == [AlignmentBlockEnd, AlignmentBlockBegin]
          || (ts == [AlignmentMarker] && v.Tok(-1) != AlignmentMarker && IsItem(k, v.Tok(1)))
    ensures MarkBefore(k)(s.After(v, ts)) && OkAll(s, MarkBefore(k), v.prev, v.stack, ts)
  {
    assert s.After(v, ts).Tok(1) == v.Tok(1);
    if |ts| == 1 {
      AfterOne(s, v, ts[0]);
      assert ts == [ts[0]] && ts[1..] == [];
    } else {
      AfterTwo(s, v, ts[0], ts[1]);
      assert ts[1..] == [AlignmentBlockBegin] && ts[1..][1..] == [];
    }
  }

  lemma MarkersObey(k: Marking, ts: seq<Token>)
    requires Unmarked(ts) && Fit(k.Rules(), IsMark)
    ensures Obeys(k.Rules(), MarkBefore(k), k.Rules().Run(ts))
  {
    MarkersCopy(k);
    forall i: nat | i < |k.Rules().rules|
        ensures Keeps(k.Rules(), MarkBefore(k), MarkBefore(k), i) { MarkersKeep(k, i); }
    NoMarksAhead(k.Rules(), ts);
    hide Keeps, CopyKeeps, MarkBefore, NoMarkNext, AllAhead, Marking.Rules;
    AchievesByInvariant(k.Rules(), NoMarkNext, MarkBefore(k), MarkBefore(k));
    RunObeysOn(k.Rules(), NoMarkNext, MarkBefore(k), MarkBefore(k), ts);
  }

  lemma {:induction false} VisibleIsUnmarked(s: RuleSet, ts: seq<Token>)
    requires Unmarked(ts)
    ensures Unmarked(s.Visible(ts))
    decreases |ts|
  {
    if ts != [] {
      assert Tokens.Marks(ts[0]) == [];
      VisibleIsUnmarked(s, ts[1..]);
    }
  }

  lemma NoMarksAhead(s: RuleSet, ts: seq<Token>)
    requires Unmarked(ts)
    ensures AllAhead(s, NoMarkNext, ts)
  {
    forall i | 0 <= i <= |ts| ensures NoMarkNext(s.Ahead(ts[i..])) {
      VisibleIsUnmarked(s, ts[i..]);
      var visible := s.Visible(ts[i..]);
      assert visible != [] ==> Tokens.Marks(visible[0]) == [];
    }
  }

  /** What is marked comes right after each mark. */
  predicate ItemsNext(k: Marking, marked: bool, ts: seq<Token>)
    decreases |ts|
  {
    ts == [] ||
    if ts[0].NoToken? then ItemsNext(k, marked, ts[1..])
    else (marked ==> IsItem(k, ts[0])) && ItemsNext(k, ts[0].AlignmentMarker?, ts[1..])
  }

  function EndsMarked(marked: bool, ts: seq<Token>): bool
    decreases |ts|
  {
    if ts == [] then marked
    else EndsMarked(if ts[0].NoToken? then marked else ts[0].AlignmentMarker?, ts[1..])
  }

  lemma {:induction false} ItemsNextSnoc(k: Marking, marked: bool, ts: seq<Token>, t: Token)
    ensures ItemsNext(k, marked, ts + [t]) <==>
            ItemsNext(k, marked, ts) && (EndsMarked(marked, ts) && !t.NoToken? ==> IsItem(k, t))
    ensures EndsMarked(marked, ts + [t]) == if t.NoToken? then EndsMarked(marked, ts) else t.AlignmentMarker?
    decreases |ts|
  {
    hide IsItem;
    if ts == [] {
      assert ts + [t] == [t] && [t][1..] == [];
    } else {
      assert (ts + [t])[0] == ts[0] && (ts + [t])[1..] == ts[1..] + [t];
      ItemsNextSnoc(k, if ts[0].NoToken? then marked else ts[0].AlignmentMarker?, ts[1..], t);
    }
  }

  lemma {:induction false} ObeyedItemsNext(k: Marking, s: RuleSet, out: seq<Token>)
    requires s.pass == NONE && Obeys(s, MarkBefore(k), out)
    ensures ItemsNext(k, false, out)
    ensures EndsMarked(false, out) == (s.Recent(out) != [] && s.Recent(out)[0] == AlignmentMarker)
    decreases |out|
  {
    if out != [] {
      var init, t := out[..|out| - 1], out[|out| - 1];
      assert out == init + [t];
      ObeyedItemsNext(k, s, init);
      RecentSnoc(s, init, t);
      assert !s.Hidden(t) ==> MarkBefore(k)(View(s.Recent(init), [t], Open([], init)));
      hide RuleSet.Recent, ItemsNext, EndsMarked, Obeys, Open, MarkBefore;
      ItemsNextSnoc(k, false, init, t);
      AfterMark(k, s.Recent(init), t, Open([], init));
    }
  }

  lemma AfterMark(k: Marking, recent: seq<Token>, t: Token, stack: seq<Kind>)
    ensures MarkBefore(k)(View(recent, [t], stack)) && recent != [] && recent[0] == AlignmentMarker ==> IsItem(k, t)
  {}

  lemma RulesSeeAll(k: Marking)
    ensures k.Rules().pass == NONE
  {}

  /** In a marked stream each mark is followed by what it marks. */
  lemma MarksAreFollowed(k: Marking, ts: seq<Token>)
    requires Unmarked(ts) && Fit(k.Rules(), IsMark)
    ensures ItemsNext(k, false, k.Rules().Run(ts))
  {
    RulesSeeAll(k);
    hide Marking.Rules, Obeys, ItemsNext;
    MarkersObey(k, ts);
    ObeyedItemsNext(k, k.Rules(), k.Rules().Run(ts));
  }

  // ----- One mark on each line

  /** After a tail comment no mark comes before the next newline. */
  lemma {:induction false} NoMarkAfterTail(ts: seq<Token>)
    requires LinesEnd(true, ts) && ItemsNext(HexComments, false, ts) && !EndsMarked(false, ts)
    ensures !Alignment.MarkerOnLine(ts)
    decreases |ts|
  {
    if ts != [] && !ts[0].Newline? {
      if ts[0].AlignmentMarker? {
        MarkNeedsTail(ts[1..]);
      } else {
        NoMarkAfterTail(ts[1..]);
      }
    }
  }

  /** Before the newline that ends the line of a tail comment there is no mark, as its comment does not fit. */
  lemma {:induction false} MarkNeedsTail(ts: seq<Token>)
    requires LinesEnd(true, ts) && ItemsNext(HexComments, true, ts)
    ensures EndsMarked(true, ts)
    decreases |ts|
  {
    if ts != [] {
      MarkNeedsTail(ts[1..]);
    }
  }

  lemma {:induction false} OneMarkPerLine(open: bool, marked: bool, ts: seq<Token>)
    requires LinesEnd(open, ts) && ItemsNext(HexComments, marked, ts) && !EndsMarked(marked, ts)
    ensures Alignment.OnePerLine(ts)
    ensures marked ==> !Alignment.MarkerOnLine(ts)
    decreases |ts|
  {
    if ts != [] {
      var t := ts[0];
      OneMarkPerLine(Needed(open, t), if t.NoToken? then marked else t.AlignmentMarker?, ts[1..]);
      if marked && t.TailComment? {
        NoMarkAfterTail(ts[1..]);
      }
    }
  }

  // ----- The output of the marking rules

  lemma NoneDropped(v: View, n: nat)
    requires HexCommentMarkers().Settles(v, n)
    ensures !HexCommentMarkers().Drops(v, n)
    decreases n
  {
    var s := HexCommentMarkers();
    MatchComesFromRules(s, 0, v);
    assert !s.Match(v).Drop?;
    hide HexCommentMarkers;
    if s.Match(v).Insert? {
      NoneDropped(s.After(v, s.Match(v).tokens), n - 1);
    }
  }

  /** The last token stays the last one. */
  lemma {:induction false} LastStays(out: seq<Token>, rest: seq<Token>)
    requires HexCommentMarkers().Valid() && Unmarked(rest) && rest != []
    ensures
      var all := HexCommentMarkers().Rewrite(out, rest);
      all != [] && all[|all| - 1] == rest[|rest| - 1]
    decreases |rest|
  {
    var s, t := HexCommentMarkers(), rest[0];
    assert Tokens.Marks(t) == [] && !s.Hidden(t) && Unmarked(rest[1..]);
    var v := s.Look(out, rest);
    assert s.Settles(v, MAX_INSERTIONS);
    NoneDropped(v, MAX_INSERTIONS);
    hide HexCommentMarkers, RuleSet.Look, RuleSet.Hidden, Unmarked;
    RewriteVisible(s, out, rest);
    if |rest| > 1 {
      LastStays(s.Consume(out, v, t), rest[1..]);
    }
  }

  lemma {:induction false} EndsAsItsLast(ts: seq<Token>)
    requires ts != [] && !ts[|ts| - 1].NoToken? && !ts[|ts| - 1].AlignmentMarker?
    ensures !EndsMarked(false, ts)
  {
    var init, t := ts[..|ts| - 1], ts[|ts| - 1];
    assert ts == init + [t];
    ItemsNextSnoc(HexComments, false, init, t);
  }

  lemma LastIsUnmarked(ts: seq<Token>)
    requires Unmarked(ts) && ts != []
    ensures !ts[|ts| - 1].NoToken? && !ts[|ts| - 1].AlignmentMarker?
  {
    assert Tokens.Marks(ts[|ts| - 1]) == [];
  }

  lemma MarkedEndsUnmarked(ts: seq<Token>)
    requires Unmarked(ts) && HexCommentMarkers().Valid()
    ensures !EndsMarked(false, HexCommentMarkers().Run(ts))
  {
    hide Unmarked, HexCommentMarkers, EndsMarked, RuleSet.Run;
    if ts == [] {
      NothingToMark(ts);
    } else {
      LastOfRun(ts);
      LastIsUnmarked(ts);
      EndsAsItsLast(HexCommentMarkers().Run(ts));
    }
  }

  lemma NothingToMark(ts: seq<Token>)
    requires ts == [] && HexCommentMarkers().Valid()
    ensures !EndsMarked(false, HexCommentMarkers().Run(ts))
  {
    hide HexCommentMarkers;
  }

  lemma LastOfRun(ts: seq<Token>)
    requires HexCommentMarkers().Valid() && Unmarked(ts) && ts != []
    ensures
      var all := HexCommentMarkers().Run(ts);
      all != [] && all[|all| - 1] == ts[|ts| - 1]
  {
    hide HexCommentMarkers, Unmarked, RuleSet.Rewrite;
    LastStays([], ts);
  }

  /** If every tail comment ends its line, no line of the marked stream has two marks. */
  lemma HexMarksAreAlone(ts: seq<Token>)
    requires Unmarked(ts) && LinesEnd(false, ts)
    ensures HexCommentMarkers().Valid() && Alignment.OnePerLine(HexCommentMarkers().Run(ts))
  {
    HexCommentMarkersFit();
    WriteIgnoresBlanks();
    var out := HexCommentMarkers().Run(ts);
    MarksSayNothing(HexComments, Write);
    assert HexComments.Rules() == HexCommentMarkers();
    MarksAreFollowed(HexComments, ts);
    MarkedEndsUnmarked(ts);
    LinesEndByWritten(false, ts);
    LinesEndByWritten(false, out);
    hide HexCommentMarkers, LinesEnd, ItemsNext, EndsMarked, FlatMap, Unmarked, Obeys;
    RewritePreserves(HexCommentMarkers(), Write, [], ts);
    FlatMapNothing(Write, []);
    var all := FlatMap(Write, ts);
    assert [] + all == all;
    OneMarkPerLine(false, false, out);
  }

  // ----- In the pipeline

  lemma {:induction false} MarkerInBlock(ts: seq<Token>)
    requires Alignment.MarkerOnLine(Alignment.Block(ts))
    ensures Alignment.MarkerOnLine(ts)
    decreases |ts|
  {
    assert Alignment.Block(ts)[1..] == Alignment.Block(ts[1..]);
    if !ts[0].AlignmentMarker? {
      MarkerInBlock(ts[1..]);
    }
  }

  lemma {:induction false} OnePerLineInBlock(ts: seq<Token>)
    requires Alignment.OnePerLine(ts)
    ensures Alignment.OnePerLine(Alignment.Block(ts))
    decreases |ts|
  {
    if ts != [] && ts[0] != AlignmentBlockEnd {
      OnePerLineInBlock(ts[1..]);
      assert Alignment.Block(ts)[1..] == Alignment.Block(ts[1..]);
      if Alignment.MarkerOnLine(Alignment.Block(ts[1..])) {
        MarkerInBlock(ts[1..]);
      }
    }
  }

  lemma {:induction false} OnePerLineAfter(ts: seq<Token>, i: nat)
    requires Alignment.OnePerLine(ts) && i <= |ts|
    ensures Alignment.OnePerLine(ts[i..])
    decreases i
  {
    if i == 0 {
      assert ts[0..] == ts;
    } else {
      OnePerLineAfter(ts[1..], i - 1);
      assert ts[1..][i - 1..] == ts[i..];
    }
  }

  /** The stream with the marks of the hex comments, as the pipeline makes it. */
  ghost function MarkedHexComments(o: Options, ts: seq<Token>): seq<Token> {
    MarkersAreValid();
    HexCommentMarkers().Run(Spaced(o, ts))
  }

  /** The stream to which the first alignment is applied. */
  ghost function Spaced(o: Options, ts: seq<Token>): seq<Token> {
    NewlineAfterCommentsFit();
    SpacingFit();
    Spacing().Run(NewlineAfterComments().Run(Early(o, ts)))
  }

  lemma MarkersAreValid()
    ensures HexCommentMarkers().Valid()
  {
    HexCommentMarkersFit();
  }

  lemma SpacedLinesEnd(o: Options, ts: seq<Token>)
    ensures LinesEnd(false, Spaced(o, ts))
  {
    NewlineAfterCommentsFit();
    SpacingFit();
    var early := Early(o, ts);
    CommentsEndLines(early);
    var ended := NewlineAfterComments().Run(early);
    ObeyedLinesEnd(NewlineAfterComments(), ended);
    WriteIgnoresBlanks();
    SpacingSays(Write);
    hide NewlineAfterComments, Spacing, FlatMap, Fit, Obeys, LinesEnd, Early;
    RewritePreserves(Spacing(), Write, [], ended);
    FlatMapNothing(Write, []);
    var all := FlatMap(Write, ended);
    assert [] + all == all;
    LinesEndByWritten(false, ended);
    LinesEndByWritten(false, Spacing().Run(ended));
  }

  lemma EarlyIsReady(o: Options, ts: seq<Token>)
    requires Source(ts)
    ensures Ready(Early(o, ts))
  {
    PipelineOk(o);
    NewlineStagesOk(o);
    IndentationStagesOk(o);
    FirstTwoKeep(o, ts);
    NoCommentsEarly(o);
    hide Source, Ready, SameProgram, StageOk, NewlineStages, IndentationStages;
    StagesKeep(NewlineStages(o) + IndentationStages(o), Comments.Run(o.tabSize, StatementLines().Run(ts)));
  }

  lemma SpacedIsReady(o: Options, ts: seq<Token>)
    requires Source(ts)
    ensures Ready(Spaced(o, ts))
  {
    NewlineAfterCommentsFit();
    SpacingFit();
    EarlyIsReady(o, ts);
    hide Ready, SameProgram, NewlineAfterComments, Spacing, Fit, Early;
    RulesKeep(NewlineAfterComments(), Early(o, ts));
    RulesKeep(Spacing(), NewlineAfterComments().Run(Early(o, ts)));
  }

  /**
   In the pipeline no line has two marks of hex comments, so in every block,
   from wherever it begins, all marks are aligned to the largest of their
   columns, as the alignment counts columns.
   */
  lemma HexCommentsAreAligned(o: Options, ts: seq<Token>, i: nat)
    requires Source(ts) && i <= |MarkedHexComments(o, ts)|
    ensures
      var block := Alignment.Block(MarkedHexComments(o, ts)[i..]);
      && Alignment.OnePerLine(block)
      && Alignment.AllAt(Alignment.Max(Alignment.Columns(0, block)), Alignment.Columns(0, Alignment.Aligned(block)))
  {
    MarkersAreValid();
    SpacedIsReady(o, ts);
    assert Unmarked(Spaced(o, ts));
    SpacedLinesEnd(o, ts);
    HexMarksAreAlone(Spaced(o, ts));
    hide Spaced, HexCommentMarkers, Source, Ready, LinesEnd;
    var all := MarkedHexComments(o, ts);
    OnePerLineAfter(all, i);
    OnePerLineInBlock(all[i..]);
    var block := Alignment.Block(all[i..]);
    Alignment.OnePerLineIsStraight(Alignment.Max(Alignment.Columns(0, block)), 0, block);
    Alignment.MarkersAligned(block);
  }
}
