/**
 The indentation of the formatted program. Every line that starts with text has
 the margin of the number of blocks around that text, which depends on the
 program only, not on how it was laid out.
 */
module LineLevels {
  import opened Seqs
  import opened Tokens
  import opened Processors
  import opened Preservation
  import BlockMarkers
  import opened RuleSets
  import opened Formatter
  import opened WordSpacing
  import opened AddingIndentation
  import opened Levels
  import Alignment
  import Bubbles
  import Comments
  import HexMarks
  import HexPatterns
  import LineEnds
  import PipelineColumns
  import TrailingSpaces

  // ----- What the level of text depends on

  /** Text, ends of grammar rules and changes of the level. */
  function Frame(t: Token): seq<Token> {
    if Bone(t) != [] || t.Indentation? then [t] else []
  }

  function Lift(t: Token): seq<Token> { if t.Indentation? then [t] else [] }

  lemma {:induction false} LeveledByFrame(bs: seq<Block>, d: int, stack: seq<Kind>, ts: seq<Token>)
    ensures Leveled(bs, d, stack, ts) <==> Leveled(bs, d, stack, FlatMap(Frame, ts))
    ensures Ends(bs, d, stack, ts) == Ends(bs, d, stack, FlatMap(Frame, ts))
    decreases |ts|
  {
    if ts != [] {
      var t, rest := ts[0], ts[1..];
      var frames := FlatMap(Frame, rest);
      FlatMapCons(Frame, ts);
      EndsCons(bs, d, stack, ts);
      if Frame(t) == [] {
        NothingOpened(bs, stack, t);
        assert [] + frames == frames;
        LeveledByFrame(bs, d, stack, rest);
      } else {
        hide Frame, Ends, Passed, OpenOne, Stands;
        LeveledByFrame(bs, Passed(bs, d, stack, t), OpenOne(stack, t), rest);
        assert ([t] + frames)[1..] == frames;
        EndsCons(bs, d, stack, [t] + frames);
      }
    }
  }

  /** Only the skeleton matters for the depth. */
  lemma {:induction false} DepthOfSkeleton(bs: seq<Block>, stack: seq<Kind>, ts: seq<Token>)
    ensures Depth(bs, stack, Skeleton(ts)) == Depth(bs, stack, ts)
    decreases |ts|
  {
    if ts != [] {
      var t, rest := ts[0], ts[1..];
      var bones := Skeleton(rest);
      FlatMapCons(Bone, ts);
      if Bone(t) == [] {
        NothingOpened(bs, stack, t);
        assert [] + bones == bones;
        DepthOfSkeleton(bs, stack, rest);
      } else {
        hide Opened, Closed, OpenOne;
        DepthOfSkeleton(bs, OpenOne(stack, t), rest);
        assert ([t] + bones)[1..] == bones;
      }
    }
  }

  /** Only the skeleton matters for whether the blocks are sane. */
  lemma {:induction false} SaneOfSkeleton(s: Spot, u: Spot, ts: seq<Token>)
    requires s.stack == u.stack && s.open == u.open
    ensures Sane(s, ts) <==> Sane(u, Skeleton(ts))
    decreases |ts|
  {
    if ts != [] {
      var t, rest := ts[0], ts[1..];
      var bones := Skeleton(rest);
      FlatMapCons(Bone, ts);
      if Bone(t) == [] {
        NotInSkeleton(s, t);
        assert [] + bones == bones;
        hide Block.Closes, Move;
        SaneOfSkeleton(Move(s, t), u, rest);
      } else {
        assert Move(s, t).stack == Move(u, t).stack && Move(s, t).open == Move(u, t).open;
        hide Block.Closes, Move;
        SaneOfSkeleton(Move(s, t), Move(u, t), rest);
        assert ([t] + bones)[1..] == bones;
      }
    }
  }

  lemma NotInSkeleton(s: Spot, t: Token)
    requires Bone(t) == []
    ensures !t.End? && !Body.Closes(s.stack, t)
    ensures Move(s, t).stack == s.stack && Move(s, t).open == s.open
  {}

  // ----- Stages that leave the levels alone

  /** A projection that ignores spacing, comments and marks. */
  ghost predicate IgnoresSpacing(f: Token -> seq<Token>) {
    forall t: Token :: Bone(t) == [] && !t.Indentation? ==> f(t) == []
  }

  lemma FramesIgnoreSpacing()
    ensures IgnoresSpacing(Frame) && IgnoresSpacing(Lift) && IgnoresSpacing(Bone)
  {}

  /** Rules that insert only spacing. */
  ghost predicate OnlySpacing(s: RuleSet) {
    && Fit(s, IsPlain)
    && forall i, j :: 0 <= i < |s.rules| && s.rules[i].action.Insert? && 0 <= j < |s.rules[i].action.tokens| ==>
         IsSpacing(s.rules[i].action.tokens[j])
  }

  lemma SpacingSaysNothing(s: RuleSet, f: Token -> seq<Token>)
    requires OnlySpacing(s) && IgnoresSpacing(f)
    ensures s.Valid() && Harmless(s, f)
  {
    SpacingIsIgnored(f);
    hide IgnoresSpacing, IsSpacing;
  }

  lemma SpacingIsIgnored(f: Token -> seq<Token>)
    requires IgnoresSpacing(f)
    ensures forall t: Token :: IsSpacing(t) ==> f(t) == []
  {}

  lemma MarksAreIgnored(k: BlockMarkers.Marking, f: Token -> seq<Token>)
    requires Fit(k.Rules(), IsMark) && IgnoresSpacing(f)
    ensures k.Rules().Valid() && Harmless(k.Rules(), f)
  {}

  ghost predicate IsQuiet(st: Stage) {
    match st
    case ApplyRules(s) => OnlySpacing(s)
    case Reorder(m) => m == TAILS_UP || m == ENDS_UP || m == INDENTATION_UP
    case LayoutHexPatterns => true
    case AlignBlocks(_) => true
    case _ => false
  }

  lemma WaterOrAirIsIgnored(m: Bubbles.Medium, f: Token -> seq<Token>)
    requires (m == TAILS_UP || m == ENDS_UP || m == INDENTATION_UP) && IgnoresSpacing(f)
    ensures (forall t :: m.water(t) ==> f(t) == []) || (forall t :: m.air(t) ==> f(t) == [])
  {}

  lemma RulesSee(s: RuleSet, f: Token -> seq<Token>, ts: seq<Token>)
    requires s.Valid() && Harmless(s, f)
    ensures FlatMap(f, s.Run(ts)) == FlatMap(f, ts)
  {
    hide RuleSet.Rewrite, FlatMap, RuleSet.Valid, Harmless;
    RewritePreserves(s, f, [], ts);
    FlatMapNothing(f, []);
    var all := FlatMap(f, ts);
    assert [] + all == all;
  }

  lemma QuietStageSees(st: Stage, f: Token -> seq<Token>, ts: seq<Token>)
    requires StageOk(st) && IsQuiet(st) && IgnoresSpacing(f)
    ensures FlatMap(f, Apply(st, ts)) == FlatMap(f, ts)
  {
    hide FlatMap, Fit, OnlySpacing, RuleSet.Run, RuleSet.Valid, Harmless, Alignment.Flow;
    match st
    case ApplyRules(s) =>
      SpacingSaysNothing(s, f);
      RulesSee(s, f, ts);
    case Reorder(m) => ReorderSees(m, f, ts);
    case LayoutHexPatterns => LayoutSees(f, ts);
    case AlignBlocks(k) =>
      MarksAreIgnored(k, f);
      RulesSee(k.Rules(), f, ts);
      Alignment.FlowPreserves(f, k.Rules().Run(ts));
    case _ =>
  }

  lemma ReorderSees(m: Bubbles.Medium, f: Token -> seq<Token>, ts: seq<Token>)
    requires m == TAILS_UP || m == ENDS_UP || m == INDENTATION_UP
    requires IgnoresSpacing(f)
    ensures FlatMap(f, m.Flow([], ts)) == FlatMap(f, ts)
  {
    hide FlatMap;
    FlatMapNothing(f, []);
    var all := FlatMap(f, ts);
    assert [] + all == all;
    WaterOrAirIsIgnored(m, f);
    Bubbles.FlowPreserves(m, f, [], ts);
  }

  lemma LayoutSees(f: Token -> seq<Token>, ts: seq<Token>)
    requires IgnoresSpacing(f)
    ensures FlatMap(f, HexPatterns.Flow(HexPatterns.START, [], ts)) == FlatMap(f, ts)
  {
    hide FlatMap;
    FlatMapNothing(f, []);
    var all := FlatMap(f, ts);
    assert [] + all == all;
    HexPatterns.FlowPreserves(f, HexPatterns.START, [], ts);
  }

  ghost predicate AllQuiet(stages: seq<Stage>) { forall i :: 0 <= i < |stages| ==> IsQuiet(stages[i]) }

  lemma {:induction false} QuietStagesSee(stages: seq<Stage>, f: Token -> seq<Token>, ts: seq<Token>)
    requires AllOk(stages) && AllQuiet(stages) && IgnoresSpacing(f)
    ensures FlatMap(f, ApplyAll(stages, ts)) == FlatMap(f, ts)
    decreases |stages|
  {
    hide StageOk, IsQuiet, IgnoresSpacing, FlatMap;
    if stages != [] {
      QuietStageSees(stages[0], f, ts);
      QuietStagesSee(stages[1..], f, Apply(stages[0], ts));
    }
  }

  lemma NewlineRulesAreSpacing()
    ensures OnlySpacing(StatementLines()) && OnlySpacing(NoWhitespace()) && OnlySpacing(FewerNewlines())
    ensures OnlySpacing(BraceOnOwnLine()) && OnlySpacing(BraceOnSameLine()) && OnlySpacing(EmptyLineBeforeRule())
    ensures OnlySpacing(NewlineAfterComments()) && OnlySpacing(RequiredNewlines())
  {
    StatementLinesFit();
    NoWhitespaceFit();
    FewerNewlinesFit();
    BraceOnOwnLineFit();
    BraceOnSameLineFit();
    EmptyLineBeforeRuleFit();
    NewlineAfterCommentsFit();
    RequiredNewlinesFit();
    hide Fit;
  }

  lemma HeaderRulesAreSpacing()
    ensures OnlySpacing(EmptyLineBeforeHeader()) && OnlySpacing(NewlineBeforeHeader())
    ensures OnlySpacing(NoEmptyLineBeforeFirstHeader())
    ensures OnlySpacing(EmptyLineAfterHeader()) && OnlySpacing(NewlineAfterHeader())
    ensures OnlySpacing(Spacing())
  {
    EmptyLineBeforeHeaderFit();
    NewlineBeforeHeaderFit();
    NoEmptyLineBeforeFirstHeaderFit();
    EmptyLineAfterHeaderFit();
    NewlineAfterHeaderFit();
    SpacingFit();
    hide Fit;
  }

  lemma NewlineStagesAreQuiet(o: Options)
    ensures AllQuiet(NewlineStages(o))
  {
    NewlineRulesAreSpacing();
    HeaderRulesAreSpacing();
    hide OnlySpacing;
  }

  lemma {:induction false} AlignsAreQuiet(ks: seq<BlockMarkers.Marking>)
    ensures AllQuiet(PipelineColumns.Aligns(ks))
  {
    if ks != [] {
      AlignsAreQuiet(ks[1..]);
    }
  }

  lemma CommentsAreSeen(f: Token -> seq<Token>)
    requires IgnoresSpacing(f)
    ensures Comments.Sees(f, Comments.NoItems)
  {
    LinesAreIgnored(f);
    hide Comments.SeesLines, Comments.Split;
  }

  lemma LinesAreIgnored(f: Token -> seq<Token>)
    requires IgnoresSpacing(f)
    ensures Comments.SeesLines(f, Comments.NoItems)
  {}

  // ----- The first stages

  /** What the rule sets for indentation are applied to. */
  ghost function Broken(o: Options, ts: seq<Token>): seq<Token> {
    PipelineOk(o);
    NewlineStagesOk(o);
    ApplyAll(NewlineStages(o), Comments.Run(o.tabSize, StatementLines().Run(ts)))
  }

  lemma BrokenSees(o: Options, f: Token -> seq<Token>, ts: seq<Token>)
    requires Source(ts) && IgnoresSpacing(f)
    ensures FlatMap(f, Broken(o, ts)) == FlatMap(f, ts)
  {
    PipelineOk(o);
    NewlineStagesOk(o);
    NewlineStagesAreQuiet(o);
    NewlineRulesAreSpacing();
    SpacingSaysNothing(StatementLines(), f);
    CommentsAreSeen(f);
    hide OnlySpacing, IgnoresSpacing, FlatMap, StageOk, NewlineStages, AllQuiet, Comments.Sees, StatementLines,
      RuleSet.Run, Source;
    FlatMapNothing(f, []);
    var all := FlatMap(f, ts);
    assert [] + all == all;
    RulesSee(StatementLines(), f, ts);
    StatementsAreRaw(ts);
    var statements := StatementLines().Run(ts);
    Comments.FlowPreserves(f, Comments.NoItems, o.tabSize, true, 0, [], statements);
    QuietStagesSee(NewlineStages(o), f, Comments.Run(o.tabSize, statements));
  }

  lemma StatementsAreRaw(ts: seq<Token>)
    requires Source(ts) && StatementLines().Valid()
    ensures Comments.RawComments(StatementLines().Run(ts))
  {
    StatementLinesFit();
    NothingOddInserted();
    CommentsStayRaw(StatementLines(), ts);
  }

  lemma BrokenIsReady(o: Options, ts: seq<Token>)
    requires Source(ts)
    ensures Ready(Broken(o, ts)) && Skeleton(Broken(o, ts)) == Skeleton(ts)
  {
    PipelineOk(o);
    NewlineStagesOk(o);
    assert NoComments(NewlineStages(o));
    FramesIgnoreSpacing();
    BrokenSees(o, Bone, ts);
    hide NewlineStages, StageOk, Ready;
    FirstTwoKeep(o, ts);
    StagesKeep(NewlineStages(o), Comments.Run(o.tabSize, StatementLines().Run(ts)));
  }

  // ----- The rule sets for indentation, one after the other

  function LevelStages(bs: seq<Block>): seq<Stage> {
    if bs == [] then [] else [ApplyRules(bs[0].Rules())] + LevelStages(bs[1..])
  }

  lemma {:induction false} LevelStagesOk(bs: seq<Block>)
    ensures AllOk(LevelStages(bs)) && NoComments(LevelStages(bs))
    decreases |bs|
  {
    hide Fit, Block.Rules;
    if bs != [] {
      RulesFit(bs[0]);
      LevelStagesOk(bs[1..]);
    }
  }

  /** The blocks that the options ask for, in the order of their rule sets. */
  function Chosen(o: Options): seq<Block> {
    (if o.indentSectionHeaders then [Body] else []) + (if o.indentSectionContents then [Sections] else [])
    + [Hex, Parens, With]
  }

  predicate Distinct(bs: seq<Block>) { forall i, j :: 0 <= i < j < |bs| ==> bs[i] != bs[j] }

  lemma BlocksAreDistinct(o: Options)
    ensures Distinct(Chosen(o))
  {}

  /** The start of a program: nothing is indented. */
  lemma {:induction false} NothingIndented(d: int, s: Spot, ts: seq<Token>)
    requires forall i :: 0 <= i < |ts| ==> !ts[i].Indentation?
    requires !s.last.Indentation?
    ensures Lowered([], s, ts) && Leveled([], 0, s.stack, ts) && Ends([], d, s.stack, ts) == d
    decreases |ts|
  {
    if ts != [] {
      EndsCons([], d, s.stack, ts);
      assert !ts[0].Indentation?;
      hide Ends, OpenOne;
      NothingIndented(d, Move(s, ts[0]), ts[1..]);
    }
  }

  lemma {:induction false} BlocksLevel(done: seq<Block>, bs: seq<Block>, ts: seq<Token>, k: seq<Token>)
    requires AllOk(LevelStages(bs)) && Distinct(done + bs) && Ready(ts) && Skeleton(ts) == k
    requires Sane(START, k) && Open([], k) == [] && Finished(done, 0, ts)
    ensures Finished(done + bs, 0, ApplyAll(LevelStages(bs), ts))
    decreases |bs|
  {
    hide Sane, Finished, Ready, StageOk, Block.Rules, FlatMap, Skeleton;
    if bs == [] {
      assert done + bs == done;
    } else {
      var b, rest := bs[0], bs[1..];
      var more := done + [b];
      assert more + rest == done + bs;
      assert b !in done by { NewBlock(done, bs); }
      OneBlock(b, done, ts, k);
      assert LevelStages(bs)[1..] == LevelStages(rest);
      LevelStagesOk(rest);
      BlocksLevel(more, rest, b.Rules().Run(ts), k);
      ApplyFirst(LevelStages(bs), ts);
    }
  }

  lemma NewBlock(done: seq<Block>, bs: seq<Block>)
    requires Distinct(done + bs) && bs != []
    ensures bs[0] !in done
  {
    forall i | 0 <= i < |done| ensures done[i] != bs[0] {
      assert (done + bs)[i] != (done + bs)[|done|];
    }
  }

  lemma OneBlock(b: Block, done: seq<Block>, ts: seq<Token>, k: seq<Token>)
    requires b !in done && Ready(ts) && Skeleton(ts) == k
    requires Sane(START, k) && Open([], k) == [] && Finished(done, 0, ts)
    ensures b.Rules().Valid() && Ready(b.Rules().Run(ts)) && Skeleton(b.Rules().Run(ts)) == k
    ensures Finished(done + [b], 0, b.Rules().Run(ts))
  {
    RulesFit(b);
    ReadyHasNoHoles(ts);
    hide Block.Rules, Finished, Sane, Nested, Block.Closes, Fit, Ready, Skeleton;
    SaneOfSkeleton(START, START, ts);
    NestingOfSkeleton([], ts);
    RulesKeep(b.Rules(), ts);
    FitIsValid(b.Rules());
    RunLevels(b, done, ts);
  }

  lemma FitIsValid(s: RuleSet)
    requires Fit(s, IsPlain)
    ensures s.Valid()
  {}

  lemma ReadyHasNoHoles(ts: seq<Token>)
    requires Ready(ts)
    ensures PipelineColumns.NoHoles(ts)
  {
    forall i | 0 <= i < |ts| ensures !ts[i].NoToken? {
      assert Tokens.Marks(ts[i]) == [];
    }
  }

  lemma IndentationStagesAre(o: Options)
    ensures IndentationStages(o) == LevelStages(Chosen(o)) + [Reorder(INDENTATION_UP)]
  {
    var headers: seq<Block>, contents: seq<Block> :=
      if o.indentSectionHeaders then [Body] else [], if o.indentSectionContents then [Sections] else [];
    LevelStagesConcat(headers + contents, [Hex, Parens, With]);
    LevelStagesConcat(headers, contents);
    assert [Hex, Parens, With][1..] == [Parens, With] && [Parens, With][1..] == [With] && [With][1..] == [];
    assert [Body][1..] == [] && [Sections][1..] == [];
  }

  lemma {:induction false} LevelStagesConcat(a: seq<Block>, b: seq<Block>)
    ensures LevelStages(a + b) == LevelStages(a) + LevelStages(b)
    decreases |a|
  {
    if a == [] {
      assert a + b == b;
    } else {
      assert (a + b)[0] == a[0] && (a + b)[1..] == a[1..] + b;
      LevelStagesConcat(a[1..], b);
    }
  }

  // ----- In the pipeline

  /** What the lines of the formatted program are made from: the margins are still to come. */
  ghost function Unindented(o: Options, ts: seq<Token>): seq<Token> {
    PipelineColumns.MarkingsAreOk(o);
    PipelineColumns.AlignsOk(PipelineColumns.Markings(o));
    ApplyAll(PipelineColumns.Aligns(PipelineColumns.Markings(o)), HexMarks.Spaced(o, ts))
  }

  lemma FormatIndents(o: Options, ts: seq<Token>)
    ensures Format(o, ts) == TrailingSpaces.Trim([], Indent(o.indentation, 0, Unindented(o, ts)))
  {
    var aligns, ending := PipelineColumns.Aligns(PipelineColumns.Markings(o)), PipelineColumns.Ending(o.indentation);
    PipelineColumns.MarkingsAreOk(o);
    PipelineColumns.AlignsOk(PipelineColumns.Markings(o));
    hide Format, StageOk, LastStages, PipelineColumns.Aligns, PipelineColumns.Markings, PipelineColumns.Ending,
      HexMarks.Spaced, ApplyAll;
    PipelineColumns.FormatIsLastStages(o, ts);
    PipelineColumns.LastStagesAre(o);
    PipelineColumns.EndingIs(o.indentation, Unindented(o, ts));
    ApplyAllConcat(aligns, ending, HexMarks.Spaced(o, ts));
  }

  /** The rule sets for indentation run, and the level is changed at line ends. */
  lemma EarlyIsLeveled(o: Options, ts: seq<Token>)
    ensures
      var x := Broken(o, ts);
      && AllOk(LevelStages(Chosen(o))) && StageOk(Reorder(INDENTATION_UP))
      && LineEnds.Early(o, ts) == Apply(Reorder(INDENTATION_UP), ApplyAll(LevelStages(Chosen(o)), x))
  {
    PipelineOk(o);
    NewlineStagesOk(o);
    IndentationStagesOk(o);
    MediaOk();
    LevelStagesOk(Chosen(o));
    IndentationStagesAre(o);
    var x, last := Broken(o, ts), [Reorder(INDENTATION_UP)];
    hide StageOk, NewlineStages, IndentationStages, LevelStages, Apply;
    ApplyAllConcat(NewlineStages(o), IndentationStages(o), Comments.Run(o.tabSize, StatementLines().Run(ts)));
    ApplyAllConcat(LevelStages(Chosen(o)), last, x);
    ApplyFirst(last, ApplyAll(LevelStages(Chosen(o)), x));
    assert last[1..] == [];
  }

  /** After the rule sets for indentation the levels stay in place. */
  lemma LaterSees(o: Options, f: Token -> seq<Token>, ts: seq<Token>)
    requires Source(ts) && IgnoresSpacing(f)
    ensures AllOk(LevelStages(Chosen(o)))
    ensures FlatMap(f, Unindented(o, ts)) == FlatMap(f, ApplyAll(LevelStages(Chosen(o)), Broken(o, ts)))
  {
    var ks := PipelineColumns.Markings(o);
    PipelineColumns.MarkingsAreOk(o);
    PipelineColumns.AlignsOk(ks);
    AlignsAreQuiet(ks);
    NewlineAfterCommentsFit();
    SpacingFit();
    hide StageOk, FlatMap, LevelStages, PipelineColumns.Aligns, PipelineColumns.Markings, LineEnds.Early, Broken, Fit;
    EarlyIsLeveled(o, ts);
    IndentationUpSees(f, ApplyAll(LevelStages(Chosen(o)), Broken(o, ts)));
    SpacedSees(f, LineEnds.Early(o, ts));
    QuietStagesSee(PipelineColumns.Aligns(ks), f, HexMarks.Spaced(o, ts));
  }

  lemma IndentationUpSees(f: Token -> seq<Token>, ts: seq<Token>)
    requires StageOk(Reorder(INDENTATION_UP)) && IgnoresSpacing(f)
    ensures FlatMap(f, Apply(Reorder(INDENTATION_UP), ts)) == FlatMap(f, ts)
  {
    ReorderSees(INDENTATION_UP, f, ts);
  }

  lemma SpacedSees(f: Token -> seq<Token>, ts: seq<Token>)
    requires IgnoresSpacing(f) && NewlineAfterComments().Valid() && Spacing().Valid()
    ensures FlatMap(f, Spacing().Run(NewlineAfterComments().Run(ts))) == FlatMap(f, ts)
  {
    NewlineRulesAreSpacing();
    HeaderRulesAreSpacing();
    hide OnlySpacing, FlatMap, NewlineAfterComments, Spacing, RuleSet.Run, RuleSet.Valid, Harmless;
    SpacingSaysNothing(NewlineAfterComments(), f);
    SpacingSaysNothing(Spacing(), f);
    RulesSee(NewlineAfterComments(), f, ts);
    RulesSee(Spacing(), f, NewlineAfterComments().Run(ts));
  }

  /** Nothing is indented yet, grammar rules are closed, nothing ends right behind an opener. */
  ghost predicate Regular(ts: seq<Token>) {
    Source(ts) && FlatMap(Lift, ts) == [] && Sane(START, Skeleton(ts)) && Open([], ts) == []
  }

  /** Text and ends of grammar rules stand at the level of the blocks around them. */
  lemma FormattedIsLeveled(o: Options, ts: seq<Token>)
    requires Regular(ts)
    ensures Leveled(Chosen(o), 0, [], Unindented(o, ts)) && Ends(Chosen(o), 0, [], Unindented(o, ts)) == 0
    ensures Skeleton(Unindented(o, ts)) == Skeleton(ts)
  {
    hide *;
    RegularIs(ts);
    var x, bs, y := Broken(o, ts), Chosen(o), Unindented(o, ts);
    FramesIgnoreSpacing();
    LevelStagesOk(bs);
    var all := ApplyAll(LevelStages(bs), x);
    BrokenIsReady(o, ts);
    BrokenIsUnindented(o, ts);
    BlocksAreDistinct(o);
    NestingOfSkeleton([], ts);
    assert [] + bs == bs;
    BlocksLevel([], bs, x, Skeleton(ts));
    FinishedIsLeveled(bs, all);
    LaterSees(o, Frame, ts);
    LaterSees(o, Bone, ts);
    SkeletonIsBones(y);
    SkeletonIsBones(all);
    StagesKeep(LevelStages(bs), x);
    SameSkeleton(x, all);
    LeveledByFrame(bs, 0, [], all);
    LeveledByFrame(bs, 0, [], y);
  }

  lemma RegularIs(ts: seq<Token>)
    requires Regular(ts)
    ensures Source(ts) && FlatMap(Lift, ts) == [] && Sane(START, Skeleton(ts)) && Open([], ts) == []
  {}

  lemma SkeletonIsBones(ts: seq<Token>)
    ensures Skeleton(ts) == FlatMap(Bone, ts)
  {}

  lemma SameSkeleton(a: seq<Token>, b: seq<Token>)
    requires SameProgram(a, b)
    ensures Skeleton(a) == Skeleton(b)
  {}

  lemma FinishedIsLeveled(bs: seq<Block>, all: seq<Token>)
    requires Finished(bs, 0, all)
    ensures Leveled(bs, 0, [], all) && Ends(bs, 0, [], all) == 0
  {}

  lemma BrokenIsUnindented(o: Options, ts: seq<Token>)
    requires Source(ts) && FlatMap(Lift, ts) == []
    ensures Finished([], 0, Broken(o, ts))
  {
    hide Broken, Source;
    FramesIgnoreSpacing();
    BrokenSees(o, Lift, ts);
    NothingMapped(Lift, Broken(o, ts));
    forall i | 0 <= i < |Broken(o, ts)| ensures !Broken(o, ts)[i].Indentation? {
      assert Lift(Broken(o, ts)[i]) == [];
    }
    NothingIndented(0, START, Broken(o, ts));
  }

  // ----- Place by place

  /** The blocks around the n-th token of a skeleton. */
  function Around(bs: seq<Block>, bones: seq<Token>, n: nat): int
    requires n < |bones|
  {
    Depth(bs, [], bones[..n]) - Closed(bs, Open([], bones[..n]), bones[n])
  }

  lemma LeveledAt(bs: seq<Block>, ts: seq<Token>, i: nat)
    requires Leveled(bs, 0, [], ts) && i < |ts| && Bone(ts[i]) != []
    ensures Level(ts[..i]) == Depth(bs, [], ts[..i]) - Closed(bs, Open([], ts[..i]), ts[i])
  {
    assert ts == ts[..i] + ts[i..] && ts[i..][0] == ts[i];
    LeveledConcat(bs, 0, [], ts[..i], ts[i..]);
    assert Stands(bs, Ends(bs, 0, [], ts[..i]), Open([], ts[..i]), ts[i]);
  }

  lemma PlaceInSkeleton(ts: seq<Token>, i: nat)
    requires i < |ts| && Bone(ts[i]) != []
    ensures
      var bones, n := Skeleton(ts), |Skeleton(ts[..i])|;
      n < |bones| && bones[n] == ts[i] && bones[..n] == Skeleton(ts[..i])
  {
    var before, after := Skeleton(ts[..i]), Skeleton(ts[i + 1..]);
    assert ts == ts[..i] + ts[i..] && ts[i..][0] == ts[i] && ts[i..][1..] == ts[i + 1..];
    FlatMapConcat(Bone, ts[..i], ts[i..]);
    FlatMapCons(Bone, ts[i..]);
    assert Skeleton(ts) == before + ([ts[i]] + after);
  }

  /**
   Each text token of the program and each end of a grammar rule is written at
   the level of the blocks around it, and the level at the end is what is left
   open: no level comes from the layout of the source.
   */
  lemma LevelIsDepth(o: Options, ts: seq<Token>, i: nat)
    requires Regular(ts) && i < |Unindented(o, ts)| && Bone(Unindented(o, ts)[i]) != []
    ensures
      var y, bones := Unindented(o, ts), Skeleton(ts);
      var n := |Skeleton(y[..i])|;
      n < |bones| && bones[n] == y[i] && Level(y[..i]) == Around(Chosen(o), bones, n)
  {
    var y, bs := Unindented(o, ts), Chosen(o);
    hide Regular, Unindented, Chosen, Skeleton, Leveled, Depth, Closed, Bone, Ends;
    FormattedIsLeveled(o, ts);
    LeveledAt(bs, y, i);
    PlaceInSkeleton(y, i);
    DepthOfSkeleton(bs, [], y[..i]);
    NestingOfSkeleton([], y[..i]);
  }

  /** The level at the end is 0 exactly if as many blocks are closed as are opened. */
  lemma LevelAtEnd(o: Options, ts: seq<Token>)
    requires Regular(ts)
    ensures Level(Unindented(o, ts)) == Depth(Chosen(o), [], Skeleton(ts))
  {
    hide Regular, Unindented, Chosen, Skeleton, Leveled, Depth;
    FormattedIsLeveled(o, ts);
    DepthOfSkeleton(Chosen(o), [], Unindented(o, ts));
  }

  /**
   In the formatted program the margin of a line is that of the blocks around
   its first text, less the changes of the level between the newline and the text.
   */
  lemma LinesAreIndented(o: Options, ts: seq<Token>, i: nat, j: nat)
    requires Regular(ts) && i < j < |Unindented(o, ts)| && Unindented(o, ts)[i] == Newline
    requires Bone(Unindented(o, ts)[j]) != []
    ensures
      var style, y, bones := o.indentation, Unindented(o, ts), Skeleton(ts);
      var n := |Skeleton(y[..j])|;
      && n < |bones| && bones[n] == y[j]
      && var level := Around(Chosen(o), bones, n) - Level(y[i..j]);
         Format(o, ts) == TrailingSpaces.Trim([],
           Indent(style, 0, y[..i]) + [Newline] + Margin(style, level) + Indent(style, level, y[i + 1..]))
  {
    var y := Unindented(o, ts);
    hide Regular, Unindented, Chosen, Skeleton, Around, Bone, Format, Level, Margin, Indent, TrailingSpaces.Trim;
    FormatIndents(o, ts);
    LevelIsDepth(o, ts, j);
    assert y[..j] == y[..i] + y[i..j];
    LevelConcat(y[..i], y[i..j]);
    assert y == y[..i] + [Newline] + y[i + 1..];
    IndentAtNewline(o.indentation, y[..i], y[i + 1..]);
  }
}
