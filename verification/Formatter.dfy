/**
 The pipeline of the formatter and its main theorem: formatting never changes
 the program.
 */
module Formatter {
  import opened Seqs
  import opened Tokens
  import opened Processors
  import opened Preservation
  import opened RuleSets
  import opened BlockMarkers
  import AddingIndentation
  import Alignment
  import Bubbles
  import Comments
  import HexPatterns
  import TrailingSpaces

  datatype Options = Options(
    alignMetadata: bool,
    alignPatterns: bool,
    indentSectionHeaders: bool,
    indentSectionContents: bool,
    newlineBeforeCurlyBrace: bool,
    emptyLineBeforeSectionHeader: bool,
    emptyLineAfterSectionHeader: bool,
    tabSize: nat,
    indentation: AddingIndentation.Style)

  datatype Stage =
    | ApplyRules(rules: RuleSet)
    | ProcessComments(tabSize: nat)
    | Reorder(medium: Bubbles.Medium)
    | LayoutHexPatterns
    | AlignBlocks(marking: Marking)
    | IndentLines(style: AddingIndentation.Style)
    | TrimLines

  const TAILS_UP := Bubbles.Medium((t: Token) => t.TailComment? || t.Newline?, (t: Token) => t.Begin? || t.End?)
  const ENDS_UP := Bubbles.Medium((t: Token) => t.End?, (t: Token) => t.Newline?)
  const INDENTATION_UP := Bubbles.Medium((t: Token) => t.Indentation?, (t: Token) => t.Newline?)

  const META := EqualSigns(MetaBlk, MetaDef)
  const PATTERNS := EqualSigns(PatternsBlk, PatternDef)

  // ----- The pipeline

  /** The stages that come after the comments have been processed. */
  function LaterStages(o: Options): seq<Stage> {
    NewlineStages(o) + IndentationStages(o) + SpacingStages(o)
  }

  function NewlineStages(o: Options): seq<Stage> {
    [ ApplyRules(NoWhitespace()),
      Reorder(TAILS_UP),
      Reorder(ENDS_UP),
      ApplyRules(FewerNewlines()),
      ApplyRules(if o.newlineBeforeCurlyBrace then BraceOnOwnLine() else BraceOnSameLine()),
      ApplyRules(EmptyLineBeforeRule()),
      ApplyRules(if o.emptyLineBeforeSectionHeader then EmptyLineBeforeHeader() else NewlineBeforeHeader()),
      ApplyRules(NoEmptyLineBeforeFirstHeader()),
      ApplyRules(if o.emptyLineAfterSectionHeader then EmptyLineAfterHeader() else NewlineAfterHeader()),
      ApplyRules(RequiredNewlines()),
      LayoutHexPatterns ]
  }

  function IndentationStages(o: Options): seq<Stage> {
    (if o.indentSectionHeaders then [ApplyRules(IndentBody())] else []) +
    (if o.indentSectionContents then [ApplyRules(IndentSections())] else []) +
    [ ApplyRules(IndentHexPatterns()),
      ApplyRules(IndentParenthesized()),
      ApplyRules(IndentWith()),
      Reorder(INDENTATION_UP) ]
  }

  function SpacingStages(o: Options): seq<Stage> {
    [ ApplyRules(NewlineAfterComments()), ApplyRules(Spacing()) ] + LastStages(o)
  }

  /** What comes after spaces have been put between tokens. */
  function LastStages(o: Options): seq<Stage> {
    [ AlignBlocks(HexComments) ] +
    (if o.alignMetadata then [AlignBlocks(META)] else []) +
    (if o.alignPatterns then [AlignBlocks(PATTERNS)] else []) +
    [ IndentLines(o.indentation), TrimLines ]
  }

  function Pipeline(o: Options): seq<Stage> {
    [ ApplyRules(StatementLines()), ProcessComments(o.tabSize) ] + LaterStages(o)
  }

  // ----- What a stage does to a whole stream

  /** A reordering in which projections of the program ignore either air or water. */
  ghost predicate KeepsProgram(m: Bubbles.Medium) {
    && ((forall t :: m.water(t) ==> Items(t) == []) || (forall t :: m.air(t) ==> Items(t) == []))
    && ((forall t :: m.water(t) ==> Bone(t) == []) || (forall t :: m.air(t) ==> Bone(t) == []))
    && (forall t :: m.water(t) ==> Tokens.Marks(t) == [])
  }

  ghost predicate StageOk(st: Stage) {
    match st
    case ApplyRules(s) => Fit(s, IsPlain)
    case Reorder(m) => m.Valid() && KeepsProgram(m)
    case AlignBlocks(k) => (k == HexComments || k == META || k == PATTERNS) && Fit(k.Rules(), IsMark)
    case _ => true
  }

  ghost function Apply(st: Stage, ts: seq<Token>): seq<Token>
    requires StageOk(st)
  {
    match st
    case ApplyRules(s) => s.Run(ts)
    case ProcessComments(tabSize) => Comments.Run(tabSize, ts)
    case Reorder(m) => m.Flow([], ts)
    case LayoutHexPatterns => HexPatterns.Flow(HexPatterns.START, [], ts)
    case AlignBlocks(k) => Alignment.Flow(k.Rules().Run(ts))
    case IndentLines(style) => AddingIndentation.Indent(style, 0, ts)
    case TrimLines => TrailingSpaces.Trim([], ts)
  }

  ghost predicate AllOk(stages: seq<Stage>) {
    forall i :: 0 <= i < |stages| ==> StageOk(stages[i])
  }

  ghost function ApplyAll(stages: seq<Stage>, ts: seq<Token>): seq<Token>
    requires AllOk(stages)
    decreases |stages|
  {
    if stages == [] then ts
    else
      assert StageOk(stages[0]);
      ApplyAll(stages[1..], Apply(stages[0], ts))
  }

  // ----- All the stages are fit

  lemma NewlineStagesOk(o: Options)
    ensures AllOk(NewlineStages(o))
  {
    NoWhitespaceFit();
    FewerNewlinesFit();
    BraceOnOwnLineFit();
    BraceOnSameLineFit();
    EmptyLineBeforeRuleFit();
    EmptyLineBeforeHeaderFit();
    NewlineBeforeHeaderFit();
    NoEmptyLineBeforeFirstHeaderFit();
    EmptyLineAfterHeaderFit();
    NewlineAfterHeaderFit();
    RequiredNewlinesFit();
    MediaOk();
    hide Fit;
    hide KeepsProgram;
  }

  lemma TailsUpOk()
    ensures StageOk(Reorder(TAILS_UP))
  {}

  lemma EndsUpOk()
    ensures StageOk(Reorder(ENDS_UP))
  {}

  lemma IndentationUpOk()
    ensures StageOk(Reorder(INDENTATION_UP))
  {}

  lemma MediaOk()
    ensures StageOk(Reorder(TAILS_UP)) && StageOk(Reorder(ENDS_UP)) && StageOk(Reorder(INDENTATION_UP))
  {
    TailsUpOk();
    EndsUpOk();
    IndentationUpOk();
    hide StageOk;
  }

  lemma IndentationStagesOk(o: Options)
    ensures AllOk(IndentationStages(o))
  {
    IndentBodyFit();
    IndentSectionsFit();
    IndentHexPatternsFit();
    IndentParenthesizedFit();
    IndentWithFit();
    MediaOk();
    hide Fit;
    hide KeepsProgram;
  }

  lemma SpacingStagesOk(o: Options)
    ensures AllOk(SpacingStages(o)) && AllOk(LastStages(o))
  {
    NewlineAfterCommentsFit();
    SpacingFit();
    RulesFit(HexComments);
    RulesFit(META);
    RulesFit(PATTERNS);
    hide Fit;
  }

  lemma PipelineOk(o: Options)
    ensures AllOk(LaterStages(o)) && AllOk(Pipeline(o)) && Fit(StatementLines(), IsPlain)
  {
    NewlineStagesOk(o);
    IndentationStagesOk(o);
    SpacingStagesOk(o);
    StatementLinesFit();
    hide StageOk;
    hide NewlineStages;
    hide IndentationStages;
    hide SpacingStages;
    FirstStagesOk(o);
  }

  lemma FirstStagesOk(o: Options)
    requires Fit(StatementLines(), IsPlain)
    ensures StageOk(ApplyRules(StatementLines())) && StageOk(ProcessComments(o.tabSize))
  {}

  /** What formatting does to a stream of tokens. */
  ghost function Format(o: Options, ts: seq<Token>): seq<Token> {
    PipelineOk(o);
    ApplyAll(Pipeline(o), ts)
  }

  // ----- The program is kept

  /** What the later stages rely on, besides the order of text and comments. */
  ghost predicate Ready(ts: seq<Token>) {
    && Nested([], ts) && Unmarked(ts)
    && Blocks(HexComments, ts) && Blocks(META, ts) && Blocks(PATTERNS, ts)
  }

  /**
   What the parser guarantees: grammar rules are well nested, hex patterns and
   the meta and strings blocks are neither empty nor nested in themselves and
   hold their items, and comments are raw and not empty.
   */
  ghost predicate Source(ts: seq<Token>) {
    Ready(ts) && Comments.RawComments(ts) && Comments.NoEmptyComment(ts)
  }

  /** `b` says the same as `a`. */
  ghost predicate SameProgram(a: seq<Token>, b: seq<Token>) {
    Essence(a) == Essence(b) && Skeleton(a) == Skeleton(b)
  }

  lemma ReadyBySkeleton(a: seq<Token>, b: seq<Token>)
    requires Ready(a) && SameProgram(a, b) && Unmarked(b)
    ensures Ready(b)
  {
    NestingOfSkeleton([], a);
    NestingOfSkeleton([], b);
  }

  lemma RulesKeep(s: RuleSet, ts: seq<Token>)
    requires Fit(s, IsPlain) && Ready(ts)
    ensures SameProgram(ts, s.Run(ts)) && Ready(s.Run(ts))
  {
    RunPreserves(s, ts);
    PlainIsUnmarked(s);
    MapUnmarked(ts);
    RewritePreserves(s, Tokens.Marks, [], ts);
    NothingMapped(Tokens.Marks, s.Run(ts));
    ReadyBySkeleton(ts, s.Run(ts));
  }

  lemma PlainIsUnmarked(s: RuleSet)
    requires Fit(s, IsPlain)
    ensures Harmless(s, Tokens.Marks)
  {}

  lemma MapUnmarked(ts: seq<Token>)
    requires Unmarked(ts)
    ensures FlatMap(Tokens.Marks, ts) == []
  {
    FlatMapNothing(Tokens.Marks, ts);
  }

  lemma CommentsKeep(tabSize: nat, ts: seq<Token>)
    requires Ready(ts) && Comments.RawComments(ts)
    ensures SameProgram(ts, Comments.Run(tabSize, ts)) && Ready(Comments.Run(tabSize, ts))
  {
    Comments.RunPreserves(tabSize, ts);
    MarksAreSeen();
    MapUnmarked(ts);
    Comments.FlowPreserves(Tokens.Marks, Comments.NoItems, tabSize, true, 0, [], ts);
    NothingMapped(Tokens.Marks, Comments.Run(tabSize, ts));
    ReadyBySkeleton(ts, Comments.Run(tabSize, ts));
  }

  lemma MarksSeeLines()
    ensures Comments.SeesLines(Tokens.Marks, Comments.NoItems)
  {}

  lemma MarksAreSeen()
    ensures Comments.Sees(Tokens.Marks, Comments.NoItems)
  {
    MarksSeeLines();
    hide Comments.SeesLines;
  }

  lemma ReorderKeeps(m: Bubbles.Medium, ts: seq<Token>)
    requires StageOk(Reorder(m)) && Ready(ts)
    ensures SameProgram(ts, m.Flow([], ts)) && Ready(m.Flow([], ts))
  {
    var out := m.Flow([], ts);
    MapUnmarked(ts);
    Bubbles.FlowPreserves(m, Items, [], ts);
    Bubbles.FlowPreserves(m, Bone, [], ts);
    Bubbles.FlowPreserves(m, Tokens.Marks, [], ts);
    assert [] + Essence(ts) == Essence(ts) && [] + Skeleton(ts) == Skeleton(ts);
    NothingMapped(Tokens.Marks, out);
    ReadyBySkeleton(ts, out);
  }

  lemma HexKeeps(ts: seq<Token>)
    requires Ready(ts)
    ensures
      var out := HexPatterns.Flow(HexPatterns.START, [], ts);
      SameProgram(ts, out) && Ready(out)
  {
    var out := HexPatterns.Flow(HexPatterns.START, [], ts);
    MapUnmarked(ts);
    HexPatterns.FlowPreserves(Items, HexPatterns.START, [], ts);
    HexPatterns.FlowPreserves(Bone, HexPatterns.START, [], ts);
    HexPatterns.FlowPreserves(Tokens.Marks, HexPatterns.START, [], ts);
    assert [] + Essence(ts) == Essence(ts) && [] + Skeleton(ts) == Skeleton(ts);
    NothingMapped(Tokens.Marks, out);
    ReadyBySkeleton(ts, out);
  }

  lemma MarkingKeeps(k: Marking, ts: seq<Token>)
    requires Fit(k.Rules(), IsMark)
    ensures SameProgram(ts, k.Rules().Run(ts))
  {
    RunPreserves(k.Rules(), ts);
  }

  lemma AligningKeeps(ts: seq<Token>, marked: seq<Token>)
    requires Ready(ts) && SameProgram(ts, marked) && Unmarked(Alignment.Flow(marked))
    ensures SameProgram(ts, Alignment.Flow(marked)) && Ready(Alignment.Flow(marked))
  {
    Alignment.FlowPreserves(Items, marked);
    Alignment.FlowPreserves(Bone, marked);
    ReadyBySkeleton(ts, Alignment.Flow(marked));
  }

  lemma AlignKeeps(k: Marking, ts: seq<Token>)
    requires StageOk(AlignBlocks(k)) && Ready(ts)
    ensures SameProgram(ts, Alignment.Flow(k.Rules().Run(ts))) && Ready(Alignment.Flow(k.Rules().Run(ts)))
  {
    hide SameProgram;
    MarkingKeeps(k, ts);
    AlignedIsUnmarked(k, ts);
    AligningKeeps(ts, k.Rules().Run(ts));
  }

  lemma IndentKeeps(style: AddingIndentation.Style, ts: seq<Token>)
    requires Ready(ts)
    ensures
      var out := AddingIndentation.Indent(style, 0, ts);
      SameProgram(ts, out) && Ready(out)
  {
    var out := AddingIndentation.Indent(style, 0, ts);
    MapUnmarked(ts);
    AddingIndentation.IndentPreserves(Items, style, 0, ts);
    AddingIndentation.IndentPreserves(Bone, style, 0, ts);
    AddingIndentation.IndentPreserves(Tokens.Marks, style, 0, ts);
    NothingMapped(Tokens.Marks, out);
    ReadyBySkeleton(ts, out);
  }

  lemma TrimKeeps(ts: seq<Token>)
    requires Ready(ts)
    ensures SameProgram(ts, TrailingSpaces.Trim([], ts)) && Ready(TrailingSpaces.Trim([], ts))
  {
    hide FlatMap, Nested, Blocks;
    var out := TrailingSpaces.Trim([], ts);
    MapUnmarked(ts);
    FlatMapNothing(Items, []);
    FlatMapNothing(Bone, []);
    FlatMapNothing(Tokens.Marks, []);
    assert [] + FlatMap(Tokens.Marks, ts) == FlatMap(Tokens.Marks, ts);
    TrailingSpaces.TrimPreserves(Items, [], ts);
    TrailingSpaces.TrimPreserves(Bone, [], ts);
    TrailingSpaces.TrimPreserves(Tokens.Marks, [], ts);
    assert [] + Essence(ts) == Essence(ts) && [] + Skeleton(ts) == Skeleton(ts);
    NothingMapped(Tokens.Marks, out);
    ReadyBySkeleton(ts, out);
  }

  /** Every stage keeps the program, and what the next stages rely on. */
  lemma StageKeeps(st: Stage, ts: seq<Token>)
    requires StageOk(st) && Ready(ts)
    requires st.ProcessComments? ==> Comments.RawComments(ts)
    ensures SameProgram(ts, Apply(st, ts)) && Ready(Apply(st, ts))
  {
    hide Ready;
    hide SameProgram;
    match st
    case ApplyRules(s) => RulesKeep(s, ts);
    case ProcessComments(tabSize) => CommentsKeep(tabSize, ts);
    case Reorder(m) => ReorderKeeps(m, ts);
    case LayoutHexPatterns => HexKeeps(ts);
    case AlignBlocks(k) => AlignKeeps(k, ts);
    case IndentLines(style) => IndentKeeps(style, ts);
    case TrimLines => TrimKeeps(ts);
  }

  ghost predicate NoComments(stages: seq<Stage>) {
    forall i :: 0 <= i < |stages| ==> !stages[i].ProcessComments?
  }

  lemma {:induction false} StagesKeep(stages: seq<Stage>, ts: seq<Token>)
    requires AllOk(stages) && NoComments(stages) && Ready(ts)
    ensures SameProgram(ts, ApplyAll(stages, ts)) && Ready(ApplyAll(stages, ts))
    decreases |stages|
  {
    hide Ready;
    hide StageOk;
    if stages != [] {
      StageKeeps(stages[0], ts);
      StagesKeep(stages[1..], Apply(stages[0], ts));
    }
  }

  /** Comments that are not raw, or empty. */
  function Odd(t: Token): seq<Token> {
    if Is(t, COMMENT) && !(t.Comment? && t.text != []) then [t] else []
  }

  lemma NothingOddInserted()
    requires Fit(StatementLines(), IsPlain)
    ensures Harmless(StatementLines(), Odd) && StatementLines().Valid()
  {}

  lemma {:induction false} OddMeansProcessedOrEmpty(ts: seq<Token>)
    ensures FlatMap(Odd, ts) == [] <==> Comments.RawComments(ts) && Comments.NoEmptyComment(ts)
  {
    if FlatMap(Odd, ts) == [] {
      NothingMapped(Odd, ts);
      forall i | 0 <= i < |ts| && Is(ts[i], COMMENT) ensures ts[i].Comment? && ts[i].text != [] {
        assert Odd(ts[i]) == [];
      }
    }
    if Comments.RawComments(ts) && Comments.NoEmptyComment(ts) {
      FlatMapNothing(Odd, ts);
    }
  }

  lemma CommentsStayRaw(s: RuleSet, ts: seq<Token>)
    requires s.Valid() && Harmless(s, Odd) && Comments.RawComments(ts) && Comments.NoEmptyComment(ts)
    ensures Comments.RawComments(s.Run(ts)) && Comments.NoEmptyComment(s.Run(ts))
  {
    OddMeansProcessedOrEmpty(ts);
    RewritePreserves(s, Odd, [], ts);
    OddMeansProcessedOrEmpty(s.Run(ts));
  }

  lemma ApplyFirst(stages: seq<Stage>, ts: seq<Token>)
    requires AllOk(stages) && stages != []
    ensures StageOk(stages[0]) && AllOk(stages[1..])
    ensures ApplyAll(stages, ts) == ApplyAll(stages[1..], Apply(stages[0], ts))
  {}

  lemma ApplyFirstTwo(o: Options, ts: seq<Token>)
    requires AllOk(Pipeline(o)) && AllOk(LaterStages(o)) && Fit(StatementLines(), IsPlain)
    ensures Format(o, ts) == ApplyAll(LaterStages(o), Comments.Run(o.tabSize, StatementLines().Run(ts)))
  {
    hide LaterStages;
    hide Fit;
    var stages := Pipeline(o);
    assert stages[1..] == [ProcessComments(o.tabSize)] + LaterStages(o);
    assert stages[1..][1..] == LaterStages(o);
    FirstStagesOk(o);
    ApplyFirst(stages, ts);
    ApplyFirst(stages[1..], Apply(stages[0], ts));
  }

  lemma LaterStagesHaveNoComments(o: Options)
    ensures NoComments(LaterStages(o))
  {}

  /** What the first two stages leave to the others. */
  lemma FirstTwoKeep(o: Options, ts: seq<Token>)
    requires Source(ts) && Fit(StatementLines(), IsPlain)
    ensures
      var processed := Comments.Run(o.tabSize, StatementLines().Run(ts));
      SameProgram(ts, processed) && Ready(processed)
  {
    RulesKeep(StatementLines(), ts);
    NothingOddInserted();
    CommentsStayRaw(StatementLines(), ts);
    CommentsKeep(o.tabSize, StatementLines().Run(ts));
  }

  /**
   Formatting never changes the program: for all options, the text tokens, the
   lines of the comments between them and the nesting of the grammar rules come
   out as they went in.
   */
  lemma FormattingKeepsProgram(o: Options, ts: seq<Token>)
    requires Source(ts)
    ensures Essence(Format(o, ts)) == Essence(ts)
    ensures Skeleton(Format(o, ts)) == Skeleton(ts)
    ensures Nested([], Format(o, ts)) && Unmarked(Format(o, ts))
  {
    PipelineOk(o);
    LaterStagesHaveNoComments(o);
    ApplyFirstTwo(o, ts);
    hide LaterStages;
    hide AllOk;
    hide Format;
    FirstTwoKeep(o, ts);
    StagesKeep(LaterStages(o), Comments.Run(o.tabSize, StatementLines().Run(ts)));
  }
}
