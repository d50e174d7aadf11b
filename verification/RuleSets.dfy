/**
 The rule sets of the formatter, in the order in which the pipeline applies
 them. Conditions are predicates over a view, named after what they look for.
 The lemmas named `...Fit` show that each rule set settles after at most two
 insertions, and that it only ever inserts or drops layout.
 */
module RuleSets {
  import opened Seqs
  import opened Tokens
  import opened Processors
  import opened Preservation

  predicate AfterNewline(v: View) { Is(v.Tok(-1), NEWLINE) }

  predicate AtNewline(v: View) { Is(v.Tok(1), NEWLINE) }

  predicate IsHeader(t: Token) {
    t == Keyword("meta") || t == Keyword("strings") || t == Keyword("condition")
  }

  // ----- Statements start at a new line

  function StatementLines(): RuleSet {
    RuleSet(
      [ Rule(v => StatementInLine(v), Insert([Newline])),
        Rule(v => RuleInLine(v), Insert([Newline])) ],
      NONE)
  }

  predicate StatementInLine(v: View) {
    && (v.Tok(1) == Begin(ImportStmt) || v.Tok(1) == Begin(IncludeStmt))
    && v.Tok(-1) != Begin(SourceFile)
    && !AfterNewline(v)
  }

  predicate RuleInLine(v: View) {
    v.Tok(1) == Begin(RuleDecl) && v.Tok(-1) != Begin(SourceFile) && !AfterNewline(v)
  }

  // ----- The original whitespace goes away

  function NoWhitespace(): RuleSet {
    RuleSet([Rule((v: View) => Is(v.Tok(1), {CWhitespace}), Drop)], NONE)
  }

  // ----- Newlines that are dropped

  function FewerNewlines(): RuleSet {
    RuleSet(
      [ Rule((v: View) => Is(v.Tok(-1), NONE) && AtNewline(v), Drop),
        Rule((v: View) => AtNewline(v) && Is(v.Tok(2), NEWLINE) && Is(v.Tok(3), NEWLINE), Drop),
        Rule((v: View) => AfterNewline(v) && AtNewline(v) && Is(v.Tok(2), NONE), Drop),
        Rule((v: View) => BetweenTagsOrModifiers(v) && AtNewline(v), Drop),
        Rule((v: View) => v.Tok(-1) == End(RuleMods) && AtNewline(v), Drop),
        Rule((v: View) => v.Tok(-1) == End(RuleTags) && AtNewline(v), Drop) ],
      NONE)
  }

  predicate BetweenTagsOrModifiers(v: View) {
    (v.InRule(RuleMods, false) || v.InRule(RuleTags, false)) && !Is(v.Tok(-1), COMMENT)
  }

  // ----- The opening brace of a rule

  function BraceOnOwnLine(): RuleSet {
    RuleSet(
      [Rule((v: View) => v.InRule(RuleDecl, false) && v.Tok(1) == LBRACE && !AfterNewline(v), Insert([Newline]))],
      NONE)
  }

  function BraceOnSameLine(): RuleSet {
    RuleSet([Rule(v => NewlineBeforeBrace(v), Drop)], NONE)
  }

  predicate NewlineBeforeBrace(v: View) {
    && v.InRule(RuleDecl, false)
    && AtNewline(v)
    && (v.Tok(2) == LBRACE || (Is(v.Tok(2), NEWLINE) && v.Tok(3) == LBRACE))
  }

  // ----- Empty lines around rules and sections

  function EmptyLineBeforeRule(): RuleSet {
    RuleSet([Rule(v => RuleAfterSingleNewline(v), Insert([Newline]))], NONE)
  }

  predicate RuleAfterSingleNewline(v: View) {
    v.Tok(1) == Begin(RuleDecl) && AfterNewline(v) && !Is(v.Tok(-2), NEWLINE + COMMENT)
  }

  function EmptyLineBeforeHeader(): RuleSet {
    RuleSet(
      [ Rule((v: View) => IsHeader(v.Tok(1)) && !AfterNewline(v), Insert([Newline, Newline])),
        Rule((v: View) => IsHeader(v.Tok(1)) && AfterNewline(v) && !Is(v.Tok(-2), NEWLINE), Insert([Newline])) ],
      CONTROL)
  }

  function NewlineBeforeHeader(): RuleSet {
    RuleSet(
      [ Rule((v: View) => IsHeader(v.Tok(1)) && !AfterNewline(v), Insert([Newline])),
        Rule((v: View) => AtNewline(v) && IsHeader(v.Tok(2)) && AfterNewline(v), Drop) ],
      CONTROL)
  }

  function NoEmptyLineBeforeFirstHeader(): RuleSet {
    RuleSet(
      [Rule((v: View) => AtNewline(v) && IsHeader(v.Tok(2)) && AfterNewline(v) && v.Tok(-2) == LBRACE, Drop)],
      CONTROL)
  }

  predicate AfterHeader(v: View) { v.Tok(-1) == COLON && IsHeader(v.Tok(-2)) }

  function EmptyLineAfterHeader(): RuleSet {
    RuleSet(
      [ Rule((v: View) => AfterHeader(v) && !AtNewline(v), Insert([Newline, Newline])),
        Rule((v: View) => AfterHeader(v) && AtNewline(v) && !Is(v.Tok(2), NEWLINE), Insert([Newline])) ],
      NONE)
  }

  function NewlineAfterHeader(): RuleSet {
    RuleSet(
      [ Rule((v: View) => AfterHeader(v) && !AtNewline(v), Insert([Newline])),
        Rule((v: View) => AfterHeader(v) && AtNewline(v) && Is(v.Tok(2), NEWLINE), Drop) ],
      NONE)
  }

  // ----- Newlines at many other places

  function RequiredNewlines(): RuleSet {
    RuleSet(
      [ IdentifierAtLineStart(MetaDef),
        IdentifierAtLineStart(PatternDef),
        IdentifierAtLineStart(WithDecl),
        Rule((v: View) => v.InRule(RuleDecl, false) && v.Tok(1) == RBRACE && !AfterNewline(v), Insert([Newline])),
        Rule((v: View) => Is(v.Tok(1), NONE) && !AfterNewline(v), Insert([Newline])) ],
      CONTROL)
  }

  function IdentifierAtLineStart(k: Kind): Rule {
    Rule(v => IdentifierIn(v, k), Insert([Newline]))
  }

  predicate IdentifierIn(v: View, k: Kind) {
    v.InRule(k, false) && Is(v.Tok(1), {CIdentifier}) && !AfterNewline(v)
  }

  // ----- Indentation levels

  /** The level was not lowered just before. */
  predicate Unlowered(v: View) { v.Tok(-1) != Indentation(-1) }

  function IndentBody(): RuleSet {
    RuleSet(
      [ Rule((v: View) => v.InRule(RuleDecl, false) && v.Tok(-1) == LBRACE, Insert([Indentation(1)])),
        Rule((v: View) => v.InRule(RuleDecl, false) && v.Tok(1) == RBRACE && Unlowered(v), Insert([Indentation(-1)])) ],
      COMMENT)
  }

  function IndentSections(): RuleSet {
    RuleSet(
      [ Rule((v: View) => v.InRule(ConditionBlk, false) && v.Tok(-1) == COLON, Insert([Indentation(1)])),
        Rule((v: View) => v.Tok(1) == End(ConditionBlk) && Unlowered(v), Insert([Indentation(-1)])),
        Rule((v: View) => v.InRule(MetaBlk, false) && v.Tok(-1) == COLON, Insert([Indentation(1)])),
        Rule((v: View) => v.Tok(1) == End(MetaBlk) && Unlowered(v), Insert([Indentation(-1)])),
        Rule((v: View) => v.InRule(PatternsBlk, false) && v.Tok(-1) == COLON, Insert([Indentation(1)])),
        Rule((v: View) => v.Tok(1) == End(PatternsBlk) && Unlowered(v), Insert([Indentation(-1)])) ],
      COMMENT)
  }

  function IndentHexPatterns(): RuleSet {
    RuleSet(
      [ Rule((v: View) => v.InRule(HexPattern, true) && v.Tok(-1) == LBRACE, Insert([Indentation(1)])),
        Rule((v: View) => v.InRule(HexPattern, true) && v.Tok(1) == RBRACE &&
            Unlowered(v), Insert([Indentation(-1)])) ],
      COMMENT)
  }

  function IndentParenthesized(): RuleSet {
    RuleSet(
      [ Rule((v: View) => v.InRule(BooleanExpr, true) && v.Tok(-1) == LPAREN, Insert([Indentation(1)])),
        Rule((v: View) => v.InRule(BooleanExpr, true) && v.Tok(1) == RPAREN &&
            Unlowered(v), Insert([Indentation(-1)])) ],
      COMMENT)
  }

  function IndentWith(): RuleSet {
    RuleSet(
      [ Rule((v: View) => v.InRule(WithExpr, false) && v.Tok(-1) == Keyword("with"), Insert([Indentation(1)])),
        Rule((v: View) => v.Tok(1) == End(WithExpr) && Unlowered(v), Insert([Indentation(-1)])) ],
      COMMENT)
  }

  // ----- Comments and spacing

  function NewlineAfterComments(): RuleSet {
    RuleSet([Rule(v => CommentInLine(v), Insert([Newline]))], CONTROL)
  }

  predicate CommentInLine(v: View) {
    (v.Tok(-1).HeadComment? || v.Tok(-1).TailComment? || v.Tok(-1).BlockComment?) && !AtNewline(v)
  }

  function Spacing(): RuleSet {
    RuleSet([SpaceBetweenText(), SpaceAfterInlineComment(), SpaceBeforeComment()], CONTROL)
  }

  function SpaceBetweenText(): Rule {
    Rule(v => NeedsSpace(v), Insert([Whitespace]))
  }

  function SpaceAfterInlineComment(): Rule {
    Rule((v: View) => v.Tok(-1).InlineComment?, Insert([Whitespace]))
  }

  function SpaceBeforeComment(): Rule {
    Rule((v: View) => Is(v.Tok(-1), TEXT) && Is(v.Tok(1), COMMENT), Insert([Whitespace, Whitespace]))
  }

  predicate NeedsSpace(v: View) {
    && Is(v.Tok(-1), TEXT - {CLGrouping})
    && Is(v.Tok(1), TEXT - {CRGrouping})
    && !UnwantedSpace(v, v.Tok(-1), v.Tok(1))
  }

  predicate UnwantedSpace(v: View, prev: Token, next: Token) {
    || next == COLON
    || next == COMMA
    || prev == HYPHEN
    || prev == DOT
    || next == DOT
    || (Is(prev, {CIdentifier}) && Is(next, {CLGrouping}))
    || (Is(prev, {CIdentifier}) && next == ASTERISK)
    || (v.InRule(PatternMod, false) && Is(next, {CLGrouping}))
    || ((v.InRule(PatternMod, false) || v.InRule(HexJump, false)) && (next == HYPHEN || prev == HYPHEN))
  }

  // ----- Alignment markers

  function HexCommentMarkers(): RuleSet {
    RuleSet([OpenBlock(HexPattern), CloseBlock(HexPattern), MarkHexComment()], NONE)
  }

  function EqualSignMarkers(block: Kind, item: Kind): RuleSet {
    RuleSet([OpenBlock(block), CloseBlock(block), SplitBlock(block), MarkEqualSign(item)], NONE)
  }

  function OpenBlock(block: Kind): Rule {
    Rule(v => BlockOpened(v, block), Insert([AlignmentBlockBegin]))
  }

  function CloseBlock(block: Kind): Rule {
    Rule(v => BlockCloses(v, block), Insert([AlignmentBlockEnd]))
  }

  function SplitBlock(block: Kind): Rule {
    Rule(v => EmptyLineIn(v, block), Insert([AlignmentBlockEnd, AlignmentBlockBegin]))
  }

  function MarkHexComment(): Rule {
    Rule(v => UnmarkedHexComment(v), Insert([AlignmentMarker]))
  }

  function MarkEqualSign(item: Kind): Rule {
    Rule(v => UnmarkedEqualSign(v, item), Insert([AlignmentMarker]))
  }

  predicate BlockOpened(v: View, block: Kind) { v.Tok(-1) == Begin(block) }

  predicate BlockCloses(v: View, block: Kind) {
    v.Tok(1) == End(block) && v.Tok(-1) != AlignmentBlockEnd
  }

  predicate EmptyLineIn(v: View, block: Kind) {
    v.InRule(block, false) && v.Tok(-2) == Newline && v.Tok(-1) == Newline
  }

  predicate UnmarkedHexComment(v: View) {
    v.InRule(HexPattern, true) && v.Tok(1).TailComment? && v.Tok(-1) != AlignmentMarker
  }

  predicate UnmarkedEqualSign(v: View, item: Kind) {
    v.InRule(item, false) && v.Tok(1) == EQUAL && v.Tok(-1) != AlignmentMarker
  }

  // ----- All of them are fit

  /** A measure of how far a view is from settling, given its tokens -1, -2 and 1. */
  type Rank = (Token, Token, Token) -> nat

  /** The kind of tokens that a rule set may insert. */
  type Layout = Token -> bool

  predicate Inserts(pass: Category, layout: Layout, ts: seq<Token>) {
    1 <= |ts| <= 2 && forall i :: 0 <= i < |ts| ==> layout(ts[i]) && !Is(ts[i], pass)
  }

  /**
   A rule only inserts layout that is visible, lowering the rank of the view,
   or only drops layout.
   */
  ghost predicate Suits(pass: Category, layout: Layout, rank: Rank, r: Rule) {
    match r.action
    case Insert(ts) =>
      && Inserts(pass, layout, ts)
      && forall v: View :: r.cond(v) ==>
           && rank(ts[|ts| - 1], if |ts| == 1 then v.Tok(-1) else ts[0], v.Tok(1))
              < rank(v.Tok(-1), v.Tok(-2), v.Tok(1)) <= MAX_INSERTIONS
    case Drop => forall v: View :: r.cond(v) ==> IsSpacing(v.Tok(1))
    case Copy => true
  }

  /** Rules that insert one kind of layout, finitely often in a row, and drop only spacing. */
  ghost predicate Fit(s: RuleSet, layout: Layout) {
    && s.Valid() && s.DropsNoBone() && Harmless(s, Items)
    && (forall i, v: View :: 0 <= i < |s.rules| && s.rules[i].action.Drop? && s.rules[i].cond(v) ==>
          IsSpacing(v.Tok(1)))
    && (forall i :: 0 <= i < |s.rules| && s.rules[i].action.Insert? ==>
          Inserts(s.pass, layout, s.rules[i].action.tokens))
  }

  function RankOf(rank: Rank, v: View): nat {
    rank(v.Tok(-1), v.Tok(-2), v.Tok(1))
  }

  lemma AfterOne(s: RuleSet, v: View, t: Token)
    ensures s.After(v, [t]).Tok(-1) == t && s.After(v, [t]).Tok(-2) == v.Tok(-1)
  {
    assert s.RememberAll(v.prev, [t]) == s.RememberAll(s.Remember(v.prev, t), [t][1..]);
  }

  lemma AfterTwo(s: RuleSet, v: View, t: Token, u: Token)
    ensures s.After(v, [t, u]).Tok(-1) == u && s.After(v, [t, u]).Tok(-2) == t
  {
    var prev := s.Remember(v.prev, t);
    assert [t, u][1..] == [u] && [u][1..] == [];
    assert s.RememberAll(v.prev, [t, u]) == s.RememberAll(prev, [u]);
    assert s.RememberAll(prev, [u]) == s.RememberAll(s.Remember(prev, u), [u][1..]);
  }

  lemma RankAfter(s: RuleSet, rank: Rank, v: View, ts: seq<Token>)
    requires 1 <= |ts| <= 2
    ensures RankOf(rank, s.After(v, ts)) ==
            rank(ts[|ts| - 1], if |ts| == 1 then v.Tok(-1) else ts[0], v.Tok(1))
  {
    if |ts| == 1 {
      assert ts == [ts[0]];
      AfterOne(s, v, ts[0]);
    } else {
      assert ts == [ts[0], ts[1]];
      AfterTwo(s, v, ts[0], ts[1]);
    }
  }

  lemma SettlesByRank(s: RuleSet, layout: Layout, rank: Rank)
    requires forall i :: 0 <= i < |s.rules| ==> Suits(s.pass, layout, rank, s.rules[i])
    ensures forall v :: s.Settles(v, MAX_INSERTIONS)
  {
    var bounded: View -> nat := v => if RankOf(rank, v) > MAX_INSERTIONS then 0 else RankOf(rank, v);
    forall i, v | 0 <= i < |s.rules| && s.rules[i].cond(v) && s.rules[i].action.Insert?
      ensures bounded(s.After(v, s.rules[i].action.tokens)) < bounded(v)
    {
      assert Suits(s.pass, layout, rank, s.rules[i]);
      RankAfter(s, rank, v, s.rules[i].action.tokens);
    }
    forall v ensures s.Settles(v, MAX_INSERTIONS) {
      RankBoundsInsertions(s, bounded, v, MAX_INSERTIONS);
    }
  }

  lemma FitByRank(s: RuleSet, layout: Layout, rank: Rank)
    requires layout == IsPlain || layout == IsMark
    requires forall i :: 0 <= i < |s.rules| ==> Suits(s.pass, layout, rank, s.rules[i])
    ensures Fit(s, layout)
  {
    SettlesByRank(s, layout, rank);
    forall i, v: View | 0 <= i < |s.rules| && s.rules[i].action.Drop? && s.rules[i].cond(v)
      ensures IsSpacing(v.Tok(1))
    {
      assert Suits(s.pass, layout, rank, s.rules[i]);
    }
    forall i | 0 <= i < |s.rules| && s.rules[i].action.Insert?
      ensures Inserts(s.pass, layout, s.rules[i].action.tokens)
    {
      assert Suits(s.pass, layout, rank, s.rules[i]);
    }
  }

  const SINGLE_NEWLINE_RANK: Rank := (last, _, _) => if last == Newline then 0 else 1

  const EMPTY_LINE_RANK: Rank := (last, before, _) => if last == Newline && before == Newline then 0 else 1

  const HEADER_RANK: Rank := (last, _, _) => if last == COLON then 1 else 0

  const INDENTATION_RANK: Rank := (last, _, _) =>
    if last == Indentation(-1) then 0 else if last == Indentation(1) then 1 else 2

  const SPACE_RANK: Rank := (last, _, _) => if last == Whitespace then 0 else 1

  function MarkerRank(block: Kind): Rank {
    (last, before, next) =>
      if last == Begin(block) || (last == Newline && before == Newline) then 2
      else if next == End(block) then if last == AlignmentBlockEnd then 0 else 1
      else if last == AlignmentMarker then 0 else 1
  }

  lemma StatementLinesFit()
    ensures Fit(StatementLines(), IsPlain)
  {
    FitByRank(StatementLines(), IsPlain, SINGLE_NEWLINE_RANK);
  }

  lemma NoWhitespaceFit()
    ensures Fit(NoWhitespace(), IsPlain)
  {
    FitByRank(NoWhitespace(), IsPlain, SINGLE_NEWLINE_RANK);
  }

  lemma FewerNewlinesFit()
    ensures Fit(FewerNewlines(), IsPlain)
  {
    FitByRank(FewerNewlines(), IsPlain, SINGLE_NEWLINE_RANK);
  }

  lemma BraceOnOwnLineFit()
    ensures Fit(BraceOnOwnLine(), IsPlain)
  {
    FitByRank(BraceOnOwnLine(), IsPlain, SINGLE_NEWLINE_RANK);
  }

  lemma BraceOnSameLineFit()
    ensures Fit(BraceOnSameLine(), IsPlain)
  {
    FitByRank(BraceOnSameLine(), IsPlain, SINGLE_NEWLINE_RANK);
  }

  lemma EmptyLineBeforeRuleFit()
    ensures Fit(EmptyLineBeforeRule(), IsPlain)
  {
    FitByRank(EmptyLineBeforeRule(), IsPlain, EMPTY_LINE_RANK);
  }

  lemma EmptyLineBeforeHeaderFit()
    ensures Fit(EmptyLineBeforeHeader(), IsPlain)
  {
    FitByRank(EmptyLineBeforeHeader(), IsPlain, EMPTY_LINE_RANK);
  }

  lemma NewlineBeforeHeaderFit()
    ensures Fit(NewlineBeforeHeader(), IsPlain)
  {
    FitByRank(NewlineBeforeHeader(), IsPlain, SINGLE_NEWLINE_RANK);
  }

  lemma NoEmptyLineBeforeFirstHeaderFit()
    ensures Fit(NoEmptyLineBeforeFirstHeader(), IsPlain)
  {
    FitByRank(NoEmptyLineBeforeFirstHeader(), IsPlain, SINGLE_NEWLINE_RANK);
  }

  lemma EmptyLineAfterHeaderFit()
    ensures Fit(EmptyLineAfterHeader(), IsPlain)
  {
    FitByRank(EmptyLineAfterHeader(), IsPlain, HEADER_RANK);
  }

  lemma NewlineAfterHeaderFit()
    ensures Fit(NewlineAfterHeader(), IsPlain)
  {
    FitByRank(NewlineAfterHeader(), IsPlain, HEADER_RANK);
  }

  lemma IdentifierRuleSuits(k: Kind)
    ensures Suits(CONTROL, IsPlain, SINGLE_NEWLINE_RANK, IdentifierAtLineStart(k))
  {}

  lemma RequiredNewlinesFit()
    ensures Fit(RequiredNewlines(), IsPlain)
  {
    var s, rank := RequiredNewlines(), SINGLE_NEWLINE_RANK;
    assert Suits(CONTROL, IsPlain, rank, s.rules[3]) && Suits(CONTROL, IsPlain, rank, s.rules[4]);
    IdentifierRuleSuits(MetaDef);
    IdentifierRuleSuits(PatternDef);
    IdentifierRuleSuits(WithDecl);
    hide Suits;
    FitByRank(s, IsPlain, rank);
  }

  lemma IndentBodyFit()
    ensures Fit(IndentBody(), IsPlain)
  {
    FitByRank(IndentBody(), IsPlain, INDENTATION_RANK);
  }

  lemma IndentSectionsFit()
    ensures Fit(IndentSections(), IsPlain)
  {
    FitByRank(IndentSections(), IsPlain, INDENTATION_RANK);
  }

  lemma IndentHexPatternsFit()
    ensures Fit(IndentHexPatterns(), IsPlain)
  {
    FitByRank(IndentHexPatterns(), IsPlain, INDENTATION_RANK);
  }

  lemma IndentParenthesizedFit()
    ensures Fit(IndentParenthesized(), IsPlain)
  {
    FitByRank(IndentParenthesized(), IsPlain, INDENTATION_RANK);
  }

  lemma IndentWithFit()
    ensures Fit(IndentWith(), IsPlain)
  {
    FitByRank(IndentWith(), IsPlain, INDENTATION_RANK);
  }

  lemma NewlineAfterCommentsFit()
    ensures Fit(NewlineAfterComments(), IsPlain)
  {
    FitByRank(NewlineAfterComments(), IsPlain, SINGLE_NEWLINE_RANK);
  }

  lemma SpaceBetweenTextSuits()
    ensures Suits(CONTROL, IsPlain, SPACE_RANK, SpaceBetweenText())
  {}

  lemma SpaceNearCommentsSuits()
    ensures Suits(CONTROL, IsPlain, SPACE_RANK, SpaceAfterInlineComment())
    ensures Suits(CONTROL, IsPlain, SPACE_RANK, SpaceBeforeComment())
  {}

  lemma SpacingFit()
    ensures Fit(Spacing(), IsPlain)
  {
    hide Suits;
    SpaceBetweenTextSuits();
    SpaceNearCommentsSuits();
    FitByRank(Spacing(), IsPlain, SPACE_RANK);
  }

  lemma OpenBlockSuits(block: Kind)
    ensures Suits(NONE, IsMark, MarkerRank(block), OpenBlock(block))
  {}

  lemma CloseBlockSuits(block: Kind)
    ensures Suits(NONE, IsMark, MarkerRank(block), CloseBlock(block))
  {}

  lemma SplitBlockSuits(block: Kind)
    ensures Suits(NONE, IsMark, MarkerRank(block), SplitBlock(block))
  {}

  lemma BlockRulesSuit(block: Kind)
    ensures Suits(NONE, IsMark, MarkerRank(block), OpenBlock(block))
    ensures Suits(NONE, IsMark, MarkerRank(block), CloseBlock(block))
    ensures Suits(NONE, IsMark, MarkerRank(block), SplitBlock(block))
  {
    hide Suits;
    OpenBlockSuits(block);
    CloseBlockSuits(block);
    SplitBlockSuits(block);
  }

  lemma MarkHexCommentSuits()
    ensures Suits(NONE, IsMark, MarkerRank(HexPattern), MarkHexComment())
  {}

  lemma MarkEqualSignSuits(block: Kind, item: Kind)
    ensures Suits(NONE, IsMark, MarkerRank(block), MarkEqualSign(item))
  {}

  lemma HexCommentMarkersFit()
    ensures Fit(HexCommentMarkers(), IsMark)
  {
    BlockRulesSuit(HexPattern);
    MarkHexCommentSuits();
    FitByRank(HexCommentMarkers(), IsMark, MarkerRank(HexPattern));
  }

  lemma EqualSignMarkersFit(block: Kind, item: Kind)
    ensures Fit(EqualSignMarkers(block, item), IsMark)
  {
    BlockRulesSuit(block);
    MarkEqualSignSuits(block, item);
    FitByRank(EqualSignMarkers(block, item), IsMark, MarkerRank(block));
  }
}
