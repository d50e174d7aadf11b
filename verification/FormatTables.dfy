/**
 The whole formatter in tables: which table is applied under which option, in
 which order, and what the reorderings between them do.
 */
module FormatTables {
  import opened Seqs
  import opened Tokens
  import opened RuleSets
  import opened Formatter
  import opened RuleTables
  import AddingIndentation
  import Alignment
  import BlockMarkers
  import Bubbles
  import Comments
  import HexMarks
  import HexPatterns
  import LevelTables
  import Levels
  import LineEnds
  import LineLevels
  import MarkTables
  import PipelineColumns
  import TrailingSpaces
  import WordSpacing

  // ----- The reorderings

  predicate IsTail(t: Token) { t.TailComment? || t == Newline }

  predicate IsBound(t: Token) { t.Begin? || t.End? }

  /** All tokens but those of one sort. */
  function But(sort: Token -> bool): Token -> seq<Token> { (t: Token) => if sort(t) then [] else [t] }

  /** No `b` comes right behind an `a`. */
  ghost predicate NeverNext(a: Token -> bool, b: Token -> bool, ts: seq<Token>) {
    forall i :: 0 < i < |ts| ==> !(a(ts[i - 1]) && b(ts[i]))
  }

  lemma SettledNeverNext(m: Bubbles.Medium, ts: seq<Token>)
    requires Bubbles.Settled(m, ts)
    ensures NeverNext(m.water, m.air, ts)
  {}

  /** In `out` the tokens `air` have moved up before neighbouring `water`, and nothing else has moved. */
  ghost predicate MovedUp(air: Token -> bool, water: Token -> bool, ts: seq<Token>, out: seq<Token>) {
    && NeverNext(water, air, out)
    && FlatMap(But(air), out) == FlatMap(But(air), ts) && FlatMap(But(water), out) == FlatMap(But(water), ts)
  }

  lemma FlowMovesUp(m: Bubbles.Medium, air: Token -> bool, water: Token -> bool, ts: seq<Token>)
    requires m.Valid() && forall t :: (m.air(t) <==> air(t)) && (m.water(t) <==> water(t))
    ensures MovedUp(air, water, ts, m.Flow([], ts))
  {
    Bubbles.FlowSettles(m, [], ts);
    SettledNeverNext(m, m.Flow([], ts));
    hide FlatMap;
    FlatMapNothing(But(air), []);
    FlatMapNothing(But(water), []);
    Bubbles.FlowPreserves(m, But(air), [], ts);
    Bubbles.FlowPreserves(m, But(water), [], ts);
    assert forall all: seq<Token> :: [] + all == all;
  }

  /**
   Tail comments and newlines move up before the begins and ends of grammar rules,
   ends before newlines, and changes of the level before newlines.
   */
  lemma Reorderings(ts: seq<Token>)
    ensures MovedUp(IsTail, IsBound, ts, TAILS_UP.Flow([], ts))
    ensures MovedUp((t: Token) => t.End?, (t: Token) => t == Newline, ts, ENDS_UP.Flow([], ts))
    ensures MovedUp((t: Token) => t.Indentation?, (t: Token) => t == Newline, ts, INDENTATION_UP.Flow([], ts))
  {
    hide MovedUp;
    MediaOk();
    FlowMovesUp(TAILS_UP, IsTail, IsBound, ts);
    FlowMovesUp(ENDS_UP, (t: Token) => t.End?, (t: Token) => t == Newline, ts);
    FlowMovesUp(INDENTATION_UP, (t: Token) => t.Indentation?, (t: Token) => t == Newline, ts);
  }

  // ----- The stages, in order

  /** Newlines: which there are, which go, and where the brace of a rule stands. */
  ghost function FirstLined(o: Options, ts: seq<Token>): seq<Token> {
    var bare := Edited(NONE, BlankTable, [], ts);
    var moved := ENDS_UP.Flow([], TAILS_UP.Flow([], bare));
    var few := Edited(NONE, NewlineTable, [], moved);
    if o.newlineBeforeCurlyBrace then Edited(NONE, BraceOnOwnLineTable, [], few)
    else Edited(NONE, BraceOnSameLineTable, [], few)
  }

  /** Empty lines, the lines of items and hex patterns. */
  ghost function LastLined(o: Options, ts: seq<Token>): seq<Token> {
    var apart := Edited(NONE, RuleTable, [], ts);
    var before := if o.emptyLineBeforeSectionHeader then Edited(CONTROL, HeaderApartTable, [], apart)
                  else Edited(CONTROL, HeaderTable, [], apart);
    var first := Edited(CONTROL, FirstHeaderTable, [], before);
    var after := if o.emptyLineAfterSectionHeader then Edited(NONE, EmptyLineAfterHeaderTable, [], first)
                 else Edited(NONE, NewlineAfterHeaderTable, [], first);
    HexPatterns.Flow(HexPatterns.START, [], Edited(CONTROL, ItemTable, [], after))
  }

  /** Levels: of the body of a rule and of its sections if the options say so, of the other blocks always. */
  ghost function Leveled(o: Options, ts: seq<Token>): seq<Token> {
    var body := if o.indentSectionHeaders then Edited(COMMENT, LevelTables.LevelTable(Levels.Body), [], ts) else ts;
    var sections := if o.indentSectionContents
                    then Edited(COMMENT, LevelTables.LevelTable(Levels.Sections), [], body) else body;
    var hex := Edited(COMMENT, LevelTables.LevelTable(Levels.Hex), [], sections);
    var parens := Edited(COMMENT, LevelTables.LevelTable(Levels.Parens), [], hex);
    INDENTATION_UP.Flow([], Edited(COMMENT, LevelTables.LevelTable(Levels.With), [], parens))
  }

  ghost function Marked(k: BlockMarkers.Marking, ts: seq<Token>): seq<Token> {
    Alignment.Flow(Edited(NONE, MarkTables.MarkTable(k), [], ts))
  }

  /** Blanks and alignment. */
  ghost function Spread(o: Options, ts: seq<Token>): seq<Token> {
    var spaced := Edited(CONTROL, SpaceTable, [], Edited(CONTROL, CommentTable, [], ts));
    var hex := Marked(BlockMarkers.HexComments, spaced);
    var meta := if o.alignMetadata then Marked(BlockMarkers.EqualSigns(MetaBlk, MetaDef), hex) else hex;
    if o.alignPatterns then Marked(BlockMarkers.EqualSigns(PatternsBlk, PatternDef), meta) else meta
  }

  // ----- The pipeline does this

  lemma One(st: Stage, rest: seq<Stage>, x: seq<Token>)
    requires AllOk([st] + rest)
    ensures StageOk(st) && AllOk(rest) && ApplyAll([st] + rest, x) == ApplyAll(rest, Apply(st, x))
  {
    var all := [st] + rest;
    assert all[0] == st && all[1..] == rest;
    ApplyFirst(all, x);
  }

  lemma Last(st: Stage, x: seq<Token>)
    requires AllOk([st])
    ensures StageOk(st) && ApplyAll([st], x) == Apply(st, x)
  {
    assert [st] + [] == [st];
    One(st, [], x);
  }

  function FirstLines(o: Options): seq<Stage> {
    [ ApplyRules(NoWhitespace()), Reorder(TAILS_UP), Reorder(ENDS_UP), ApplyRules(FewerNewlines()),
      ApplyRules(if o.newlineBeforeCurlyBrace then BraceOnOwnLine() else BraceOnSameLine()) ]
  }

  function LastLines(o: Options): seq<Stage> {
    [ ApplyRules(EmptyLineBeforeRule()),
      ApplyRules(if o.emptyLineBeforeSectionHeader then EmptyLineBeforeHeader() else NewlineBeforeHeader()),
      ApplyRules(NoEmptyLineBeforeFirstHeader()),
      ApplyRules(if o.emptyLineAfterSectionHeader then EmptyLineAfterHeader() else NewlineAfterHeader()),
      ApplyRules(RequiredNewlines()), LayoutHexPatterns ]
  }

  lemma BracesInTables(o: Options, x: seq<Token>)
    requires AllOk([ApplyRules(if o.newlineBeforeCurlyBrace then BraceOnOwnLine() else BraceOnSameLine())])
    ensures
      ApplyAll([ApplyRules(if o.newlineBeforeCurlyBrace then BraceOnOwnLine() else BraceOnSameLine())], x) ==
      if o.newlineBeforeCurlyBrace then Edited(NONE, BraceOnOwnLineTable, [], x)
      else Edited(NONE, BraceOnSameLineTable, [], x)
  {
    BraceOnOwnLineExactly(x);
    BraceOnSameLineExactly(x);
    hide StageOk, BraceOnOwnLine, BraceOnSameLine;
    Last(ApplyRules(if o.newlineBeforeCurlyBrace then BraceOnOwnLine() else BraceOnSameLine()), x);
  }

  lemma FirstLinesInTables(o: Options, x: seq<Token>)
    requires AllOk(FirstLines(o))
    ensures ApplyAll(FirstLines(o), x) == FirstLined(o, x)
  {
    hide StageOk, NoWhitespace, FewerNewlines, BraceOnOwnLine, BraceOnSameLine;
    var last := ApplyRules(if o.newlineBeforeCurlyBrace then BraceOnOwnLine() else BraceOnSameLine());
    var r4 := [last];
    var r3 := [ApplyRules(FewerNewlines())] + r4;
    var r2 := [Reorder(ENDS_UP)] + r3;
    var r1 := [Reorder(TAILS_UP)] + r2;
    assert FirstLines(o) == [ApplyRules(NoWhitespace())] + r1;
    One(ApplyRules(NoWhitespace()), r1, x);
    NoWhitespaceExactly(x);
    var a := Edited(NONE, BlankTable, [], x);
    One(Reorder(TAILS_UP), r2, a);
    var b := TAILS_UP.Flow([], a);
    One(Reorder(ENDS_UP), r3, b);
    var c := ENDS_UP.Flow([], b);
    One(ApplyRules(FewerNewlines()), r4, c);
    FewerNewlinesExactly(c);
    BracesInTables(o, Edited(NONE, NewlineTable, [], c));
  }

  lemma HeadersInTables(o: Options, rest: seq<Stage>, x: seq<Token>)
    requires
      var st := ApplyRules(if o.emptyLineBeforeSectionHeader then EmptyLineBeforeHeader() else NewlineBeforeHeader());
      AllOk([st] + rest)
    ensures
      var st := ApplyRules(if o.emptyLineBeforeSectionHeader then EmptyLineBeforeHeader() else NewlineBeforeHeader());
      && AllOk(rest)
      && ApplyAll([st] + rest, x) ==
         ApplyAll(rest, if o.emptyLineBeforeSectionHeader then Edited(CONTROL, HeaderApartTable, [], x)
                        else Edited(CONTROL, HeaderTable, [], x))
  {
    EmptyLineBeforeHeaderExactly(x);
    NewlineBeforeHeaderExactly(x);
    hide StageOk, EmptyLineBeforeHeader, NewlineBeforeHeader;
    One(ApplyRules(if o.emptyLineBeforeSectionHeader then EmptyLineBeforeHeader() else NewlineBeforeHeader()), rest, x);
  }

  lemma AfterHeadersInTables(o: Options, rest: seq<Stage>, x: seq<Token>)
    requires
      var st := ApplyRules(if o.emptyLineAfterSectionHeader then EmptyLineAfterHeader() else NewlineAfterHeader());
      AllOk([st] + rest)
    ensures
      var st := ApplyRules(if o.emptyLineAfterSectionHeader then EmptyLineAfterHeader() else NewlineAfterHeader());
      && AllOk(rest)
      && ApplyAll([st] + rest, x) ==
         ApplyAll(rest, if o.emptyLineAfterSectionHeader then Edited(NONE, EmptyLineAfterHeaderTable, [], x)
                        else Edited(NONE, NewlineAfterHeaderTable, [], x))
  {
    EmptyLineAfterHeaderExactly(x);
    NewlineAfterHeaderExactly(x);
    hide StageOk, EmptyLineAfterHeader, NewlineAfterHeader;
    One(ApplyRules(if o.emptyLineAfterSectionHeader then EmptyLineAfterHeader() else NewlineAfterHeader()), rest, x);
  }

  lemma LastLinesInTables(o: Options, x: seq<Token>)
    requires AllOk(LastLines(o))
    ensures ApplyAll(LastLines(o), x) == LastLined(o, x)
  {
    hide StageOk, EmptyLineBeforeRule, EmptyLineBeforeHeader, NewlineBeforeHeader, NoEmptyLineBeforeFirstHeader,
      EmptyLineAfterHeader, NewlineAfterHeader, RequiredNewlines;
    var before := ApplyRules(if o.emptyLineBeforeSectionHeader then EmptyLineBeforeHeader() else NewlineBeforeHeader());
    var after := ApplyRules(if o.emptyLineAfterSectionHeader then EmptyLineAfterHeader() else NewlineAfterHeader());
    var r5 := [LayoutHexPatterns];
    var r4 := [ApplyRules(RequiredNewlines())] + r5;
    var r3 := [after] + r4;
    var r2 := [ApplyRules(NoEmptyLineBeforeFirstHeader())] + r3;
    var r1 := [before] + r2;
    assert LastLines(o) == [ApplyRules(EmptyLineBeforeRule())] + r1;
    One(ApplyRules(EmptyLineBeforeRule()), r1, x);
    EmptyLineBeforeRuleExactly(x);
    var a := Edited(NONE, RuleTable, [], x);
    HeadersInTables(o, r2, a);
    var b := if o.emptyLineBeforeSectionHeader then Edited(CONTROL, HeaderApartTable, [], a)
             else Edited(CONTROL, HeaderTable, [], a);
    One(ApplyRules(NoEmptyLineBeforeFirstHeader()), r3, b);
    NoEmptyLineBeforeFirstHeaderExactly(b);
    var c := Edited(CONTROL, FirstHeaderTable, [], b);
    AfterHeadersInTables(o, r4, c);
    var d := if o.emptyLineAfterSectionHeader then Edited(NONE, EmptyLineAfterHeaderTable, [], c)
             else Edited(NONE, NewlineAfterHeaderTable, [], c);
    One(ApplyRules(RequiredNewlines()), r5, d);
    RequiredNewlinesExactly(d);
    Last(LayoutHexPatterns, Edited(CONTROL, ItemTable, [], d));
  }

  lemma NewlinesInTables(o: Options, x: seq<Token>)
    ensures AllOk(NewlineStages(o)) && ApplyAll(NewlineStages(o), x) == LastLined(o, FirstLined(o, x))
  {
    NewlineStagesOk(o);
    assert NewlineStages(o) == FirstLines(o) + LastLines(o);
    hide StageOk, NewlineStages, FirstLines, LastLines;
    BothOk(FirstLines(o), LastLines(o));
    WordSpacing.ApplyAllConcat(FirstLines(o), LastLines(o), x);
    FirstLinesInTables(o, x);
    LastLinesInTables(o, FirstLined(o, x));
  }

  lemma BothOk(a: seq<Stage>, b: seq<Stage>)
    requires AllOk(a + b)
    ensures AllOk(a) && AllOk(b)
  {
    hide StageOk;
    forall i | 0 <= i < |a| ensures StageOk(a[i]) { assert (a + b)[i] == a[i]; }
    forall i | 0 <= i < |b| ensures StageOk(b[i]) { assert (a + b)[|a| + i] == b[i]; }
  }

  // ----- Levels and alignments

  ghost function LeveledBy(bs: seq<Levels.Block>, x: seq<Token>): seq<Token>
    decreases |bs|
  {
    if bs == [] then x else LeveledBy(bs[1..], Edited(COMMENT, LevelTables.LevelTable(bs[0]), [], x))
  }

  lemma {:induction false} LevelsInTables(bs: seq<Levels.Block>, x: seq<Token>)
    requires AllOk(LineLevels.LevelStages(bs))
    ensures ApplyAll(LineLevels.LevelStages(bs), x) == LeveledBy(bs, x)
    decreases |bs|
  {
    hide StageOk, Levels.Block.Rules;
    if bs != [] {
      LevelTables.LevelsExactly(bs[0], x);
      One(ApplyRules(bs[0].Rules()), LineLevels.LevelStages(bs[1..]), x);
      LevelsInTables(bs[1..], Edited(COMMENT, LevelTables.LevelTable(bs[0]), [], x));
    }
  }

  function LeveledOne(b: Levels.Block, x: seq<Token>): seq<Token> {
    Edited(COMMENT, LevelTables.LevelTable(b), [], x)
  }

  lemma LeveledCons(b: Levels.Block, rest: seq<Levels.Block>, x: seq<Token>)
    ensures LeveledBy([b] + rest, x) == LeveledBy(rest, LeveledOne(b, x))
  {
    assert ([b] + rest)[1..] == rest;
  }

  lemma BlocksInTables(o: Options, x: seq<Token>)
    ensures INDENTATION_UP.Flow([], LeveledBy(LineLevels.Chosen(o), x)) == Leveled(o, x)
  {
    var none: seq<Levels.Block> := [];
    var r2 := [Levels.With] + none;
    var r1 := [Levels.Parens] + r2;
    var last := [Levels.Hex] + r1;
    var contents: seq<Levels.Block> := if o.indentSectionContents then [Levels.Sections] else [];
    var a := if o.indentSectionHeaders then LeveledOne(Levels.Body, x) else x;
    var b := if o.indentSectionContents then LeveledOne(Levels.Sections, a) else a;
    assert LineLevels.Chosen(o) == (if o.indentSectionHeaders then [Levels.Body] else []) + (contents + last);
    LeveledCons(Levels.Body, contents + last, x);
    assert [] + (contents + last) == contents + last && [] + last == last;
    LeveledCons(Levels.Sections, last, a);
    LeveledCons(Levels.Hex, r1, b);
    LeveledCons(Levels.Parens, r2, LeveledOne(Levels.Hex, b));
    LeveledCons(Levels.With, none, LeveledOne(Levels.Parens, LeveledOne(Levels.Hex, b)));
    assert LeveledBy(none, LeveledOne(Levels.With, LeveledOne(Levels.Parens, LeveledOne(Levels.Hex, b)))) ==
        LeveledOne(Levels.With, LeveledOne(Levels.Parens, LeveledOne(Levels.Hex, b)));
    hide LeveledBy, Edited, LevelTables.LevelTable;
  }

  ghost function AlignedBy(ks: seq<BlockMarkers.Marking>, x: seq<Token>): seq<Token>
    decreases |ks|
  {
    if ks == [] then x else AlignedBy(ks[1..], Marked(ks[0], x))
  }

  lemma {:induction false} AlignsInTables(ks: seq<BlockMarkers.Marking>, x: seq<Token>)
    requires AllOk(PipelineColumns.Aligns(ks))
    ensures ApplyAll(PipelineColumns.Aligns(ks), x) == AlignedBy(ks, x)
    decreases |ks|
  {
    hide StageOk, BlockMarkers.Marking.Rules;
    if ks != [] {
      MarkTables.MarkingExactly(ks[0], x);
      One(AlignBlocks(ks[0]), PipelineColumns.Aligns(ks[1..]), x);
      AlignsInTables(ks[1..], Marked(ks[0], x));
    }
  }

  lemma AlignedCons(k: BlockMarkers.Marking, rest: seq<BlockMarkers.Marking>, x: seq<Token>)
    ensures AlignedBy([k] + rest, x) == AlignedBy(rest, Marked(k, x))
  {
    assert ([k] + rest)[1..] == rest;
  }

  lemma MarkingsInTables(o: Options, x: seq<Token>)
    ensures
      var hex := Marked(BlockMarkers.HexComments, x);
      var meta := if o.alignMetadata then Marked(BlockMarkers.EqualSigns(MetaBlk, MetaDef), hex) else hex;
      AlignedBy(PipelineColumns.Markings(o), x) ==
      if o.alignPatterns then Marked(BlockMarkers.EqualSigns(PatternsBlk, PatternDef), meta) else meta
  {
    hide Marked;
    var none: seq<BlockMarkers.Marking> := [];
    var patterns := (if o.alignPatterns then [PATTERNS] else []) + none;
    var metas: seq<BlockMarkers.Marking> := if o.alignMetadata then [META] else [];
    assert PipelineColumns.Markings(o) == [BlockMarkers.HexComments] + (metas + patterns);
    var hex := Marked(BlockMarkers.HexComments, x);
    var meta := if o.alignMetadata then Marked(META, hex) else hex;
    AlignedCons(BlockMarkers.HexComments, metas + patterns, x);
    AlignedCons(META, patterns, hex);
    assert [] + patterns == patterns && [] + none == none;
    AlignedCons(PATTERNS, none, meta);
    assert AlignedBy(none, meta) == meta && AlignedBy(none, Marked(PATTERNS, meta)) == Marked(PATTERNS, meta);
  }

  // ----- The formatter

  lemma SpacedInTables(o: Options, ts: seq<Token>)
    ensures HexMarks.Spaced(o, ts) == Edited(CONTROL, SpaceTable, [], Edited(CONTROL, CommentTable, [],
                LineEnds.Early(o, ts)))
  {
    hide LineEnds.Early;
    NewlineAfterCommentsExactly(LineEnds.Early(o, ts));
    SpacingExactly(NewlineAfterComments().Run(LineEnds.Early(o, ts)));
  }

  lemma EarlyInTables(o: Options, ts: seq<Token>)
    ensures
      var comments := Comments.Run(o.tabSize, Edited(NONE, StatementTable, [], ts));
      LineEnds.Early(o, ts) == Leveled(o, LastLined(o, FirstLined(o, comments)))
  {
    var comments := Comments.Run(o.tabSize, Edited(NONE, StatementTable, [], ts));
    PipelineOk(o);
    NewlineStagesOk(o);
    assert LineLevels.Broken(o, ts) ==
           ApplyAll(NewlineStages(o), Comments.Run(o.tabSize, StatementLines().Run(ts)));
    hide StageOk, NewlineStages, LineLevels.Broken, LineEnds.Early, StatementLines;
    StatementLinesExactly(ts);
    NewlinesInTables(o, comments);
    LineLevels.EarlyIsLeveled(o, ts);
    LevelsInTables(LineLevels.Chosen(o), LineLevels.Broken(o, ts));
    BlocksInTables(o, LineLevels.Broken(o, ts));
  }

  lemma SpreadInTables(o: Options, ts: seq<Token>)
    ensures LineLevels.Unindented(o, ts) == Spread(o, LineEnds.Early(o, ts))
  {
    hide LineEnds.Early, HexMarks.Spaced, StageOk, Marked, Edited;
    PipelineColumns.MarkingsAreOk(o);
    PipelineColumns.AlignsOk(PipelineColumns.Markings(o));
    SpacedInTables(o, ts);
    AlignsInTables(PipelineColumns.Markings(o), HexMarks.Spaced(o, ts));
    MarkingsInTables(o, HexMarks.Spaced(o, ts));
  }

  /**
   Formatting, in tables: new lines for statements, then the comments, then
   newlines, levels, blanks and alignment, and at last the margins and the blanks
   at the ends of lines. It is the whole pipeline, for all options and every stream.
   */
  lemma FormatInTables(o: Options, ts: seq<Token>)
    ensures
      var comments := Comments.Run(o.tabSize, Edited(NONE, StatementTable, [], ts));
      var all := Spread(o, Leveled(o, LastLined(o, FirstLined(o, comments))));
      Format(o, ts) == TrailingSpaces.Strip(AddingIndentation.Indent(o.indentation, 0, all))
  {
    hide *;
    LineLevels.FormatIndents(o, ts);
    EarlyInTables(o, ts);
    SpreadInTables(o, ts);
    var z := AddingIndentation.Indent(o.indentation, 0, LineLevels.Unindented(o, ts));
    TrailingSpaces.TrimIsStrip([], z) by { assert TrailingSpaces.Waiting([]) by { NothingWaits(); } }
    assert [] + z == z;
  }

  lemma NothingWaits()
    ensures TrailingSpaces.Waiting([])
  {}
}
