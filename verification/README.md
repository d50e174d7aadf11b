# Verification of YARA-X's self-contained algorithms

This project models the parts of YARA-X that stand on their own and proves what
they promise: the source formatter, the strings that find base64-encoded data,
the JSON printer, the message framing of the language server in a browser
worker, the stream adapters of the Python binding, the parallel directory
walker, the variable stack of the rule compiler and the patch splicer.
`dafny verify dfyconfig.toml` checks everything.

**Formatter.** The formatter is a chain of token transducers. Each one is a
class with the buffers and flags of the source, proved against a function on
whole token sequences: `Next` returns the first token of what the function
says is still to come. The functions are composed in `Formatter.dfy`, and the
main theorems are about the composition: formatting keeps the program
(`FormattingKeepsProgram`), changes white space only
(`FormattingChangesOnlySpace`), does not glue words together
(`FormattingKeepsWordsApart`) and never puts text behind a line comment
(`NothingBehindLineComments`). The rule engine is generic: a rule is a
condition on the window and the stack with an action that copies, drops or
inserts; all the rule sets of `format_impl` are written out in `RuleSets.dfy`,
and `RuleEffects.dfy` proves for each of them what holds in its output.
`RuleTables.dfy`, `LevelTables.dfy` and `MarkTables.dfy` say exactly what each of
them changes, in tables that do not use the rules, and `FormatTables.dfy` composes
the tables to the whole pipeline (`FormatInTables`).

| file | part |
|---|---|
| `Tokens.dfy` | tokens, categories, what a stream says, nesting |
| `Processor.dfy`, `Preservation.dfy`, `RuleSets.dfy`, `RuleEffects.dfy`, `NewlineRuns.dfy` | the rule engine, what harmless rules keep, the rule sets, what each of them achieves, alone and after the ones before |
| `RuleTables.dfy`, `LevelTables.dfy`, `MarkTables.dfy`, `FormatTables.dfy` | the changes of each rule set, and the whole pipeline, as tables that share nothing with the rules |
| `Comments.dfy`, `CommentClasses.dfy`, `CommentMerging.dfy`, `CommentLayout.dfy` | the comment automaton, which comments it joins and with which class, what stays in place around them |
| `Bubble.dfy`, `HexPatterns.dfy`, `Align.dfy`, `Indentation.dfy`, `TrailingSpaces.dfy` | the other stages |
| `BlockMarkers.dfy`, `HexMarks.dfy`, `AlignedColumns.dfy`, `AlignedTrace.dfy`, `FinalColumns.dfy`, `PipelineColumns.dfy` | alignment marks are well bracketed and alone on their lines, where they stand in the written text, what alignment inserts, where the marks end up |
| `Formatter.dfy`, `FormatterRun.dfy`, `WordSpacing.dfy`, `LineEnds.dfy`, `LineStarts.dfy`, `Levels.dfy`, `LineLevels.dfy`, `TextSpacing.dfy`, `FormattedSpacing.dfy`, `Writer.dfy` | the pipeline, its run, what holds for its lines, and the text it writes |
| `Base64.dfy` | base64 patterns, section 4 of RFC 4648 |
| `JsonText.dfy`, `JsonPrinter.dfy`, `JsonLayout.dfy` | a parser for RFC 8259, the printer and what its output looks like |
| `LspFraming.dfy`, `LspFrames.dfy` | `Content-Length` framing, "Base Protocol" of the Language Server Protocol 3.17 |
| `Utf8.dfy`, `CodePoints.dfy`, `PyIo.dfy` | UTF-8 (sections 3 and 4 of RFC 3629) and the Python stream adapters |
| `Walk.dfy`, `WalkMessages.dfy` | the parallel walker as a system of steps, and what is said during a walk |
| `VarStack.dfy` | the variable stack |
| `Fix.dfy` | collecting and applying patches |
| `Seqs.dfy`, `Bytes.dfy`, `Decimal.dfy` | shared helpers |

What the input of the formatter has to satisfy (`Formatter.Source`) is what the
parser guarantees: Begin and End tokens are well nested; `META_BLK`,
`PATTERNS_BLK` and `HEX_PATTERN` are neither empty nor nested in themselves and
enclose their items; comments are raw and not empty.

Where the code does not do what one would expect, the code is modelled as it is
and the exact condition is proved:

- the alignment promises to put the marks of a block at one column, but it counts
  a processed comment as nothing, and a string of several lines by its length:
  `$a /*c*/ = "x"` and `$b = "y"` do not get aligned equal signs. The marks share a
  written column if and only if what is not counted before them on their lines is
  equally wide (`WrittenAlignedExactly`, `OnePerLineAlignedExactly`,
  `CommentBeforeMark`), also in the formatted program, where later alignments and
  margins move them (`FormattedColumns`, `FormattedColumnsExactly`);
- two alignment marks on one line are in general not aligned
  (`MarkersAligned` says when they are, `TwoOnALineAreNotAligned` shows one
  case);
- the further lines of a comment are indented by what `write_to` keeps as the
  width of the text before it. That misses the column of its first line if and only
  if the difference is not 0 (`CommentLinesAlign`): a comment before it on the line
  adds the width of its last line, and a token with a line feed in it, such as a
  string of several lines, is taken by its whole length instead of its last line
  (`CommentAfterComment`, `CommentAfterString`);
- a newline between the start of a hex pattern and its opening brace prevents the
  newline after the brace (`NewlineAfterBraceExactly`, `EarlyNewlineIsNotFixed`);
- comments of one line are merged into several lines although no newline separates
  them, because the column is advanced past the comment that opens a group but
  not past the next ones: of `/*a*//*b*//*c*/` the last two are merged, of
  `/*a*//*b*/` none. Two neighbours are merged if and only if the blanks between
  them have width 0 and the first one does not open a comment
  (`OnOneLineJoinedExactly`, `ThirdCommentMerges`);
- an unsigned 64-bit number from 2^63 on is printed as a negative number
  (`UnsignedIsKept`, `LargestUnsigned`);
- with zero threads, which `num_threads` accepts and the command line refuses, the
  walker blocks for good if and only if there are more than 128 files
  (`BlocksExactly`), and otherwise returns without processing any
  (`FinishedWithoutWorkers`);
- the check for a double free in the variable stack only fires if the live frames
  end before the frame that is closed again; otherwise frames that end later lose
  their place, and nothing happens if and only if the stack was used up to its
  start (`SecondUnwindExactly`, `DoubleFreeGoesUnnoticed`).

## Model

| member | source | states |
|---|---|---|
| `Formatter.FormattingKeepsProgram` | fmt/src/lib.rs:422-923 | for every option setting and every stream the parser can give, the whole pipeline leaves the text tokens, the comment lines between them and the Begin/End tokens as they were, and its output is still well nested |
| `Writer.FormattingChangesOnlySpace` | fmt/src/lib.rs:404-406 | the text written for the formatted program is the text of the input once spaces, tabs and line ends are taken out of both |
| `WordSpacing.FormattingKeepsWordsApart` | fmt/src/lib.rs:1368-1448 | in the final output two keywords, identifiers or literals never touch, also after alignment, indentation and the removal of trailing spaces |
| `FormatterRun.FormatImpl` | fmt/src/lib.rs:422-923 | the composed iterators produce exactly the specified stream, so no nesting assertion, `unwrap` or `unreachable!` of a stage is reached, and the run ends |
| `FormatterRun.FormatText` | fmt/src/lib.rs:376-417 | formatting and writing give a text that differs from that of the input in white space only |
| `Processors.Processor.Next` | fmt/src/processor/mod.rs:109-146 | the iterator over a three-token window returns, token by token, what unbounded rewriting of (whole output so far, whole remaining input) gives; it ends exactly when that does |
| `Processors.Processor.ContextIsLook` | fmt/src/processor/mod.rs:241-262 | what conditions see through the window, the output history and the stack is what they would see in the full output and the full rest |
| `Processors.Processor.Advance` | fmt/src/processor/mod.rs:383-425 | pass-through tokens go to the output once and in order, the window is refilled, and the iterator only stops when nothing is left to return |
| `Processors.Processor.PushOutputToken` | fmt/src/processor/mod.rs:194-230 | the stack always holds the rules that are open in the output, and the popped rule is the one that the End token closes |
| `Processors.Processor.PopInputToken` | fmt/src/processor/mod.rs:184-192 | takes the next token of the remaining input and nothing else |
| `Processors.RankBoundsInsertions` | fmt/src/processor/mod.rs:109-146 | when every insertion lowers a rank, the number of insertions before the next input token is at most the rank |
| `Processors.BoundIsIrrelevant` | fmt/src/processor/mod.rs:109-146 | what is inserted and whether the token is dropped does not depend on the bound used |
| `Processors.RewriteExtends` | fmt/src/processor/mod.rs:109-146 | what was written is never taken back |
| `Preservation.RewritePreserves` | fmt/src/processor/mod.rs:434-497 | rules that insert and drop only tokens without meaning leave the meaning of the stream unchanged, for any projection |
| `Preservation.RunPreserves` | fmt/src/processor/mod.rs:434-497 | such rules keep the text, the comment lines and the nesting of a whole stream |
| `RuleSets.StatementLinesFit` | fmt/src/lib.rs:428-476 | these rules drop and insert spacing only, never drop a Begin or End token, and insert at most twice before the next token is consumed |
| `RuleSets.NoWhitespaceFit` | fmt/src/lib.rs:484-487 | these rules drop and insert spacing only, never drop a Begin or End token, and insert at most twice before the next token is consumed |
| `RuleSets.FewerNewlinesFit` | fmt/src/lib.rs:552-606 | these rules drop and insert spacing only, never drop a Begin or End token, and insert at most twice before the next token is consumed |
| `RuleSets.BraceOnOwnLineFit` | fmt/src/lib.rs:612-622 | these rules drop and insert spacing only, never drop a Begin or End token, and insert at most twice before the next token is consumed |
| `RuleSets.BraceOnSameLineFit` | fmt/src/lib.rs:626-637 | these rules drop and insert spacing only, never drop a Begin or End token, and insert at most twice before the next token is consumed |
| `RuleSets.EmptyLineBeforeRuleFit` | fmt/src/lib.rs:642-662 | these rules drop and insert spacing only, never drop a Begin or End token, and insert at most twice before the next token is consumed |
| `RuleSets.EmptyLineBeforeHeaderFit` | fmt/src/lib.rs:672-692 | these rules drop and insert spacing only, never drop a Begin or End token, and insert at most twice before the next token is consumed |
| `RuleSets.NewlineBeforeHeaderFit` | fmt/src/lib.rs:700-720 | these rules drop and insert spacing only, never drop a Begin or End token, and insert at most twice before the next token is consumed |
| `RuleSets.NoEmptyLineBeforeFirstHeaderFit` | fmt/src/lib.rs:730-745 | these rules drop and insert spacing only, never drop a Begin or End token, and insert at most twice before the next token is consumed |
| `RuleSets.EmptyLineAfterHeaderFit` | fmt/src/lib.rs:749-772 | these rules drop and insert spacing only, never drop a Begin or End token, and insert at most twice before the next token is consumed |
| `RuleSets.NewlineAfterHeaderFit` | fmt/src/lib.rs:780-806 | these rules drop and insert spacing only, never drop a Begin or End token, and insert at most twice before the next token is consumed |
| `RuleSets.RequiredNewlinesFit` | fmt/src/lib.rs:812-855 | these rules drop and insert spacing only, never drop a Begin or End token, and insert at most twice before the next token is consumed |
| `RuleSets.IndentSectionsFit` | fmt/src/lib.rs:947-1023 | these rules change spacing and indentation levels only and settle after at most two insertions |
| `RuleSets.IndentBodyFit` | fmt/src/lib.rs:1025-1076 | these rules change spacing and indentation levels only and settle after at most two insertions |
| `RuleSets.IndentParenthesizedFit` | fmt/src/lib.rs:1078-1120 | these rules change spacing and indentation levels only and settle after at most two insertions |
| `RuleSets.IndentWithFit` | fmt/src/lib.rs:1122-1166 | these rules change spacing and indentation levels only and settle after at most two insertions |
| `RuleSets.IndentHexPatternsFit` | fmt/src/lib.rs:1168-1237 | these rules change spacing and indentation levels only and settle after at most two insertions |
| `RuleSets.NewlineAfterCommentsFit` | fmt/src/lib.rs:891-901 | these rules change spacing and indentation levels only and settle after at most two insertions |
| `RuleSets.SpacingFit` | fmt/src/lib.rs:1368-1448 | these rules change spacing and indentation levels only and settle after at most two insertions |
| `RuleSets.HexCommentMarkersFit` | fmt/src/lib.rs:1341-1360 | the rules that mark comments in hex patterns insert alignment marks only and settle |
| `RuleSets.EqualSignMarkersFit` | fmt/src/lib.rs:1265-1300 | the rules that mark equal signs insert alignment marks only and settle |
| `RuleSets.SettlesByRank` | fmt/src/processor/mod.rs:109-146 | every rule set of the formatter makes at most two insertions in a row from any state of the window |
| `RuleEffects.RunObeysOn` | fmt/src/processor/mod.rs:109-146 | a condition on the place of a token that the rules see to whenever they insert or copy one holds for every visible token of the output, whatever the input |
| `RuleEffects.StatementsStartLines` | fmt/src/lib.rs:428-476 | in the output of these rules every import, include and rule starts a line |
| `RuleEffects.BlanksAreGone` | fmt/src/lib.rs:484-487 | no blank of the source is left |
| `RuleEffects.NewlinesAreFew` | fmt/src/lib.rs:552-606 | no newline at the start of the file, among or after tags and modifiers, and never three newlines in a row |
| `RuleEffects.BracesStartLines` | fmt/src/lib.rs:608-622 | with `newline_before_curly_brace` the opening brace of a rule starts a line |
| `RuleEffects.BracesFollowText` | fmt/src/lib.rs:623-637 | without it the opening brace of a rule does not start a line, if no three newlines come in a row in the input of these rules; the next row shows that none do |
| `RuleEffects.BracesFollowTextInPipeline` | fmt/src/lib.rs:552-637 | the same for every stream, with the rules that remove newlines applied before as in the pipeline |
| `RuleEffects.RulesAreApart` | fmt/src/lib.rs:642-662 | a rule that starts a line comes after an empty line or a comment |
| `RuleEffects.HeadersAreApart` | fmt/src/lib.rs:664-692 | with `empty_line_before_section_header` every section header comes after an empty line |
| `RuleEffects.HeadersHaveOneNewline` | fmt/src/lib.rs:693-720 | without it every section header comes after exactly one newline, if no three newlines come in a row in the input of these rules; `HeadersInPipeline` shows that none do |
| `RuleEffects.FirstHeadersAreClose` | fmt/src/lib.rs:730-745 | no empty line separates the opening brace of a rule from its first section header, on the same condition |
| `RuleEffects.HeadersHaveEmptyLines` | fmt/src/lib.rs:746-772 | with `empty_line_after_section_header` every section header is followed by an empty line |
| `RuleEffects.HeadersEndLines` | fmt/src/lib.rs:773-806 | without it every section header ends its line and no empty line follows |
| `RuleEffects.ItemsStartLines` | fmt/src/lib.rs:812-855 | every meta definition, pattern definition and declaration, and the closing brace of a rule, starts a line, in the output of these rules |
| `LineStarts.FormattedItemsStartLines` | fmt/src/lib.rs:812-923 | the same in the formatted program, for every stream and all options: only blanks and control tokens come between a newline and what starts a line |
| `LineStarts.RewriteIsMore` | fmt/src/processor/mod.rs:109-146 | rules that only insert newlines give the input with newlines added |
| `LineStarts.LayoutIsMore` | fmt/src/format_hex_patterns.rs:39-116 | the layout of hex patterns adds newlines and does nothing else |
| `RuleEffects.FileEndsLine` | fmt/src/lib.rs:812-855 | a stream ends with a newline if and only if its last token is one or is hidden from the rules, as the End token of the whole file is |
| `RuleEffects.BodiesAreIndented` | fmt/src/lib.rs:1025-1076 | the level rises after the opening brace of a rule and falls before the closing one |
| `RuleEffects.SectionsAreIndented` | fmt/src/lib.rs:947-1023 | the level rises by one after the colon of a section header, unless the section ends right there, and falls by one at the end of the section |
| `RuleEffects.HexPatternsAreIndented` | fmt/src/lib.rs:1168-1237 | the level rises after the opening brace of a hex pattern and falls before the closing one |
| `RuleEffects.ExpressionsAreIndented` | fmt/src/lib.rs:1078-1120 | the level rises after an opening parenthesis of an expression and falls before the closing one |
| `RuleEffects.WithExpressionsAreIndented` | fmt/src/lib.rs:1122-1166 | the level rises by one after `with`, unless the expression ends right there, and falls by one at its end |
| `RuleEffects.CommentsEndLines` | fmt/src/lib.rs:891-901 | a head, tail or block comment is followed by a newline, in the output of this rule |
| `RuleEffects.TokensAreSpaced` | fmt/src/lib.rs:1368-1448 | no two tokens that need a space are next to each other, an inline comment is followed by a space, and no comment directly follows text; `NeighboursAreSpaced` says which ones need one |
| `FormattedSpacing.NeighboursAreSpaced` | fmt/src/lib.rs:1368-1448 | for every source and all options: two text tokens of the formatted program with only blanks and control tokens between them have no blank between them if the second one is `:`, `,`, `.`, `)` or `]`, if the first one is `.`, `-`, `(` or `[`, between an identifier and `(`, `[` or `*`, before `(` or `[` in a pattern modifier, and before `-` in a pattern modifier or a hex jump; otherwise exactly one, or more before an equal sign that is aligned |
| `FormattedSpacing.CommentsAreSetOff` | fmt/src/lib.rs:1368-1448 | in the formatted program exactly two blanks come between text and a comment on the same line, or more if it is an aligned comment of a hex pattern |
| `FormattedSpacing.FormattedIsSpaced` | fmt/src/lib.rs:484-923 | both, and the one blank behind inline comments, as one condition on the whole formatted stream; no blank comes from the source |
| `FormattedSpacing.NoTrailingBlanks` | fmt/src/trailing_spaces.rs:25-71 | in the formatted program no space or tab comes before a newline, with nothing but blanks and control tokens between them |
| `FormatTables.FormatInTables` | fmt/src/lib.rs:422-923 | for all options and every stream, the pipeline is the composition of the tables below, in this order and under these options, with the reorderings, the comments, the hex patterns, the alignment and the margins |
| `FormatTables.Reorderings` | fmt/src/lib.rs:534-550 | tail comments and newlines move up before begins and ends of grammar rules, ends before newlines, level changes before newlines; after that none follows, and the order of everything else is kept |
| `RuleTables.RunIsEdited` | fmt/src/processor/mod.rs:109-146 | rewriting by rules that a table describes is editing by the table, place by place: what goes before each token, and whether it stays, depends on the last three tokens of the whole output, the next three of the whole input and the grammar rules around the place |
| `RuleTables.ControlTokens` | fmt/src/tokens/mod.rs:90-100 | which tokens the rules do not see |
| `RuleTables.StatementLinesExactly` | fmt/src/lib.rs:428-476 | a newline goes before imports, includes and rules that are not first and do not follow a newline, and nowhere else |
| `RuleTables.NoWhitespaceExactly` | fmt/src/lib.rs:484-487 | spaces and tabs go, everything else stays |
| `RuleTables.FewerNewlinesExactly` | fmt/src/lib.rs:552-606 | exactly which newlines go: at the start, among and right after tags and modifiers, before two others, and after another at the end |
| `RuleTables.BraceOnOwnLineExactly` | fmt/src/lib.rs:608-622 | a newline goes before an opening brace of a rule that does not follow one, and nowhere else |
| `RuleTables.BraceOnSameLineExactly` | fmt/src/lib.rs:623-637 | exactly the newlines before the opening brace of a rule go, two at most |
| `RuleTables.EmptyLineBeforeRuleExactly` | fmt/src/lib.rs:642-662 | a second newline goes before a rule behind a newline that follows neither a newline nor a comment, and nowhere else |
| `RuleTables.EmptyLineBeforeHeaderExactly` | fmt/src/lib.rs:664-692 | two newlines, or the one that is missing, go before section headers, and nowhere else |
| `RuleTables.NewlineBeforeHeaderExactly` | fmt/src/lib.rs:693-720 | a newline goes before section headers without one, a second newline before them goes, and nothing else changes |
| `RuleTables.NoEmptyLineBeforeFirstHeaderExactly` | fmt/src/lib.rs:730-745 | exactly the second newline between an opening brace and a section header goes |
| `RuleTables.EmptyLineAfterHeaderExactly` | fmt/src/lib.rs:746-772 | two newlines, or the one that is missing, go after section headers, and nowhere else |
| `RuleTables.NewlineAfterHeaderExactly` | fmt/src/lib.rs:773-806 | a newline goes after section headers without one, a second newline after them goes, and nothing else changes |
| `RuleTables.RequiredNewlinesExactly` | fmt/src/lib.rs:812-855 | a newline goes before the identifiers of meta definitions, pattern definitions and declarations, before the closing brace of a rule, and at the end, unless there is one, and nowhere else |
| `RuleTables.NewlineAfterCommentsExactly` | fmt/src/lib.rs:891-901 | a newline goes behind head, tail and block comments without one, and nowhere else |
| `RuleTables.SpacingExactly` | fmt/src/lib.rs:1368-1448 | exactly where one space, two or none go |
| `LevelTables.LevelsExactly` | fmt/src/lib.rs:947-1237 | for each of the five rule sets: the level rises behind its openers and falls before its closers, unless it has just fallen, and nowhere else |
| `MarkTables.MarkingExactly` | fmt/src/lib.rs:1239-1366 | for each of the three alignments: where blocks begin and end and which tokens are marked |
| `RuleEffects.EqualSignsAreMarked` | fmt/src/lib.rs:1265-1300 | every equal sign of an item of the block is marked for alignment |
| `RuleEffects.HexCommentsAreMarked` | fmt/src/lib.rs:1341-1360 | every tail comment in a hex pattern is marked for alignment |
| `LineEnds.FormattedLinesEnd` | fmt/src/lib.rs:891-923 | in the formatted program every head, tail and block comment gets a newline before any other text or comment, for every stream and all options |
| `LineEnds.CommentsAreFollowedByNewlines` | fmt/src/lib.rs:891-923 | place by place: after such a comment come control tokens only and then a newline, without blanks in between, or nothing more is left than blanks |
| `LineEnds.FormattedCommentsAreGroups` | fmt/src/lib.rs:422-923 | the comment tokens of the formatted program are exactly the groups made from the raw comments, in order, with their lines and their class |
| `LineEnds.LineCommentsNeedNewlines` | fmt/src/comments.rs:156-306 | if every `//` comment of the source runs to the end of its line, as the tokenizer makes them, a group that ends in one is a tail or block comment |
| `LineEnds.NothingBehindLineComments` | fmt/src/lib.rs:422-923 | for every such source and all options: the comment tokens of the formatted program are those of the groups, one by one, and behind each whose group ends in a `//` comment there is, control tokens aside, a newline or nothing but blanks |
| `LineEnds.SpacingStagesSee` | fmt/src/lib.rs:891-923 | from the newlines after comments on, the stages add, drop and move nothing but blanks, level changes and marks, for any projection |
| `NewlineRuns.BeforeHeadersIsBounded` | fmt/src/lib.rs:534-662 | after the two reorderings and the rules for newlines, braces and rules, no control token stands between two newlines and no three newlines come in a row, control tokens aside; if braces go to lines of their own, provided that no grammar rule begins between the name of a rule and its brace |
| `NewlineRuns.HeadersInPipeline` | fmt/src/lib.rs:422-745 | for every source whose control tokens are Begin and End tokens, as the parser makes them, and all options, on the same proviso: in the pipeline a section header comes after exactly one newline, unless an empty line is asked for, and no empty line separates the first header of a rule from the brace |
| `NewlineRuns.FirstHeadersAreCloseInPipeline` | fmt/src/lib.rs:534-745 | the second half, for every stream of text, comments, newlines and grammar rules |
| `NewlineRuns.RewriteIsSteady` | fmt/src/processor/mod.rs:109-146 | rules that drop newlines, or add one next to a newline before the begin of a rule or between text and a brace, keep runs of newlines whole and short |
| `Bubbles.Bubble.Next` | fmt/src/bubble.rs:139-166 | the buffers implement the specified reordering, token by token |
| `Bubbles.FlowIsSorted` | fmt/src/bubble.rs:139-166 | the streaming reordering is the stable partition of every segment between barriers: all air, then all water |
| `Bubbles.FlowKeepsOrder` | fmt/src/bubble.rs:139-166 | the order of all tokens but the water, and of all tokens but the air, is kept |
| `Bubbles.FlowPermutes` | fmt/src/bubble.rs:139-166 | the output is a permutation of the input |
| `Bubbles.FlowSettles` | fmt/src/bubble.rs:139-166 | in the output no air token follows water within a segment |
| `Bubbles.FlowIsIdempotent` | fmt/src/bubble.rs:139-166 | a second application changes nothing |
| `Comments.SplitCommentLines` | fmt/src/comments.rs:375-404 | the loop over characters removes from each line of the comment the indentation that `OutdentExactly` describes |
| `Comments.OutdentExactly` | fmt/src/comments.rs:384-401 | for every line, indentation and tab size: what is removed is the shortest run of leading spaces and tabs whose width reaches the indentation, or all of them if they are narrower, and nothing if the line ends with them |
| `Comments.SomeIndents` | fmt/src/comments.rs:384-401 | every line has such a run, so `OutdentExactly` is about every line |
| `Comments.NothingToOutdent` | fmt/src/comments.rs:384-401 | an indentation of 0 removes nothing |
| `Comments.LinesExactly` | fmt/src/comments.rs:375-404 | the lines of a comment are what is left of its text without the line terminators, each of which takes the `\r` before it |
| `CommentLayout.CommentsStayInPlace` | fmt/src/comments.rs:156-354 | for every stream of raw comments: text, newlines and comments come out in place, with each group where its raw comments were; only the newlines inside of a group are gone, and a comment at the very end gets one |
| `Comments.SplitKeepsLines` | fmt/src/comments.rs:375-404 | splitting a comment keeps its lines, up to leading spaces and tabs |
| `Comments.RunPreserves` | fmt/src/comments.rs:156-306 | the comment automaton keeps the text, the comment lines up to leading blanks, in order, and the Begin/End tokens; `ClassesSayNewlines` pins down the blanks |
| `Comments.CommentProcessor.ProcessInputBuffer` | fmt/src/comments.rs:156-306 | the loop over the buffered tokens computes the specified automaton |
| `Comments.CommentProcessor.Next` | fmt/src/comments.rs:315-354 | the iterator returns what the automaton makes of each run of comments, newlines and blanks |
| `CommentClasses.NoRawComments` | fmt/src/comments.rs:156-354 | no raw comment is left in the processed stream, whatever the input |
| `CommentClasses.CommentsAreGroups` | fmt/src/comments.rs:120-354 | the comments of the processed stream are exactly the tokens of the groups, in order |
| `CommentClasses.ClassesSayNewlines` | fmt/src/comments.rs:120-354 | for whole streams: every raw comment is in one group, no group spans text or an empty line, its lines are the split lines of its raw comments from first to last at its column, and the class says exactly whether a newline or the start of the file comes before the first of them and a newline or the end of the file after the last one |
| `CommentLayout.ClassesExactly` | fmt/src/comments.rs:120-306 | for every group of every stream: a block comment has a newline before and after it, a head comment only before, a tail comment only after, an inline comment neither |
| `CommentClasses.LastOnLineTrails` | fmt/src/comments.rs:209-306 | a group whose last raw comment ends its line has a class that ends a line |
| `CommentMerging.CommentHasGroup` | fmt/src/comments.rs:156-306 | every raw comment is in exactly one group, and its column, in the count of the automaton, is that of the group |
| `CommentMerging.JoinedExactly` | fmt/src/comments.rs:209-306 | of two neighbouring comments without text in between, the second joins the group of the first if and only if no empty line separates them and it stands at the column of the group |
| `CommentMerging.OnOneLineJoinedExactly` | fmt/src/comments.rs:188-306 | two neighbouring comments of one line are joined if and only if the blanks between them have width 0 and the first one is not a comment that opens one, which is when no other comes before it, or only beyond text or an empty line |
| `CommentMerging.OnNextLineJoinedExactly` | fmt/src/comments.rs:209-306 | two neighbouring comments on consecutive lines are joined if and only if the blanks before the second reach the column of the group |
| `CommentMerging.ThirdCommentMerges` | fmt/src/comments.rs:188-306 | of three comments with nothing in between the first stays alone and the other two become one: a concrete stream |
| `HexPatterns.FormatHexPatterns.Next` | fmt/src/format_hex_patterns.rs:39-116 | the flags and the buffer implement the specified layout, token by token |
| `HexPatterns.PatternLayout` | fmt/src/format_hex_patterns.rs:39-116 | what becomes of one hex pattern: everything up to the opening brace is kept, the body is laid out, and what follows is processed as if it stood alone |
| `HexPatterns.BodyExactly` | fmt/src/format_hex_patterns.rs:60-110 | exactly which newlines are added between the braces: at the start if the body spans several lines and no newline came before the brace, at the end if there was any newline, and never next to another |
| `HexPatterns.PatternInStream` | fmt/src/format_hex_patterns.rs:39-116 | the same for a pattern anywhere in a stream, whatever the state before it; what follows is processed as from outside of any pattern |
| `HexPatterns.OutsidePatterns` | fmt/src/format_hex_patterns.rs:39-116 | outside of hex patterns nothing changes |
| `HexPatterns.BodyEnds` | fmt/src/format_hex_patterns.rs:60-110 | with no newline before the brace, a body of several lines gets a newline at both ends and a body in one line is unchanged; only newlines are added |
| `HexPatterns.NewlineAfterBraceExactly` | fmt/src/format_hex_patterns.rs:60-110 | in a pattern of several lines a newline comes right after the opening brace if and only if one was there or none came between the start of the pattern and the brace |
| `HexPatterns.EarlyNewlineIsNotFixed` | fmt/src/format_hex_patterns.rs:60-110 | a block comment and a newline before the opening brace prevent the newline after it: a concrete stream of tokens |
| `HexPatterns.BufferingOnlyDelays` | fmt/src/format_hex_patterns.rs:39-116 | the flag that is never reset only delays tokens: the output does not depend on it |
| `Alignment.Align.Next` | fmt/src/align.rs:58-122 | the iterator pads and unmarks the blocks as specified; on well-bracketed marks it neither reaches `unreachable!` nor ends early |
| `Alignment.MarkersAligned` | fmt/src/align.rs:58-122 | in the columns that the code counts, where a processed comment has width 0: after padding all markers of a block stand at the largest of their columns, if and only if no marker short of that column is followed by another one on its line |
| `Alignment.OnePerLineIsStraight` | fmt/src/align.rs:58-122 | one marker per line is enough for that, in the counted columns |
| `Alignment.TwoOnALineAreNotAligned` | fmt/src/align.rs:58-122 | two markers on one line that are not aligned: a concrete block, which `Align` accepts although the marking rules make none |
| `Alignment.ColumnIsLeast` | fmt/src/align.rs:58-122 | no padding aligns the markers of a block at a smaller counted column |
| `Alignment.FlowPreserves` | fmt/src/align.rs:58-122 | apart from spaces and marks nothing is added or lost, for any projection |
| `AlignedColumns.WrittenColumns` | fmt/src/align.rs:7-122 | the written column of every mark of an aligned block, for every block and every text before it: the counted maximum plus its excess, which is what is not counted on its line |
| `AlignedColumns.WrittenAlignedExactly` | fmt/src/align.rs:7-122 | for every block and whatever comes before it, the marks share a written column if and only if their excesses are equal: last lines of comments, what strings of several lines are counted too much, padding of earlier marks on the line and, on the first line, what precedes the block |
| `AlignedColumns.OnePerLineAlignedExactly` | fmt/src/align.rs:7-122 | with one mark per line: if and only if the same width that is not counted comes before the marks on their lines |
| `AlignedColumns.WrittenColumnIsLeast` | fmt/src/align.rs:7-122 | then no other padding aligns the marks at a smaller written column |
| `AlignedColumns.CommentBeforeMark` | fmt/src/align.rs:58-122 | a comment before one of two equal signs, spaced as the spacing rules do, puts the marks at the written columns 10 and 5: a concrete block |
| `PipelineColumns.FormattedColumns` | fmt/src/lib.rs:903-923 | for every source, all options and each of the alignments: the column in the formatted program of every mark is the column that its block was aligned to, plus its excess, plus the spaces of later alignments and the margin before it on its line |
| `PipelineColumns.FormattedColumnsExactly` | fmt/src/align.rs:7-122 | two marks of a block share a column of the formatted program if and only if these additions are equal; with one mark per line and equal moves by later stages, if and only if the same width that is not counted comes before them |
| `PipelineColumns.LaterColumn` | fmt/src/lib.rs:903-923 | what any sequence of alignments, the indentation and the removal of trailing blanks do to the column of what follows any prefix |
| `PipelineColumns.TextAfterMark` | fmt/src/lib.rs:1265-1360 | no line ends right after a mark |
| `FinalColumns.FinalColumn` | fmt/src/indentation.rs:41-85 | adding the indentation moves what follows any prefix by the margin of its line, or not at all behind a string of several lines, and the removal of trailing blanks does not move it |
| `HexMarks.MarksAreFollowed` | fmt/src/lib.rs:1256-1360 | every mark is followed by what it marks, a tail comment or an equal sign |
| `HexMarks.HexMarksAreAlone` | fmt/src/lib.rs:1341-1360 | the marking rules for hex comments put at most one mark on a line, if every tail comment ends its line |
| `HexMarks.HexCommentsAreAligned` | fmt/src/lib.rs:891-910 | in the pipeline, for every source and all options, all marks of hex comments of a block are aligned, in the columns that the alignment counts |
| `AlignedTrace.FlowIsExact` | fmt/src/align.rs:58-122 | on well-marked streams, erasing the inserted spaces from the output gives back exactly the input, its own blanks and its marks included, and spaces are inserted right before markers only |
| `BlockMarkers.MarkingIsProper` | fmt/src/lib.rs:1256-1304 | for non-empty and non-nested blocks the marks are well bracketed and no alignment block is empty |
| `BlockMarkers.AlignedIsUnmarked` | fmt/src/lib.rs:1334-1366 | marking followed by aligning leaves no mark behind |
| `AddingIndentation.AddIndentation.Next` | fmt/src/indentation.rs:41-85 | the iterator adds the margins as specified |
| `AddingIndentation.IndentAtNewline` | fmt/src/indentation.rs:41-85 | each newline is followed by exactly the margin of the level reached there, in tabs or spaces |
| `AddingIndentation.MarginExactly` | fmt/src/indentation.rs:41-85 | the margin is the level times the width in spaces, or a tab for each level |
| `AddingIndentation.NoMargin` | fmt/src/indentation.rs:41-85 | a level of 0 or less gives no margin |
| `LineLevels.LevelIsDepth` | fmt/src/lib.rs:859-921 | for all options and every source without level tokens whose grammar rules are closed, where no rule ends right behind an opener and no brace closes a rule and a hex pattern at once: all five rule sets and the later stages together put each text token and each end of a rule at a level that is the number of blocks around it, counted in the source by openers and closers, whatever its layout |
| `LineLevels.LinesAreIndented` | fmt/src/lib.rs:859-923 | for such a source, in the formatted program: the margin of a line is that of the blocks around its first text, less the changes of the level between the newline and that text |
| `LineLevels.LevelAtEnd` | fmt/src/lib.rs:859-921 | the level at the end is the number of openers less that of closers in the source, so 0 exactly if they balance |
| `Levels.RunLevels` | fmt/src/lib.rs:947-1237 | one rule set for indentation adds its own blocks to the levels in the stream, places and end, although it sees the level tokens of the others |
| `Levels.LevelsSettle` | fmt/src/lib.rs:947-1237 | what each of the five rule sets inserts before a token: a raise behind an opener, and a lowering before a closer, unless it comes right after one |
| `AddingIndentation.IndentPreserves` | fmt/src/indentation.rs:41-85 | only blanks are added and only level changes are removed |
| `TrailingSpaces.RemoveTrailingSpaces.Next` | fmt/src/trailing_spaces.rs:30-69 | the iterator returns the specified stream |
| `TrailingSpaces.TrimIsStrip` | fmt/src/trailing_spaces.rs:37-63 | the single pass with a buffer removes a blank if and only if nothing visible follows it on its line |
| `TrailingSpaces.TrimStrips` | fmt/src/trailing_spaces.rs:37-63 | no blank ends a line of the output, and a stream is left as it is if and only if no blank ends a line |
| `TrailingSpaces.TrimPreserves` | fmt/src/trailing_spaces.rs:37-63 | nothing but blanks is removed |
| `Tokens.NestingOfSkeleton` | fmt/src/processor/mod.rs:194-230 | nesting and the open rules depend on the Begin/End tokens only |
| `Writer.WriteTo` | fmt/src/tokens/mod.rs:396-460 | the loop over tokens writes the specified text with the indentation of comment lines |
| `Writer.WrittenAsIs` | fmt/src/tokens/mod.rs:274-320 | text tokens are written as they are, blanks and newlines as one character, control tokens as nothing |
| `Writer.WrittenMargin` | fmt/src/tokens/mod.rs:396-422 | a margin of spaces or tabs is written behind the line feed, character by character |
| `Writer.CommentBehindMargin` | fmt/src/tokens/mod.rs:396-460 | all lines of a comment that starts a line are written behind the same margin of spaces or tabs |
| `Writer.WrittenSays` | fmt/src/tokens/mod.rs:396-460 | without white space the text is the text tokens and comment lines in order |
| `Writer.ColumnExactly` | fmt/src/tokens/mod.rs:401-443 | the written column, for every stream: the width of the indentation that is kept plus the difference that comments and tokens with a line feed make on the line |
| `Writer.CommentLinesAlign` | fmt/src/tokens/mod.rs:401-443 | for every stream, the further lines of a comment start at the column of its first line if and only if that difference is 0 |
| `Writer.CommentAfterString` | fmt/src/tokens/mod.rs:401-443 | after a string of two lines a comment is not aligned: a concrete stream |
| `Writer.CommentAfterComment` | fmt/src/tokens/mod.rs:401-443 | after one comment the next is not aligned: a concrete stream |
| `Base64.PatternInText` | lib/src/compiler/base64.rs:61-134 | for every alphabet, string of at least two bytes, prefix and suffix, the pattern for padding |p| mod 3 is in the encoded text at offset 4(|p|/3) plus 0, 2 or 3 |
| `Base64.TextMatchesExactly` | lib/src/compiler/base64.rs:61-134 | a pattern occurs in the text at the place of byte 3m + k if and only if the data agree with the string there on every bit that the pattern covers |
| `Base64.OccursExactly` | lib/src/compiler/base64.rs:92-131 | the same on sextets |
| `Base64.PatternFound` | lib/src/compiler/base64.rs:92-131 | wherever the string is, the pattern for its position modulo 3 is in the encoding |
| `Base64.WholeGroupsAreFoundExactly` | lib/src/compiler/base64.rs:92-131 | a pattern of whole groups occurs if and only if the bytes are those of the string |
| `Base64.Covered` | lib/src/compiler/base64.rs:110-130 | the length of every pattern, which is positive, and the bits that it covers, all of them bits of the string |
| `Base64.LeftNeighbourVaries` | lib/src/compiler/base64.rs:116-128 | the character before a pattern depends on what comes before the string, so the pattern cannot be longer |
| `Base64.RightNeighbourVaries` | lib/src/compiler/base64.rs:112-114 | the character after a pattern depends on what follows the string |
| `Base64.EncodeSlice` | lib/src/compiler/base64.rs:103-110 | encoding into a buffer succeeds if and only if the buffer is long enough |
| `Base64.Base64Patterns` | lib/src/compiler/base64.rs:92-134 | the loop that overwrites and truncates one buffer returns the three patterns, and no `unwrap` or slice fails |
| `JsonText.ParseText` | proto/src/json.rs:128-272 | every text made of the pieces that the printer writes, with any white space between them, is read back by an RFC 8259 parser as the value that it lays out |
| `JsonText.ParseQuoted` | proto/src/json.rs:99-126 | unescaping inverts escaping, for every string |
| `JsonText.EscapePlain` | proto/src/json.rs:100-125 | a string without characters to escape may be returned as it is |
| `JsonText.ValueOfIntText` | proto/src/json.rs:83-97 | the decimal text of an integer stands for that integer |
| `JsonPrinter.PrintedIsReadBack` | proto/src/json.rs:77-264 | for every message tree and every indentation the output is JSON and reading it gives exactly the tree that the message denotes |
| `JsonPrinter.TreeOfLayout` | proto/src/json.rs:132-264 | each kind of value is written as what it denotes: plain numbers, timestamps, base64 objects, names, nested messages |
| `JsonPrinter.OrderDoesNotMatter` | proto/src/json.rs:173-208 | messages that differ only in the iteration order of their maps, at any depth, give the same output |
| `JsonPrinter.SortSorts` | proto/src/json.rs:287-315 | with distinct keys the entries of a map come out in ascending order; `SortedByKey` says which order that is |
| `JsonLayout.SortedByKey` | proto/src/json.rs:187-195 | of any two entries of a map with distinct keys of one type, the first one printed has the smaller integer, or is false and the other true, or is a proper prefix of the other or has the smaller character where they first differ |
| `JsonLayout.MembersAreSorted` | proto/src/json.rs:187-208 | the members that are printed for a map are its entries in this order, each with its value |
| `JsonLayout.KeysReadBack` | proto/src/json.rs:197-203 | the key of an entry is printed as a decimal numeral of its value, as `true` or `false`, or as it stands |
| `JsonLayout.FieldsContribute` | proto/src/json.rs:136-143 | the members of a message are, in order, its fields that are set, its lists and maps that are not empty, and no others |
| `JsonLayout.ItemsDenoted` | proto/src/json.rs:157-171 | the items of a list are printed in order, each once |
| `JsonLayout.LayoutIsTidy` | proto/src/json.rs:145-217 | every member and every item has a line of its own, four columns to the right of the bracket that closes its list or object, at any depth that a `u16` of columns can hold |
| `JsonLayout.Punctuated` | proto/src/json.rs:128-217 | commas come right behind items and members, a colon and a space behind quoted names |
| `JsonPrinter.TextOfTimestamp` | proto/src/json.rs:83-97 | the one-line object that is printed for a timestamp, character by character |
| `JsonPrinter.TextOfBlob` | proto/src/json.rs:247-251 | the one-line object that is printed for bytes, character by character |
| `JsonLayout.UnsignedValue` | proto/src/json.rs:219-262 | the number printed for a `u64`, read back, is its value or 2^64 less |
| `JsonLayout.AlphabetIsStandard` | proto/src/json.rs:219-262 | bytes are printed in the alphabet of table 1 of RFC 4648 |
| `JsonLayout.PaddedToGroups` | proto/src/json.rs:219-262 | bytes are printed as one character for each sextet, padded with `=` to a multiple of four characters |
| `JsonLayout.EscapedExactly` | proto/src/json.rs:99-126 | which characters are escaped, and as what |
| `JsonPrinter.SortKeeps` | proto/src/json.rs:185-189 | sorting neither adds nor drops an entry |
| `JsonPrinter.AscendingIsUnique` | proto/src/json.rs:287-315 | there is only one ascending order of given entries |
| `JsonPrinter.LessIsOrder` | proto/src/json.rs:287-315 | the comparison of keys is a strict total order |
| `JsonPrinter.KeysStayDistinct` | proto/src/json.rs:191-197 | different keys of one map never become the same member name |
| `JsonPrinter.UnsignedIsKept` | proto/src/json.rs:233-235 | the number printed for a `u64`, also inside a timestamp, is its value if and only if it is below 2^63 |
| `JsonPrinter.LargestUnsigned` | proto/src/json.rs:233-235 | the largest `u64` is printed as -1 |
| `JsonPrinter.Serializer.Serialize` | proto/src/json.rs:77-79 | what `serialize` writes is JSON that denotes the message, and the indentation is back at zero |
| `JsonPrinter.Serializer.WriteMsg` | proto/src/json.rs:132-222 | the loops over the fields that are present write the laid-out message and restore the indentation |
| `JsonPrinter.Serializer.WriteItems` | proto/src/json.rs:156-172 | the loop over repeated values, likewise |
| `JsonPrinter.Serializer.WriteMap` | proto/src/json.rs:173-208 | the loop over sorted map entries, likewise, with the decrement of the indentation inside the loop |
| `JsonPrinter.Serializer.WriteValue` | proto/src/json.rs:224-264 | writes one value and leaves the indentation as it was |
| `JsonPrinter.Serializer.EscapeText` | proto/src/json.rs:99-126 | the borrowed fast path and the character loop both give the escaped string |
| `JsonPrinter.Serializer.NewLine` | proto/src/json.rs:266-272 | a line feed and as many spaces as the indentation |
| `LspFraming.TakeStays` | ls/src/worker.rs:104-141 | a message that can be taken from a buffer is the same, with the rest extended, whatever bytes follow |
| `LspFraming.TakeAllInSteps` | ls/src/worker.rs:64-81 | taking messages in two steps as data arrive gives the same messages and leftover as in one |
| `LspFraming.TakeAllFrames` | ls/src/worker.rs:98-141 | any list of messages that is framed is taken back, in order and unchanged |
| `LspFraming.HeaderParses` | ls/src/worker.rs:98-126 | the declared length that is written is the one that is read |
| `LspFrames.FrameBytes` | ls/src/worker.rs:98-103 | the bytes of a frame: `Content-Length: `, the length of the body in decimal without leading zeros, two line ends, the body |
| `LspFrames.OtherHeadersAreRead` | ls/src/worker.rs:100-141 | a message is taken whatever other header fields come before and after the one with its length, and however `Content-Length` is capitalised |
| `LspFraming.WorkerWriter.TakeMessage` | ls/src/worker.rs:128-141 | removes the first complete message from the buffer, or leaves the buffer alone |
| `LspFraming.WorkerWriter.PollWrite` | ls/src/worker.rs:64-81 | accepts all bytes and posts exactly the messages that they complete |
| `LspFraming.WorkerWriter.WriteAll` | ls/src/worker.rs:64-81 | any division of a stream into writes posts the messages of the whole stream and keeps its leftover |
| `LspFraming.FindHeaderEnd` | ls/src/worker.rs:104-112 | the first position of the separator if there is one: it is there, and at no smaller position; and none is missed |
| `LspFraming.WorkerReader.PollRead` | ls/src/worker.rs:39-60 | returns as many bytes as asked for or buffered, or else of the next framed message, or is pending if and only if there are none and the channel is open |
| `LspFraming.WorkerReader.ReadAll` | ls/src/worker.rs:39-60 | reads of any sizes give the framed messages in order |
| `LspFraming.ReadsHoldMessages` | ls/src/worker.rs:39-141 | what was read, however short the reads, holds the messages that were pushed |
| `PyIo.WritesFollowTheText` | py/src/lib.rs:311-360 | for any chunks: nothing is lost, only valid UTF-8 is handed over, at most three bytes are pending, and the writes succeed if and only if the bytes can be continued to valid UTF-8 |
| `PyIo.ValidTextIsWritten` | py/src/lib.rs:311-360 | valid UTF-8 in any chunks goes through without error and leaves the buffer empty |
| `PyIo.PyWriter.Write` | py/src/lib.rs:311-360 | one write has the specified effect on the buffer and on what Python is given |
| `PyIo.PyWriter.WriteAll` | py/src/lib.rs:311-360 | a list of writes succeeds exactly on the start of a valid text and hands it over |
| `PyIo.PyReader.Read` | py/src/lib.rs:237-281 | returns as many bytes as asked for or are buffered, or else of the next piece of the stream |
| `PyIo.PyReader.ReadToEnd` | py/src/lib.rs:237-281 | reading to the end gives the whole stream, whatever the sizes |
| `Utf8.CheckIsValid` | py/src/lib.rs:324-345 | the check of a buffer reports it complete if and only if it is well-formed UTF-8 (section 4 of RFC 3629) |
| `CodePoints.ValidIsEncoded` | py/src/lib.rs:324-345 | the bytes that pass are exactly the encodings of code points other than surrogates, by the arithmetic of section 3 of RFC 3629 |
| `CodePoints.EncodedIsDecoded` | ls/src/worker.rs:114-126 | decoding gives the encoded code points back |
| `CodePoints.DecodedIsEncoded` | ls/src/worker.rs:114-126 | valid bytes are the encoding of the code points that they are decoded to |
| `Utf8.CheckPrefix` | py/src/lib.rs:332-352 | before an incomplete character at the end everything is valid, and at most three bytes are incomplete |
| `Utf8.InvalidStays` | py/src/lib.rs:332-340 | an error is reported at the same place whatever follows |
| `Utf8.InvalidIsHopeless` | py/src/lib.rs:332-340 | an error is reported if and only if no continuation makes the bytes valid |
| `Walk.StepKeeps` | cli/src/walk.rs:445-593 | every step of every thread keeps the invariant: each path in exactly one place and in order, each message in exactly one place and in order, bounded channels, one finalization per worker, every reference to the shared state accounted for |
| `Walk.EveryStateIsSafe` | cli/src/walk.rs:445-593 | in every reachable state paths are given to the action in the order found, at most 128 are queued, messages are printed in the order sent, and no worker has finalized twice |
| `Walk.FinishedIsComplete` | cli/src/walk.rs:445-593 | with at least one worker, when the walk returns every path was given to the action exactly once, every message that was sent was printed, every worker finalized exactly once, and `Arc::try_unwrap` saw one owner |
| `WalkMessages.AllSaidIsPrinted` | cli/src/walk.rs:445-649 | for every run to the end: what is printed is an interleaving of what is said about errors and of what each thread says at its initialization, in its actions and its finalization, each in its own order, and what is shown after the walk is what its last callback says, once |
| `WalkMessages.PrintedAsOften` | cli/src/walk.rs:445-649 | every message is printed as often as the callbacks said it, and nothing else is |
| `Walk.NeverStuck` | cli/src/walk.rs:445-593 | with at least one worker some thread can make a step until the walk has returned |
| `Walk.StuckExactly` | cli/src/walk.rs:437-451 | a state without a step is the final one or one with no worker, a full path channel and a path to send |
| `Walk.BlocksExactly` | cli/src/walk.rs:437-593 | for every list of events and any number of threads: a run that stays unfinished without a step exists if and only if there is no thread and there are more than 128 paths, and a run that finishes exists otherwise |
| `Walk.StuckRunEnds` | cli/src/walk.rs:437-593 | every run that cannot go on has finished, or none has, by the same condition |
| `Walk.FinishedWithoutWorkers` | cli/src/walk.rs:437-593 | a walk that returned has given every path to the action if and only if there was a thread or no path at all |
| `Walk.StepDecreases` | cli/src/walk.rs:445-593 | every step leaves less work, or as much work and fewer messages on their way |
| `Walk.NoInfiniteRun` | cli/src/walk.rs:445-593 | there is no infinite run |
| `VarStacks.OperationKeeps` | lib/src/compiler/context.rs:207-268 | opening a frame, allocating a variable and closing a frame keep the stack sound |
| `VarStacks.VariablesAreDistinct` | lib/src/compiler/context.rs:207-288 | in every run all live variables have different indexes, all in [0, 2048) |
| `VarStacks.AllocatedExactly` | lib/src/compiler/context.rs:256-263 | in every run a new variable has the type that was asked for, the identifier of its frame and the next index of the frame, and nothing else changes |
| `VarStacks.OpenedExactly` | lib/src/compiler/context.rs:207-222 | in every run a new frame starts where the stack ended, with the capacity asked for and an identifier that was never given |
| `VarStacks.ClosedExactly` | lib/src/compiler/context.rs:225-230 | in every run closing a frame leaves exactly the frames below it and their variables |
| `VarStacks.FramesAreDisjoint` | lib/src/compiler/context.rs:207-222 | in every run the live frames occupy disjoint intervals below the top of the stack, and no frame identifier is given twice |
| `VarStacks.UnwindRestores` | lib/src/compiler/context.rs:225-230 | whatever happens between the opening and the closing of a frame, closing it restores the occupancy and the frames from before |
| `VarStacks.AllocationFailsExactly` | lib/src/compiler/context.rs:256-263 | in every run allocating panics if and only if the frame is full |
| `VarStacks.OpeningFailsExactly` | lib/src/compiler/context.rs:207-230 | in every run a frame is refused if and only if it would pass 2048 variables, and closing a live frame never panics |
| `VarStacks.SecondUnwindExactly` | lib/src/compiler/context.rs:225-230 | in every run, closing a closed frame again panics if and only if the live frames end before its start; otherwise a live frame keeps its place if and only if it ends there at the latest, and no frame is harmed if and only if the stack was used up to exactly that place |
| `VarStacks.FramesAreRecorded` | lib/src/compiler/context.rs:207-230 | every frame that a run opened is live or among the closed ones |
| `VarStacks.DoubleFreeGoesUnnoticed` | lib/src/compiler/context.rs:225-230 | a second closing that takes the place of a live frame away: a concrete run |
| `VarStacks.ShiftExactly` | lib/src/compiler/context.rs:297-304 | when a shift by any amount succeeds and what it gives, wrap-around included |
| `VarStacks.ShiftAllExactly` | lib/src/compiler/context.rs:297-304 | shifting all variables by any amount: exactly when it succeeds, when the indexes stay distinct and when they stay in range |
| `VarStacks.ShiftOpensGap` | lib/src/compiler/context.rs:297-304 | shifting up keeps the variables distinct and frees the indexes of the gap |
| `VarStacks.VarStack.NewFrame` | lib/src/compiler/context.rs:207-222 | the new state and the new frame, or no change |
| `VarStacks.VarStack.Unwind` | lib/src/compiler/context.rs:225-230 | the new state, or a panic without a change |
| `VarStacks.VarStackFrame.NewVar` | lib/src/compiler/context.rs:256-263 | the new state and the new variable, or a panic, after which the place is taken if the index was out of bounds |
| `Fixes.Collect` | cli/src/commands/fix.rs:195-214 | the loop that pushes and sorts again leaves, for each origin, the stable sort of all its patches |
| `Fixes.SortAsTheyCome` | cli/src/commands/fix.rs:203-208 | sorting after every push is sorting once at the end |
| `Fixes.SortSorts` | cli/src/commands/fix.rs:206-207 | sorted, and the same patches |
| `Fixes.SortIsStable` | cli/src/commands/fix.rs:206-207 | patches that start at the same place keep their order |
| `Fixes.Splice` | cli/src/commands/fix.rs:216-231 | the forward loop computes the specified text |
| `Fixes.SpliceIsApplication` | cli/src/commands/fix.rs:216-231 | the single pass succeeds if and only if the spans do not overlap and are in range, and then it is the same as applying the patches one by one from the last to the first |
| `Fixes.OutsideIsKept` | cli/src/commands/fix.rs:216-231 | every byte outside the spans is kept, moved by the patches before it |
| `Fixes.FilesAreFixed` | cli/src/commands/fix.rs:195-231 | both together: each file gets every patch for it as often as the warnings suggest it, sorted, and no other patch, and is fixed as by applying them from the last to the first |
| `Fixes.FilesWithPatches` | cli/src/commands/fix.rs:195-214 | a file is fixed exactly if some patch is for it |
| `Fixes.PatchesKeepOrder` | cli/src/commands/fix.rs:195-214 | of the patches for one place of a file, the one that was suggested first comes first |

## Left out

- FormatImpl: drains the stages one after another, where the source pulls tokens through all of them lazily; the streams are the same, the interleaving of the work is not modelled.
- Tokens::next and the parser: the formatter starts from a token stream that satisfies `Formatter.Source`.
- Processor: the `swap` action and the debug output are not used by the formatter and are not modelled.
- AddIndentation: the indentation level is unbounded, where the source keeps it in an `i16`.
- Tokens: each character of a token's text stands for one byte, and categories are sets instead of bitmasks.
- Formatter.format: reading the source, reporting invalid UTF-8 and the `modified` flag.
- RuleEffects: what a rule set achieves is proved for its own output; only the newlines after comments, the starts of items, the levels, the spaces between words and the columns of marks are followed through all the later stages.
- LineLevels.LinesAreIndented: that no level changes between the newline and the first text of a line is not stated; such changes are counted. Lines that start with a comment are not covered.
- RuleEffects.HeadersHaveOneNewline: assumes that no three newlines come in a row in its input; `NewlineRuns.HeadersInPipeline` discharges this for the pipeline.
- RuleEffects.FirstHeadersAreClose: the same.
- Base64: only `base64_patterns`; searching in wide strings and the `base64` crate are not part of this model, encoding is modelled from the RFC.
- JsonPrinter: floating point numbers, colours and I/O errors, and the YAML printer; names of fields and enum values are identifiers, which the printer does not escape.
- JsonPrinter.Serializer: the indentation wraps around like a `u16` without overflow checks.
- LspFraming.TakeMessage: adds the offset and the declared length as unbounded integers, where a sum beyond `usize` would overflow; the body is kept as bytes, without the lossy conversion to text and the JSON parsing in the browser.
- PyIo.PyWriter.Write: exceptions raised by the Python object, and the count that a binary stream returns is a parameter.
- Walk: runs in which a callback asks for an abort, the redrawing of the progress line, CPU limiting, and the order in which threads are spawned.
- VarStacks: sums of `i32` wrap around, as in builds without overflow checks; frame identifiers are unbounded, and `Var` is a value that `Shift` replaces instead of updating.
- Fixes: reading and writing the files, the counters for the summary, and that a file is truncated before a slice can panic.
- C, Go and JavaScript bindings, the compiler, the scanner, regular expressions, WASM and the modules: not modelled.
