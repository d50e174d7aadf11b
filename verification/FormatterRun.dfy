/**
 The pipeline built from the iterators of each stage. Every stage is drained
 into a sequence, which is the input of the next one; no assertion and no panic
 of any stage can be reached.
 */
module FormatterRun {
  import opened Seqs
  import opened Tokens
  import opened Processors
  import opened RuleSets
  import opened BlockMarkers
  import opened Formatter
  import AddingIndentation
  import Alignment
  import Bubbles
  import Comments
  import HexPatterns
  import TrailingSpaces
  import Writer

  method RunRules(s: Lawful, ts: seq<Token>) returns (out: seq<Token>)
    requires Nested([], ts)
    ensures out == s.Run(ts)
  {
    hide Nested, RuleSet.Rewrite, RuleSet.Recent, Open;
    var p := new Processor(s, ts);
    out := [];
    while true
      invariant fresh(p) && p.Valid() && out + p.Remaining() == s.Run(ts)
      decreases |p.Remaining()|
    {
      var t := p.Next();
      if t.None? { return; }
      out := out + [t.value];
    }
  }

  method RunComments(tabSize: nat, ts: seq<Token>) returns (out: seq<Token>)
    requires Comments.NoEmptyComment(ts)
    ensures out == Comments.Run(tabSize, ts)
  {
    var p := new Comments.CommentProcessor(ts, tabSize);
    out := [];
    while true
      invariant fresh(p) && p.Valid() && out + p.Remaining() == Comments.Run(tabSize, ts)
      decreases |p.Remaining()|
    {
      var t := p.Next();
      if t.None? { return; }
      out := out + [t.value];
    }
  }

  method RunBubble(m: Bubbles.Medium, ts: seq<Token>) returns (out: seq<Token>)
    requires m.Valid()
    ensures out == m.Flow([], ts)
  {
    var p := new Bubbles.Bubble(m, ts);
    out := [];
    while true
      invariant fresh(p) && p.medium == m && out + p.Remaining() == m.Flow([], ts)
      decreases |p.Remaining()|
    {
      var t := p.Next();
      if t.None? { return; }
      out := out + [t.value];
    }
  }

  method RunHexPatterns(ts: seq<Token>) returns (out: seq<Token>)
    ensures out == HexPatterns.Flow(HexPatterns.START, [], ts)
  {
    var p := new HexPatterns.FormatHexPatterns(ts);
    out := [];
    while true
      invariant fresh(p) && out + p.Remaining() == HexPatterns.Flow(HexPatterns.START, [], ts)
      decreases |p.Remaining()|
    {
      var t := p.Next();
      if t.None? { return; }
      out := out + [t.value];
    }
  }

  method RunAlign(ts: seq<Token>) returns (out: seq<Token>)
    requires Alignment.Bracketed(Alignment.Outside, ts)
    ensures out == Alignment.Flow(ts)
  {
    var p := new Alignment.Align(ts);
    out := [];
    while true
      invariant fresh(p) && p.Valid() && out + p.Remaining() == Alignment.Flow(ts)
      decreases |p.Remaining()|
    {
      var t := p.Next();
      if t.None? { return; }
      out := out + [t.value];
    }
  }

  method RunIndentation(style: AddingIndentation.Style, ts: seq<Token>) returns (out: seq<Token>)
    ensures out == AddingIndentation.Indent(style, 0, ts)
  {
    var p := new AddingIndentation.AddIndentation(ts, style);
    out := [];
    while true
      invariant fresh(p) && out + p.Remaining() == AddingIndentation.Indent(style, 0, ts)
      decreases |p.Remaining()|
    {
      var t := p.Next();
      if t.None? { return; }
      out := out + [t.value];
    }
  }

  method RunTrailingSpaces(ts: seq<Token>) returns (out: seq<Token>)
    ensures out == TrailingSpaces.Trim([], ts)
  {
    var p := new TrailingSpaces.RemoveTrailingSpaces(ts);
    out := [];
    while true
      invariant fresh(p) && out + p.Remaining() == TrailingSpaces.Trim([], ts)
      decreases |p.Remaining()|
    {
      var t := p.Next();
      if t.None? { return; }
      out := out + [t.value];
    }
  }

  method RunStage(st: Stage, ts: seq<Token>) returns (out: seq<Token>)
    requires StageOk(st) && Ready(ts)
    requires st.ProcessComments? ==> Comments.NoEmptyComment(ts)
    ensures out == Apply(st, ts)
  {
    match st {
      case ApplyRules(s) => out := RunRules(s, ts);
      case ProcessComments(tabSize) => out := RunComments(tabSize, ts);
      case Reorder(m) => out := RunBubble(m, ts);
      case LayoutHexPatterns => out := RunHexPatterns(ts);
      case AlignBlocks(k) =>
        MarkingIsProper(k, ts);
        out := RunRules(k.Rules(), ts);
        out := RunAlign(out);
      case IndentLines(style) => out := RunIndentation(style, ts);
      case TrimLines => out := RunTrailingSpaces(ts);
    }
  }

  /** The whole pipeline. It always ends, and what comes out is the same program. */
  method FormatImpl(o: Options, input: seq<Token>) returns (out: seq<Token>)
    requires Source(input)
    ensures out == Format(o, input)
    ensures Essence(out) == Essence(input) && Skeleton(out) == Skeleton(input)
  {
    PipelineOk(o);
    FormattingKeepsProgram(o, input);
    ApplyFirstTwo(o, input);
    NothingOddInserted();
    RulesKeep(StatementLines(), input);
    CommentsStayRaw(StatementLines(), input);
    out := RunStage(ApplyRules(StatementLines()), input);
    CommentsKeep(o.tabSize, out);
    out := RunStage(ProcessComments(o.tabSize), out);
    LaterStagesHaveNoComments(o);
    out := RunStages(LaterStages(o), out);
  }

  /** The formatted text differs from the text of the input in its white space only. */
  method FormatText(o: Options, input: seq<Token>) returns (text: string)
    requires Source(input)
    ensures text == Writer.Written(Format(o, input))
    ensures Writer.Solid(text) == Writer.Solid(Writer.Written(input))
  {
    Writer.FormattingChangesOnlySpace(o, input);
    hide Source, Format, Writer.Solid, Writer.Written;
    var out := FormatImpl(o, input);
    text := Writer.WriteTo(out);
  }

  method RunStages(stages: seq<Stage>, ts: seq<Token>) returns (out: seq<Token>)
    requires AllOk(stages) && NoComments(stages) && Ready(ts)
    ensures out == ApplyAll(stages, ts)
  {
    hide Ready;
    hide StageOk;
    hide SameProgram;
    out := ts;
    for i := 0 to |stages|
      invariant Ready(out) && AllOk(stages[i..]) && ApplyAll(stages[i..], out) == ApplyAll(stages, ts)
    {
      ApplyFirst(stages[i..], out);
      StageKeeps(stages[i], out);
      assert stages[i..][1..] == stages[i + 1..];
      out := RunStage(stages[i], out);
    }
  }
}
