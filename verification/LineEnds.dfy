/**
 Formatting never turns code into comment: in the final output a comment that
 ends its line is followed by a newline, and the comments are those that were
 made from the raw ones, in order and with the same class.
 */
module LineEnds {
  import opened Seqs
  import opened Tokens
  import opened Processors
  import opened Preservation
  import opened RuleSets
  import opened RuleEffects
  import opened BlockMarkers
  import opened Formatter
  import opened WordSpacing
  import CommentClasses
  import AddingIndentation
  import Alignment
  import Bubbles
  import Comments
  import HexPatterns
  import TrailingSpaces

  // ----- Comments that end their line

  predicate NeedsNewline(t: Token) { t.HeadComment? || t.TailComment? || t.BlockComment? }

  const WRITTEN: Category := TEXT + COMMENT + NEWLINE

  /** Whether a newline is needed before any text, given what was needed before `t`. */
  function Needed(open: bool, t: Token): bool {
    if Is(t, WRITTEN) then NeedsNewline(t) else open
  }

  /** A newline comes before any text or comment after each comment that needs it. */
  predicate LinesEnd(open: bool, ts: seq<Token>)
    decreases |ts|
  {
    ts == [] || ((open && Is(ts[0], WRITTEN) ==> ts[0].Newline?) && LinesEnd(Needed(open, ts[0]), ts[1..]))
  }

  function NeededAfter(open: bool, ts: seq<Token>): bool
    decreases |ts|
  {
    if ts == [] then open else NeededAfter(Needed(open, ts[0]), ts[1..])
  }

  lemma {:induction false} LinesEndSnoc(open: bool, ts: seq<Token>, t: Token)
    ensures LinesEnd(open, ts + [t]) <==>
            LinesEnd(open, ts) && (NeededAfter(open, ts) && Is(t, WRITTEN) ==> t.Newline?)
    ensures NeededAfter(open, ts + [t]) == Needed(NeededAfter(open, ts), t)
    decreases |ts|
  {
    if ts == [] {
      assert ts + [t] == [t] && [t][1..] == [];
    } else {
      assert (ts + [t])[0] == ts[0] && (ts + [t])[1..] == ts[1..] + [t];
      LinesEndSnoc(Needed(open, ts[0]), ts[1..], t);
    }
  }

  /** The rule that puts newlines after comments sees to it. */
  lemma {:induction false} ObeyedLinesEnd(s: RuleSet, out: seq<Token>)
    requires s.pass == CONTROL && Obeys(s, CommentEndsLine, out)
    ensures LinesEnd(false, out)
    ensures NeededAfter(false, out) ==> s.Recent(out) != [] && NeedsNewline(s.Recent(out)[0])
    decreases |out|
  {
    if out != [] {
      var init, t := out[..|out| - 1], out[|out| - 1];
      assert out == init + [t];
      ObeyedLinesEnd(s, init);
      RecentSnoc(s, init, t);
      LinesEndSnoc(false, init, t);
      assert !s.Hidden(t) ==> CommentEndsLine(View(s.Recent(init), [t], Open([], init)));
      hide RuleSet.Recent, LinesEnd, NeededAfter, Obeys, Open, CommentEndsLine, NeedsNewline;
      AfterComment(s.Recent(init), t, Open([], init));
    }
  }

  lemma AfterComment(recent: seq<Token>, t: Token, stack: seq<Kind>)
    ensures CommentEndsLine(View(recent, [t], stack)) && recent != [] && NeedsNewline(recent[0]) ==> t == Newline
    ensures NeedsNewline(Newline) == false && (Is(t, WRITTEN) ==> !Is(t, CONTROL))
  {}

  /** What the condition depends on. */
  function Write(t: Token): seq<Token> {
    if Is(t, WRITTEN) then [t] else []
  }

  lemma {:induction false} LinesEndByWritten(open: bool, ts: seq<Token>)
    ensures LinesEnd(open, ts) <==> LinesEnd(open, FlatMap(Write, ts))
    decreases |ts|
  {
    if ts != [] {
      var t, rest := ts[0], ts[1..];
      LinesEndByWritten(Needed(open, t), rest);
      if Is(t, WRITTEN) {
        assert FlatMap(Write, ts)[1..] == FlatMap(Write, rest);
      } else {
        assert FlatMap(Write, ts) == FlatMap(Write, rest);
      }
    }
  }

  // ----- What the last stages keep

  /** A projection that ignores blanks, changes of the level and marks. */
  ghost predicate IgnoresBlanks<X>(f: Token -> seq<X>) {
    forall t: Token :: IsBlank(t) || t.Indentation? || IsMark(t) ==> f(t) == []
  }

  lemma LateStageSees<X>(st: Stage, f: Token -> seq<X>, ts: seq<Token>)
    requires StageOk(st) && IsLate(st) && IgnoresBlanks(f)
    ensures FlatMap(f, Apply(st, ts)) == FlatMap(f, ts)
  {
    hide FlatMap;
    FlatMapNothing(f, []);
    var all := FlatMap(f, ts);
    assert [] + all == all;
    match st
    case AlignBlocks(k) =>
      MarksSayNothing(k, f);
      RewritePreserves(k.Rules(), f, [], ts);
      Alignment.FlowPreserves(f, k.Rules().Run(ts));
    case IndentLines(style) =>
      AddingIndentation.IndentPreserves(f, style, 0, ts);
    case TrimLines =>
      TrailingSpaces.TrimPreserves(f, [], ts);
    case _ =>
  }

  lemma MarksSayNothing<X>(k: Marking, f: Token -> seq<X>)
    requires Fit(k.Rules(), IsMark) && IgnoresBlanks(f)
    ensures k.Rules().Valid() && Harmless(k.Rules(), f)
  {}

  lemma {:induction false} LateStagesSee<X>(stages: seq<Stage>, f: Token -> seq<X>, ts: seq<Token>)
    requires AllOk(stages) && IgnoresBlanks(f)
    requires forall i :: 0 <= i < |stages| ==> IsLate(stages[i])
    ensures FlatMap(f, ApplyAll(stages, ts)) == FlatMap(f, ts)
    decreases |stages|
  {
    hide StageOk, IgnoresBlanks, FlatMap;
    if stages != [] {
      LateStageSees(stages[0], f, ts);
      LateStagesSee(stages[1..], f, Apply(stages[0], ts));
    }
  }

  lemma SpacingSays<X>(f: Token -> seq<X>)
    requires Fit(Spacing(), IsPlain) && IgnoresBlanks(f)
    ensures Spacing().Valid() && Harmless(Spacing(), f)
  {}

  /** From the newlines after comments on, no newline, text or comment is added, lost or moved. */
  lemma SpacingStagesSee<X>(o: Options, f: Token -> seq<X>, ts: seq<Token>)
    requires AllOk(SpacingStages(o)) && IgnoresBlanks(f)
    ensures NewlineAfterComments().Valid()
    ensures FlatMap(f, ApplyAll(SpacingStages(o), ts)) == FlatMap(f, NewlineAfterComments().Run(ts))
  {
    var before, spacing, stages := ApplyRules(NewlineAfterComments()), ApplyRules(Spacing()), SpacingStages(o);
    assert stages[1..] == [spacing] + LastStages(o) && stages[1..][1..] == LastStages(o);
    ApplyFirst(stages, ts);
    var ts1 := Apply(before, ts);
    ApplyFirst(stages[1..], ts1);
    SpacingSays(f);
    RewritePreserves(Spacing(), f, [], ts1);
    LastStagesAreLate(o);
    LateStagesSee(LastStages(o), f, Apply(spacing, ts1));
    var all := FlatMap(f, ts1);
    assert FlatMap(f, []) == [] && [] + all == all;
  }

  lemma WriteIgnoresBlanks()
    ensures IgnoresBlanks(Write)
  {}

  lemma SpacingStagesEndLines(o: Options, ts: seq<Token>)
    requires AllOk(SpacingStages(o))
    ensures LinesEnd(false, ApplyAll(SpacingStages(o), ts))
  {
    hide FlatMap, StageOk;
    CommentsEndLines(ts);
    ObeyedLinesEnd(NewlineAfterComments(), NewlineAfterComments().Run(ts));
    WriteIgnoresBlanks();
    SpacingStagesSee(o, Write, ts);
    LinesEndByWritten(false, NewlineAfterComments().Run(ts));
    LinesEndByWritten(false, ApplyAll(SpacingStages(o), ts));
  }

  /** The stages before the spacing ones, applied to what the first two leave. */
  ghost function Early(o: Options, ts: seq<Token>): seq<Token> {
    PipelineOk(o);
    NewlineStagesOk(o);
    IndentationStagesOk(o);
    ApplyAll(NewlineStages(o) + IndentationStages(o), Comments.Run(o.tabSize, StatementLines().Run(ts)))
  }

  lemma FormatIsSpacedEarly(o: Options, ts: seq<Token>)
    ensures AllOk(SpacingStages(o)) && Format(o, ts) == ApplyAll(SpacingStages(o), Early(o, ts))
  {
    PipelineOk(o);
    NewlineStagesOk(o);
    IndentationStagesOk(o);
    SpacingStagesOk(o);
    ApplyFirstTwo(o, ts);
    hide StageOk, NewlineStages, IndentationStages, SpacingStages, Format;
    ApplyAllConcat(NewlineStages(o) + IndentationStages(o), SpacingStages(o),
      Comments.Run(o.tabSize, StatementLines().Run(ts)));
  }

  /**
   In the formatted program every comment that needs a newline gets it before
   any other text or comment.
   */
  lemma FormattedLinesEnd(o: Options, ts: seq<Token>)
    ensures LinesEnd(false, Format(o, ts))
  {
    FormatIsSpacedEarly(o, ts);
    hide Format, Early, SpacingStages;
    SpacingStagesEndLines(o, Early(o, ts));
  }

  // ----- The same, place by place

  lemma {:induction false} LinesEndSuffix(open: bool, ts: seq<Token>, i: nat)
    requires i < |ts| && LinesEnd(open, ts) && TrailingSpaces.Stripped(ts)
    ensures NeedsNewline(ts[i]) ==> LinesEnd(true, ts[i + 1..])
    ensures TrailingSpaces.Stripped(ts[i + 1..])
    decreases i
  {
    if i > 0 {
      LinesEndSuffix(Needed(open, ts[0]), ts[1..], i - 1);
      assert ts[1..][i..] == ts[i + 1..];
    }
  }

  /** Control tokens aside, a newline comes next. */
  predicate NewlineNext(ts: seq<Token>) {
    ts != [] && (ts[0].Newline? || (Is(ts[0], CONTROL) && NewlineNext(ts[1..])))
  }

  /** Only control tokens and blanks are left. */
  predicate NothingLeft(ts: seq<Token>) {
    forall i :: 0 <= i < |ts| ==> Is(ts[i], CONTROL) || IsBlank(ts[i])
  }

  lemma {:induction false} NextIsNewline(ts: seq<Token>)
    requires LinesEnd(true, ts) && TrailingSpaces.Stripped(ts) && Unmarked(ts)
    ensures NewlineNext(ts) || NothingLeft(ts)
    ensures NewlineNext(ts) ==> TrailingSpaces.AtLineEnd(ts)
  {
    if ts != [] && !ts[0].Newline? {
      assert Tokens.Marks(ts[0]) == [];
      assert !Is(ts[0], WRITTEN);
      NextIsNewline(ts[1..]);
      assert Is(ts[0], CONTROL) || IsBlank(ts[0]);
    }
  }

  lemma FormattedIsStripped(o: Options, ts: seq<Token>)
    ensures TrailingSpaces.Stripped(Format(o, ts))
  {
    FormatIsSpacedEarly(o, ts);
    var stages, early := SpacingStages(o), Early(o, ts);
    var before := stages[..|stages| - 1];
    assert stages == before + [TrimLines];
    hide Format, Early, SpacingStages, StageOk;
    ApplyAllConcat(before, [TrimLines], early);
    ApplyFirst([TrimLines], ApplyAll(before, early));
    TrailingSpaces.TrimStrips(ApplyAll(before, early));
  }

  /**
   In the formatted program a head, tail or block comment is followed, control
   tokens aside, by a newline or by nothing more than blanks.
   */
  lemma CommentsAreFollowedByNewlines(o: Options, ts: seq<Token>, i: nat)
    requires Source(ts) && i < |Format(o, ts)| && NeedsNewline(Format(o, ts)[i])
    ensures NewlineNext(Format(o, ts)[i + 1..]) || NothingLeft(Format(o, ts)[i + 1..])
  {
    FormattedLinesEnd(o, ts);
    FormattedIsStripped(o, ts);
    FormattingKeepsProgram(o, ts);
    hide Format, Essence, Skeleton, Nested, Source;
    LinesEndSuffix(false, Format(o, ts), i);
    NextIsNewline(Format(o, ts)[i + 1..]);
  }

  // ----- The comments of the formatted program

  /** A projection that ignores everything but text and comments. */
  ghost predicate IgnoresLayout<X>(f: Token -> seq<X>) {
    forall t: Token :: !Is(t, TEXT + COMMENT) ==> f(t) == []
  }

  lemma RulesSayNothing<X>(s: RuleSet, f: Token -> seq<X>)
    requires Fit(s, IsPlain) && IgnoresLayout(f)
    ensures Harmless(s, f)
  {}

  lemma MediumSaysNothing<X>(m: Bubbles.Medium, f: Token -> seq<X>)
    requires (m == TAILS_UP || m == ENDS_UP || m == INDENTATION_UP) && IgnoresLayout(f)
    ensures (forall t :: m.water(t) ==> f(t) == []) || (forall t :: m.air(t) ==> f(t) == [])
  {}

  ghost predicate IsEarly(st: Stage) {
    st.ApplyRules? || st == Reorder(TAILS_UP) || st == Reorder(ENDS_UP) || st == Reorder(INDENTATION_UP)
    || st.LayoutHexPatterns?
  }

  lemma EarlyStageSees<X>(st: Stage, f: Token -> seq<X>, ts: seq<Token>)
    requires StageOk(st) && IsEarly(st) && IgnoresLayout(f)
    ensures FlatMap(f, Apply(st, ts)) == FlatMap(f, ts)
  {
    FlatMapNothing(f, []);
    hide FlatMap, Fit;
    var all := FlatMap(f, ts);
    assert [] + all == all;
    match st
    case ApplyRules(s) =>
      RulesSayNothing(s, f);
      RewritePreserves(s, f, [], ts);
    case Reorder(m) =>
      MediumSaysNothing(m, f);
      Bubbles.FlowPreserves(m, f, [], ts);
    case LayoutHexPatterns =>
      HexPatterns.FlowPreserves(f, HexPatterns.START, [], ts);
    case _ =>
  }

  lemma {:induction false} EarlyStagesSee<X>(stages: seq<Stage>, f: Token -> seq<X>, ts: seq<Token>)
    requires AllOk(stages) && IgnoresLayout(f)
    requires forall i :: 0 <= i < |stages| ==> IsEarly(stages[i])
    ensures FlatMap(f, ApplyAll(stages, ts)) == FlatMap(f, ts)
    decreases |stages|
  {
    hide StageOk, IgnoresLayout, FlatMap, IsEarly;
    if stages != [] {
      EarlyStageSees(stages[0], f, ts);
      EarlyStagesSee(stages[1..], f, Apply(stages[0], ts));
    }
  }

  lemma EarlyStagesAreEarly(o: Options)
    ensures forall i :: 0 <= i < |NewlineStages(o)| ==> IsEarly(NewlineStages(o)[i])
    ensures forall i :: 0 <= i < |IndentationStages(o)| ==> IsEarly(IndentationStages(o)[i])
  {}

  lemma CommentOfIgnoresLayout()
    ensures IgnoresLayout(CommentClasses.CommentOf)
  {}

  lemma IgnoringLayoutIgnoresBlanks<X>(f: Token -> seq<X>)
    requires IgnoresLayout(f)
    ensures IgnoresBlanks(f)
  {}

  lemma EarlySees<X>(o: Options, f: Token -> seq<X>, ts: seq<Token>)
    requires IgnoresLayout(f) && StatementLines().Valid()
    ensures FlatMap(f, Early(o, ts)) == FlatMap(f, Comments.Run(o.tabSize, StatementLines().Run(ts)))
  {
    PipelineOk(o);
    NewlineStagesOk(o);
    IndentationStagesOk(o);
    EarlyStagesAreEarly(o);
    hide StageOk, IgnoresLayout, FlatMap, IsEarly, NewlineStages, IndentationStages;
    EarlyStagesSee(NewlineStages(o) + IndentationStages(o), f, Comments.Run(o.tabSize, StatementLines().Run(ts)));
  }

  lemma FormatSees<X>(o: Options, f: Token -> seq<X>, ts: seq<Token>)
    requires IgnoresLayout(f) && StatementLines().Valid() && Fit(NewlineAfterComments(), IsPlain)
    ensures FlatMap(f, Format(o, ts)) == FlatMap(f, Comments.Run(o.tabSize, StatementLines().Run(ts)))
  {
    FormatIsSpacedEarly(o, ts);
    EarlySees(o, f, ts);
    IgnoringLayoutIgnoresBlanks(f);
    hide Format, Early, SpacingStages, StageOk, FlatMap;
    var early := Early(o, ts);
    SpacingStagesSee(o, f, early);
    RulesSayNothing(NewlineAfterComments(), f);
    RewritePreserves(NewlineAfterComments(), f, [], early);
    assert FlatMap(f, []) == [] by { FlatMapNothing(f, []); }
    assert [] + FlatMap(f, early) == FlatMap(f, early);
  }

  /** What the first stage makes of the input. */
  ghost function Statements(ts: seq<Token>): seq<Token> {
    StatementLinesFit();
    StatementLines().Run(ts)
  }

  /** The groups of the raw comments. */
  ghost function CommentGroups(o: Options, ts: seq<Token>): seq<CommentClasses.Group> {
    CommentClasses.Groups(o.tabSize, Statements(ts))
  }

  lemma StatementsStayRaw(ts: seq<Token>)
    requires Source(ts)
    ensures Comments.RawComments(Statements(ts))
  {
    StatementLinesFit();
    NothingOddInserted();
    CommentsStayRaw(StatementLines(), ts);
  }

  /**
   The comments of the formatted program are exactly the groups of the raw
   ones, in order, with their lines and their class.
   */
  lemma FormattedCommentsAreGroups(o: Options, ts: seq<Token>)
    requires Source(ts)
    ensures FlatMap(CommentClasses.CommentOf, Format(o, ts)) == FlatMap(CommentClasses.GroupToken, CommentGroups(o, ts))
  {
    StatementLinesFit();
    NewlineAfterCommentsFit();
    StatementsStayRaw(ts);
    CommentOfIgnoresLayout();
    hide Format, FlatMap, Fit, IgnoresLayout, Source;
    FormatSees(o, CommentClasses.CommentOf, ts);
    CommentClasses.CommentsAreGroups(o.tabSize, Statements(ts));
  }

  // ----- Comments that run to the end of their line

  predicate IsLineComment(t: Token) { t.Comment? && "//" <= t.text }

  /** A newline, or the end, comes right after a line comment, control tokens aside. */
  predicate LineCommentsEnd(open: bool, ts: seq<Token>)
    decreases |ts|
  {
    ts == [] ||
    (if Is(ts[0], CONTROL) then LineCommentsEnd(open, ts[1..])
     else (open ==> ts[0].Newline?) && LineCommentsEnd(IsLineComment(ts[0]), ts[1..]))
  }

  lemma {:induction false} InsertedNewlines(open: bool, out: seq<Token>, ins: seq<Token>, rest: seq<Token>)
    requires LineCommentsEnd(open, out + rest) && forall i :: 0 <= i < |ins| ==> ins[i] == Newline
    ensures LineCommentsEnd(open, out + ins + rest)
    decreases |out|, |ins|
  {
    if out != [] {
      assert (out + rest)[0] == out[0] && (out + rest)[1..] == out[1..] + rest;
      assert (out + ins + rest)[0] == out[0] && (out + ins + rest)[1..] == out[1..] + ins + rest;
      InsertedNewlines(if Is(out[0], CONTROL) then open else IsLineComment(out[0]), out[1..], ins, rest);
    } else if ins == [] {
      assert out + ins + rest == out + rest;
    } else {
      assert out + rest == rest && out + ins + rest == ins + rest;
      assert (ins + rest)[0] == Newline && (ins + rest)[1..] == [] + ins[1..] + rest;
      NothingOpen(open, rest);
      assert [] + rest == rest;
      InsertedNewlines(false, [], ins[1..], rest);
    }
  }

  lemma {:induction false} NothingOpen(open: bool, ts: seq<Token>)
    requires LineCommentsEnd(open, ts)
    ensures LineCommentsEnd(false, ts)
  {
    if ts != [] && Is(ts[0], CONTROL) {
      NothingOpen(open, ts[1..]);
    }
  }

  lemma NewlinesInserted(v: View, n: nat)
    requires StatementLines().Settles(v, n)
    ensures forall i :: 0 <= i < |StatementLines().Inserted(v, n)| ==> StatementLines().Inserted(v, n)[i] == Newline
    ensures !StatementLines().Drops(v, n)
    decreases n
  {
    var s := StatementLines();
    MatchComesFromRules(s, 0, v);
    assert s.Match(v) == Copy || s.Match(v) == Insert([Newline]);
    hide StatementLines;
    if s.Match(v).Insert? {
      NewlinesInserted(s.After(v, [Newline]), n - 1);
    }
  }

  lemma {:induction false} StatementLinesKeep(out: seq<Token>, rest: seq<Token>)
    requires StatementLines().Valid() && LineCommentsEnd(false, out + rest) && Unmarked(rest)
    ensures LineCommentsEnd(false, StatementLines().Rewrite(out, rest))
    decreases |rest|
  {
    if rest == [] {
      assert out + rest == out;
    } else {
      var after := StatementStep(out, rest);
      hide StatementLines, LineCommentsEnd;
      StatementLinesKeep(after, rest[1..]);
    }
  }

  lemma StatementStep(out: seq<Token>, rest: seq<Token>) returns (after: seq<Token>)
    requires StatementLines().Valid() && LineCommentsEnd(false, out + rest) && Unmarked(rest) && rest != []
    ensures LineCommentsEnd(false, after + rest[1..]) && Unmarked(rest[1..])
    ensures StatementLines().Rewrite(out, rest) == StatementLines().Rewrite(after, rest[1..])
  {
    var s, t := StatementLines(), rest[0];
    assert Tokens.Marks(t) == [];
    var v := s.Look(out, rest);
    var ins := StatementConsumed(out, v, t);
    hide StatementLines, LineCommentsEnd, RuleSet.Look, RuleSet.Hidden, RuleSet.Rewrite, RuleSet.Consume,
      RuleSet.Valid, Unmarked;
    after := s.Consume(out, v, t);
    RewriteVisible(s, out, rest);
    InsertedNewlines(false, out, ins, rest);
    FirstMoves(out + ins, rest);
  }

  lemma FirstMoves(out: seq<Token>, rest: seq<Token>)
    requires rest != [] && Unmarked(rest)
    ensures out + [rest[0]] + rest[1..] == out + rest && Unmarked(rest[1..])
  {}

  lemma StatementConsumed(out: seq<Token>, v: View, t: Token) returns (ins: seq<Token>)
    requires StatementLines().Valid() && !t.NoToken?
    ensures StatementLines().Settles(v, MAX_INSERTIONS) && !StatementLines().Hidden(t)
    ensures forall i :: 0 <= i < |ins| ==> ins[i] == Newline
    ensures StatementLines().Consume(out, v, t) == out + ins + [t]
  {
    NewlinesInserted(v, MAX_INSERTIONS);
    ins := StatementLines().Inserted(v, MAX_INSERTIONS);
  }

  lemma {:induction false} EndsPlaceByPlace(open: bool, ts: seq<Token>, i: nat)
    requires i < |ts| && LineCommentsEnd(open, ts) && IsLineComment(ts[i])
    ensures LineCommentsEnd(true, ts[i + 1..])
    decreases i
  {
    if i > 0 {
      EndsPlaceByPlace(if Is(ts[0], CONTROL) then open else IsLineComment(ts[0]), ts[1..], i - 1);
      assert ts[1..][i..] == ts[i + 1..];
    }
  }

  lemma {:induction false} EndIsLineStop(ts: seq<Token>, p: nat)
    requires p <= |ts| && LineCommentsEnd(true, ts[p..])
    ensures CommentClasses.LineStops(ts, p)
    decreases |ts| - p
  {
    if p < |ts| && Is(ts[p], CONTROL) {
      assert ts[p..][1..] == ts[p + 1..];
      EndIsLineStop(ts, p + 1);
      var j :| CommentClasses.StopsAt(ts, p + 1, j);
      assert CommentClasses.StopsAt(ts, p, j);
    } else {
      assert CommentClasses.StopsAt(ts, p, p);
    }
  }

  /** The last raw comment of a group is a line comment. */
  ghost predicate EndsInLineComment(o: Options, ts: seq<Token>, k: nat)
    requires k < |CommentGroups(o, ts)|
  {
    var last := CommentGroups(o, ts)[k].last;
    last < |Statements(ts)| && IsLineComment(Statements(ts)[last])
  }

  /** A group that ends in a line comment has a class that needs a newline. */
  lemma LineCommentsNeedNewlines(o: Options, ts: seq<Token>, k: nat)
    requires Source(ts) && LineCommentsEnd(false, ts)
    requires k < |CommentGroups(o, ts)| && EndsInLineComment(o, ts, k)
    ensures NeedsNewline(CommentClasses.GroupToken(CommentGroups(o, ts)[k])[0])
  {
    StatementLinesFit();
    StatementsStayRaw(ts);
    assert [] + ts == ts;
    StatementLinesKeep([], ts);
    hide StatementLines, Source, Fit;
    GroupNeedsNewline(o.tabSize, Statements(ts), k);
  }

  lemma GroupNeedsNewline(tabSize: nat, ts: seq<Token>, i: nat)
    requires Comments.RawComments(ts) && LineCommentsEnd(false, ts) && i < |CommentClasses.Groups(tabSize, ts)|
    requires var last := CommentClasses.Groups(tabSize, ts)[i].last; last < |ts| && IsLineComment(ts[last])
    ensures NeedsNewline(CommentClasses.GroupToken(CommentClasses.Groups(tabSize, ts)[i])[0])
  {
    hide CommentClasses.Groups, CommentClasses.LineStops;
    var last := CommentClasses.Groups(tabSize, ts)[i].last;
    EndsPlaceByPlace(false, ts, last);
    EndIsLineStop(ts, last + 1);
    CommentClasses.LastOnLineTrails(tabSize, ts, i);
  }

  lemma {:induction false} TokenOfGroup(groups: seq<CommentClasses.Group>, k: nat)
    ensures |FlatMap(CommentClasses.GroupToken, groups)| == |groups|
    ensures k < |groups| ==>
              FlatMap(CommentClasses.GroupToken, groups)[k] == CommentClasses.GroupToken(groups[k])[0]
    decreases |groups|
  {
    if groups != [] {
      FlatMapCons(CommentClasses.GroupToken, groups);
      TokenOfGroup(groups[1..], if k > 0 then k - 1 else 0);
    }
  }

  lemma CommentAt(out: seq<Token>, i: nat)
    requires i < |out| && Is(out[i], COMMENT)
    ensures
      var comments, k := FlatMap(CommentClasses.CommentOf, out), |FlatMap(CommentClasses.CommentOf, out[..i])|;
      k < |comments| && comments[k] == out[i]
  {
    var f := CommentClasses.CommentOf;
    assert out == out[..i] + ([out[i]] + out[i + 1..]);
    FlatMapConcat(f, out[..i], [out[i]] + out[i + 1..]);
    FlatMapConcat(f, [out[i]], out[i + 1..]);
    FlatMapOne(f, out[i]);
  }

  /**
   In the formatted program no text comes behind a line comment: the comment
   tokens are those of the groups, one by one, and after each whose group ends in
   a line comment come, control tokens aside, a newline or nothing but blanks.
   */
  lemma NothingBehindLineComments(o: Options, ts: seq<Token>, i: nat)
    requires Source(ts) && LineCommentsEnd(false, ts)
    requires i < |Format(o, ts)| && Is(Format(o, ts)[i], COMMENT)
    ensures
      var out := Format(o, ts);
      var k := |FlatMap(CommentClasses.CommentOf, out[..i])|;
      && k < |CommentGroups(o, ts)| && CommentClasses.GroupToken(CommentGroups(o, ts)[k]) == [out[i]]
      && (EndsInLineComment(o, ts, k) ==> NewlineNext(out[i + 1..]) || NothingLeft(out[i + 1..]))
  {
    hide Format, FlatMap, CommentGroups, EndsInLineComment, NewlineNext, NothingLeft, Source, NeedsNewline;
    var out := Format(o, ts);
    var k := |FlatMap(CommentClasses.CommentOf, out[..i])|;
    FormattedCommentsAreGroups(o, ts);
    CommentAt(out, i);
    TokenOfGroup(CommentGroups(o, ts), k);
    if EndsInLineComment(o, ts, k) {
      LineCommentsNeedNewlines(o, ts, k);
      CommentsAreFollowedByNewlines(o, ts, i);
    }
  }
}
