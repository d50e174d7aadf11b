/**
 In the formatted program every meta definition, pattern definition and
 declaration, and the closing brace of every rule, starts a line.
 */
module LineStarts {
  import opened Seqs
  import opened Tokens
  import opened Processors
  import opened Preservation
  import opened RuleSets
  import opened RuleEffects
  import opened Formatter
  import opened LineEnds
  import opened WordSpacing
  import Bubbles
  import Comments
  import HexPatterns

  predicate IsItemRule(k: Kind) { k == MetaDef || k == PatternDef || k == WithDecl }

  /** An identifier directly in an item, or the closing brace of a rule. */
  predicate StartsLine(stack: seq<Kind>, t: Token) {
    stack != [] &&
    var top := stack[|stack| - 1];
    (Is(t, {CIdentifier}) && IsItemRule(top)) || (t == RBRACE && top == RuleDecl)
  }

  /** Only control tokens, blanks and marks come between the last newline and the next token. */
  function AtStart(start: bool, t: Token): bool {
    if t.Newline? then true else if Is(t, TEXT + COMMENT) then false else start
  }

  /** What has to start a line does so. */
  predicate LinesStart(stack: seq<Kind>, start: bool, ts: seq<Token>)
    decreases |ts|
  {
    ts == [] ||
    ((StartsLine(stack, ts[0]) ==> start) && LinesStart(OpenOne(stack, ts[0]), AtStart(start, ts[0]), ts[1..]))
  }

  function StartReached(start: bool, ts: seq<Token>): bool
    decreases |ts|
  {
    if ts == [] then start else StartReached(AtStart(start, ts[0]), ts[1..])
  }

  lemma {:induction false} LinesStartSnoc(stack: seq<Kind>, start: bool, ts: seq<Token>, t: Token)
    ensures LinesStart(stack, start, ts + [t]) <==>
            LinesStart(stack, start, ts) && (StartsLine(Open(stack, ts), t) ==> StartReached(start, ts))
    ensures StartReached(start, ts + [t]) == AtStart(StartReached(start, ts), t)
    decreases |ts|
  {
    if ts == [] {
      assert ts + [t] == [t] && [t][1..] == [];
    } else {
      assert (ts + [t])[0] == ts[0] && (ts + [t])[1..] == ts[1..] + [t];
      LinesStartSnoc(OpenOne(stack, ts[0]), AtStart(start, ts[0]), ts[1..], t);
    }
  }

  // ----- The rules for required newlines see to it

  lemma ItemIsPlaced(recent: seq<Token>, t: Token, stack: seq<Kind>)
    requires ItemStartsLine(View(recent, [t], stack)) && StartsLine(stack, t)
    ensures recent != [] && recent[0] == Newline
  {}

  lemma ControlStartsNothing(stack: seq<Kind>, t: Token, start: bool)
    requires Is(t, CONTROL)
    ensures !StartsLine(stack, t) && AtStart(start, t) == start
  {}

  lemma {:induction false} ObeyedLinesStart(s: RuleSet, out: seq<Token>)
    requires s.pass == CONTROL && Obeys(s, ItemStartsLine, out)
    ensures LinesStart([], false, out)
    ensures s.Recent(out) != [] && s.Recent(out)[0] == Newline ==> StartReached(false, out)
    decreases |out|
  {
    if out != [] {
      var init, t := out[..|out| - 1], out[|out| - 1];
      assert out == init + [t];
      ObeyedLinesStart(s, init);
      RecentSnoc(s, init, t);
      LinesStartSnoc([], false, init, t);
      assert s.Hidden(t) <==> Is(t, CONTROL);
      assert !s.Hidden(t) ==> ItemStartsLine(View(s.Recent(init), [t], Open([], init)));
      hide RuleSet.Recent, RuleSet.Hidden, LinesStart, StartReached, Obeys, Open, ItemStartsLine, StartsLine;
      if Is(t, CONTROL) {
        ControlStartsNothing(Open([], init), t, StartReached(false, init));
      } else if StartsLine(Open([], init), t) {
        ItemIsPlaced(s.Recent(init), t, Open([], init));
      }
    }
  }

  // ----- More newlines do no harm

  /** `b` is `a` with newlines added. */
  predicate More(a: seq<Token>, b: seq<Token>)
    decreases |b|
  {
    if b == [] then a == []
    else (a != [] && a[0] == b[0] && More(a[1..], b[1..])) || (b[0] == Newline && More(a, b[1..]))
  }

  lemma {:induction false} MoreLinesStart(stack: seq<Kind>, start: bool, more: bool, a: seq<Token>, b: seq<Token>)
    requires More(a, b) && LinesStart(stack, start, a) && (start ==> more)
    ensures LinesStart(stack, more, b)
    decreases |b|
  {
    if b != [] {
      var t := b[0];
      if a != [] && a[0] == t && More(a[1..], b[1..]) {
        MoreLinesStart(OpenOne(stack, t), AtStart(start, t), AtStart(more, t), a[1..], b[1..]);
      } else {
        MoreLinesStart(stack, start, true, a, b[1..]);
      }
    }
  }

  lemma {:induction false} MoreSame(a: seq<Token>)
    ensures More(a, a)
  {
    if a != [] {
      MoreSame(a[1..]);
    }
  }

  lemma {:induction false} MoreConcat(a: seq<Token>, b: seq<Token>, c: seq<Token>, d: seq<Token>)
    requires More(a, b) && More(c, d)
    ensures More(a + c, b + d)
    decreases |b|
  {
    if b == [] {
      assert a + c == c && b + d == d;
    } else {
      assert (b + d)[0] == b[0] && (b + d)[1..] == b[1..] + d;
      if a != [] && a[0] == b[0] && More(a[1..], b[1..]) {
        assert (a + c)[0] == a[0] && (a + c)[1..] == a[1..] + c;
        MoreConcat(a[1..], b[1..], c, d);
      } else {
        MoreConcat(a, b[1..], c, d);
      }
    }
  }

  lemma {:induction false} OnlyMore(newlines: seq<Token>)
    requires forall i :: 0 <= i < |newlines| ==> newlines[i] == Newline
    ensures More([], newlines)
    decreases |newlines|
  {
    if newlines != [] {
      OnlyMore(newlines[1..]);
    }
  }

  lemma EmitIsMore(st: HexPatterns.State, buffer: seq<Token>, t: Token)
    ensures var head := HexPatterns.Emit(st, buffer, t).0; head == [] || More(buffer + [t], head)
  {
    MoreSame(buffer + [t]);
    MoreSame(buffer);
    MoreSame([t]);
    if t == RBRACE && st.inHexPattern {
      var sep := HexPatterns.Separator(st.multiLine, buffer);
      OnlyMore(sep);
      MoreConcat([], sep, [t], [t]);
      MoreConcat(buffer, buffer, [t], sep + [t]);
      assert [] + [t] == [t] && buffer + (sep + [t]) == buffer + sep + [t];
    } else if t == Newline && st.inHexPattern {
      assert More(buffer + [t], [Newline] + (buffer + [t])) by {
        assert ([Newline] + (buffer + [t]))[1..] == buffer + [t];
      }
    }
  }

  lemma {:induction false} LayoutIsMore(st: HexPatterns.State, buffer: seq<Token>, ts: seq<Token>)
    ensures More(buffer + ts, HexPatterns.Flow(st, buffer, ts))
    decreases |ts|
  {
    if ts == [] {
      assert buffer + ts == buffer;
      MoreSame(buffer);
    } else {
      var t, rest := ts[0], ts[1..];
      var (head, next) := HexPatterns.Emit(st, buffer, t);
      EmitIsMore(st, buffer, t);
      hide More, HexPatterns.Emit;
      assert buffer + ts == buffer + [t] + rest;
      if head == [] {
        LayoutIsMore(next, buffer + [t], rest);
      } else {
        LayoutIsMore(next, [], rest);
        assert [] + rest == rest;
        MoreConcat(buffer + [t], head, rest, HexPatterns.Flow(next, [], rest));
      }
    }
  }

  /** Rules that only insert newlines. */
  ghost predicate OnlyNewlines(s: RuleSet) {
    && s.Valid()
    && forall i :: 0 <= i < |s.rules| ==> s.rules[i].action == Insert([Newline])
  }

  lemma {:induction false} InsertedAreNewlines(s: RuleSet, v: View, n: nat)
    requires OnlyNewlines(s) && s.Settles(v, n)
    ensures forall i :: 0 <= i < |s.Inserted(v, n)| ==> s.Inserted(v, n)[i] == Newline
    ensures !s.Drops(v, n)
    decreases n
  {
    MatchComesFromRules(s, 0, v);
    if s.Match(v).Insert? {
      InsertedAreNewlines(s, s.After(v, [Newline]), n - 1);
    }
  }

  lemma ConsumedIsMore(s: RuleSet, out: seq<Token>, v: View, t: Token)
    requires OnlyNewlines(s)
    ensures s.Settles(v, MAX_INSERTIONS) && More(out + [t], s.Consume(out, v, t))
  {
    assert s.Settles(v, MAX_INSERTIONS);
    var ins := s.Inserted(v, MAX_INSERTIONS);
    InsertedAreNewlines(s, v, MAX_INSERTIONS);
    hide OnlyNewlines, RuleSet.Inserted, RuleSet.Drops, More;
    OnlyMore(ins);
    MoreSame(out);
    MoreSame([t]);
    MoreConcat(out, out, [], ins);
    MoreConcat(out + [], out + ins, [t], [t]);
    assert out + [] == out;
  }

  lemma ClosingIsMore(s: RuleSet, out: seq<Token>)
    requires OnlyNewlines(s)
    ensures More(out, out + s.Closing(out))
  {
    MatchComesFromRules(s, 0, s.Look(out, []));
    OnlyMore(s.Closing(out));
    MoreSame(out);
    MoreConcat(out, out, [], s.Closing(out));
    assert out + [] == out;
  }

  lemma {:induction false} MoreAgain(a: seq<Token>, b: seq<Token>, c: seq<Token>)
    requires More(a, b) && More(b, c)
    ensures More(a, c)
    decreases |c|
  {
    if c != [] {
      if b != [] && b[0] == c[0] && More(b[1..], c[1..]) {
        if a != [] && a[0] == b[0] && More(a[1..], b[1..]) {
          MoreAgain(a[1..], b[1..], c[1..]);
        } else {
          MoreAgain(a, b[1..], c[1..]);
        }
      } else {
        MoreAgain(a, b, c[1..]);
      }
    }
  }

  lemma {:induction false} RewriteIsMore(s: RuleSet, out: seq<Token>, rest: seq<Token>)
    requires s.Valid() && OnlyNewlines(s)
    ensures More(out + rest, s.Rewrite(out, rest))
    decreases |rest|
  {
    hide OnlyNewlines, More, RuleSet.Look, RuleSet.Rewrite, RuleSet.Skip, RuleSet.Valid;
    if rest == [] {
      NothingToRewrite(s, out, rest);
    } else {
      var (out1, rest1) := s.Skip(out, rest);
      SkipIsSame(s, out, rest);
      if rest1 == [] {
        assert out1 + rest1 == out1;
        ClosingIsMore(s, out1);
      } else {
        var after := OneConsumed(s, out1, rest1);
        RewriteIsMore(s, after, rest1[1..]);
        MoreAgain(out + rest, after + rest1[1..], s.Rewrite(out, rest));
      }
    }
  }

  lemma NothingToRewrite(s: RuleSet, out: seq<Token>, rest: seq<Token>)
    requires s.Valid() && rest == []
    ensures More(out + rest, s.Rewrite(out, rest))
  {
    assert out + rest == out;
    MoreSame(out);
  }

  lemma OneConsumed(s: RuleSet, out: seq<Token>, rest: seq<Token>) returns (after: seq<Token>)
    requires s.Valid() && OnlyNewlines(s) && rest != []
    ensures s.Settles(s.Look(out, rest), MAX_INSERTIONS) && after == s.Consume(out, s.Look(out, rest), rest[0])
    ensures More(out + rest, after + rest[1..])
  {
    ConsumedIsMore(s, out, s.Look(out, rest), rest[0]);
    hide OnlyNewlines, More, RuleSet.Look, RuleSet.Consume, RuleSet.Valid;
    after := s.Consume(out, s.Look(out, rest), rest[0]);
    assert out + rest == (out + [rest[0]]) + rest[1..];
    MoreSame(rest[1..]);
    MoreConcat(out + [rest[0]], after, rest[1..], rest[1..]);
  }

  lemma SkipIsSame(s: RuleSet, out: seq<Token>, rest: seq<Token>)
    requires s.Valid() && rest != []
    ensures
      var (out1, rest1) := s.Skip(out, rest);
      && out + rest == out1 + rest1 && |rest1| <= |rest|
      && s.Rewrite(out, rest) ==
         if rest1 == [] then out1 + s.Closing(out1) else s.Rewrite(s.Consume(out1, s.Look(out1, rest1), rest1[0]),
             rest1[1..])
  {
    hide *;
    SkipSplits(s, out, rest);
    RewriteSkips(s, out, rest);
  }

  lemma SkipSplits(s: RuleSet, out: seq<Token>, rest: seq<Token>)
    ensures var (out1, rest1) := s.Skip(out, rest); out + rest == out1 + rest1 && |rest1| <= |rest|
  {
    hide RuleSet.Hidden;
    var n := s.Leading(rest);
    Assoc(out, rest[..n], rest[n..]);
    assert rest == rest[..n] + rest[n..];
  }

  lemma RewriteSkips(s: RuleSet, out: seq<Token>, rest: seq<Token>)
    requires s.Valid() && rest != []
    ensures
      var (out1, rest1) := s.Skip(out, rest);
      s.Rewrite(out, rest) ==
      if rest1 == [] then out1 + s.Closing(out1) else s.Rewrite(s.Consume(out1, s.Look(out1, rest1), rest1[0]),
          rest1[1..])
  {
    hide RuleSet.Look, RuleSet.Consume, RuleSet.Closing, RuleSet.Hidden, RuleSet.Leading, RuleSet.Skip, RuleSet.Settles;
  }

  // ----- What the condition depends on

  function Structure(t: Token): seq<Token> {
    if Is(t, TEXT + COMMENT + NEWLINE) || t.Begin? || t.End? then [t] else []
  }

  lemma {:induction false} LinesStartByStructure(stack: seq<Kind>, start: bool, ts: seq<Token>)
    ensures LinesStart(stack, start, ts) <==> LinesStart(stack, start, FlatMap(Structure, ts))
    decreases |ts|
  {
    if ts != [] {
      var t, rest := ts[0], ts[1..];
      LinesStartByStructure(OpenOne(stack, t), AtStart(start, t), rest);
      FlatMapCons(Structure, ts);
      if Structure(t) == [] {
        NoStructure(stack, start, t);
        assert [] + FlatMap(Structure, rest) == FlatMap(Structure, rest);
      } else {
        hide StartsLine, AtStart, OpenOne;
        assert ([t] + FlatMap(Structure, rest))[1..] == FlatMap(Structure, rest);
      }
    }
  }

  lemma NoStructure(stack: seq<Kind>, start: bool, t: Token)
    requires Structure(t) == []
    ensures !StartsLine(stack, t) && OpenOne(stack, t) == stack && AtStart(start, t) == start
  {}

  ghost predicate IsLevel(st: Stage) {
    || st == ApplyRules(IndentBody()) || st == ApplyRules(IndentSections()) || st == ApplyRules(IndentHexPatterns())
    || st == ApplyRules(IndentParenthesized()) || st == ApplyRules(IndentWith()) || st == Reorder(INDENTATION_UP)
  }

  lemma LevelsAreLevels(o: Options)
    ensures forall i :: 0 <= i < |IndentationStages(o)| ==> IsLevel(IndentationStages(o)[i])
  {}

  /** Rules that only insert changes of the level. */
  ghost predicate OnlyLevels(s: RuleSet) {
    forall i :: 0 <= i < |s.rules| ==>
      s.rules[i].action == Insert([Indentation(1)]) || s.rules[i].action == Insert([Indentation(-1)])
  }

  lemma LevelRulesAre()
    ensures OnlyLevels(IndentBody()) && OnlyLevels(IndentSections()) && OnlyLevels(IndentHexPatterns())
    ensures OnlyLevels(IndentParenthesized()) && OnlyLevels(IndentWith())
  {}

  lemma LevelsSayNothing(s: RuleSet)
    requires OnlyLevels(s)
    ensures Harmless(s, Structure)
  {
    forall i, j | 0 <= i < |s.rules| && s.rules[i].action.Insert? && 0 <= j < |s.rules[i].action.tokens|
      ensures Structure(s.rules[i].action.tokens[j]) == []
    {
      assert s.rules[i].action == Insert([Indentation(1)]) || s.rules[i].action == Insert([Indentation(-1)]);
    }
  }

  lemma LevelStageSees(st: Stage, ts: seq<Token>)
    requires StageOk(st) && IsLevel(st)
    ensures FlatMap(Structure, Apply(st, ts)) == FlatMap(Structure, ts)
  {
    FlatMapNothing(Structure, []);
    LevelRulesAre();
    var all := FlatMap(Structure, ts);
    assert [] + all == all;
    assert forall t :: INDENTATION_UP.air(t) ==> Structure(t) == [];
    hide FlatMap, IndentBody, IndentSections, IndentHexPatterns, IndentParenthesized, IndentWith, OnlyLevels, Fit;
    match st
    case ApplyRules(s) =>
      LevelsSayNothing(s);
      RewritePreserves(s, Structure, [], ts);
    case Reorder(m) => Bubbles.FlowPreserves(m, Structure, [], ts);
    case _ =>
  }

  lemma {:induction false} LevelStagesSee(stages: seq<Stage>, ts: seq<Token>)
    requires AllOk(stages) && forall i :: 0 <= i < |stages| ==> IsLevel(stages[i])
    ensures FlatMap(Structure, ApplyAll(stages, ts)) == FlatMap(Structure, ts)
    decreases |stages|
  {
    hide StageOk, IsLevel, FlatMap;
    if stages != [] {
      LevelStageSees(stages[0], ts);
      LevelStagesSee(stages[1..], Apply(stages[0], ts));
    }
  }

  // ----- The whole pipeline

  /** The stages before the required newlines. */
  function FirstNewlineStages(o: Options): seq<Stage> { NewlineStages(o)[..|NewlineStages(o)| - 2] }

  lemma NewlineStagesEnd(o: Options)
    ensures AllOk(NewlineStages(o)) && AllOk(FirstNewlineStages(o))
    ensures NewlineStages(o) == FirstNewlineStages(o) + [ApplyRules(RequiredNewlines()), LayoutHexPatterns]
  {
    NewlineStagesOk(o);
    hide StageOk;
  }

  lemma RequiredLinesStart(ts: seq<Token>)
    ensures RequiredNewlines().Valid()
    ensures LinesStart([], false, HexPatterns.Flow(HexPatterns.START, [], RequiredNewlines().Run(ts)))
  {
    ItemsStartLines(ts);
    var out := RequiredNewlines().Run(ts);
    assert RequiredNewlines().pass == CONTROL;
    hide RequiredNewlines, Obeys, LinesStart, HexPatterns.Flow, More;
    ObeyedLinesStart(RequiredNewlines(), out);
    LayoutIsMore(HexPatterns.START, [], out);
    assert [] + out == out;
    MoreLinesStart([], false, false, out, HexPatterns.Flow(HexPatterns.START, [], out));
  }

  lemma NewlineStagesStartLines(o: Options, ts: seq<Token>)
    ensures AllOk(NewlineStages(o)) && LinesStart([], false, ApplyAll(NewlineStages(o), ts))
  {
    NewlineStagesEnd(o);
    RequiredNewlinesFit();
    var last := [ApplyRules(RequiredNewlines()), LayoutHexPatterns];
    assert StageOk(last[0]) && StageOk(last[1]);
    hide RequiredNewlines, StageOk, LinesStart, NewlineStages, FirstNewlineStages, Fit;
    var x := ApplyAll(FirstNewlineStages(o), ts);
    ApplyAllConcat(FirstNewlineStages(o), last, ts);
    ApplyFirst(last, x);
    assert last[1..] == [LayoutHexPatterns];
    ApplyFirst([LayoutHexPatterns], Apply(last[0], x));
    RequiredLinesStart(x);
  }

  lemma EarlyStartsLines(o: Options, ts: seq<Token>)
    ensures LinesStart([], false, Early(o, ts))
  {
    PipelineOk(o);
    IndentationStagesOk(o);
    var processed := Comments.Run(o.tabSize, StatementLines().Run(ts));
    NewlineStagesStartLines(o, processed);
    LevelsAreLevels(o);
    hide StageOk, NewlineStages, IndentationStages, LinesStart, FlatMap, IsLevel, StatementLines;
    var x := ApplyAll(NewlineStages(o), processed);
    ApplyAllConcat(NewlineStages(o), IndentationStages(o), processed);
    LevelStagesSee(IndentationStages(o), x);
    LinesStartByStructure([], false, x);
    LinesStartByStructure([], false, ApplyAll(IndentationStages(o), x));
  }

  lemma StructureIgnoresBlanks()
    ensures IgnoresBlanks(Structure)
  {}

  lemma CommentRulesInsertNewlines()
    ensures OnlyNewlines(NewlineAfterComments())
  {
    NewlineAfterCommentsFit();
  }

  /**
   In the formatted program, for every stream and all options, nothing but
   blanks and control tokens comes between a newline and the identifier of a meta
   definition, a pattern definition or a declaration, or the closing brace of a
   rule.
   */
  lemma FormattedItemsStartLines(o: Options, ts: seq<Token>)
    ensures LinesStart([], false, Format(o, ts))
  {
    FormatIsSpacedEarly(o, ts);
    EarlyStartsLines(o, ts);
    CommentRulesInsertNewlines();
    StructureIgnoresBlanks();
    hide Format, Early, SpacingStages, StageOk, LinesStart, FlatMap, OnlyNewlines, NewlineAfterComments, More;
    var early := Early(o, ts);
    SpacingStagesSee(o, Structure, early);
    RewriteIsMore(NewlineAfterComments(), [], early);
    assert [] + early == early;
    var ended := NewlineAfterComments().Run(early);
    MoreLinesStart([], false, false, early, ended);
    LinesStartByStructure([], false, ended);
    LinesStartByStructure([], false, Format(o, ts));
  }
}
