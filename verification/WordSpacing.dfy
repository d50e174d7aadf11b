/**
 Formatting never glues words together: between two consecutive words of the
 final output there is a blank, a newline, a comment or some punctuation.
 */
module WordSpacing {
  import opened Seqs
  import opened Tokens
  import opened Processors
  import opened Preservation
  import opened RuleSets
  import opened BlockMarkers
  import opened Formatter
  import AddingIndentation
  import Alignment
  import Comments
  import TrailingSpaces

  predicate IsWord(t: Token) { Is(t, {CKeyword, CIdentifier, CLiteral}) }

  /** What is written: control tokens and marks are not. */
  predicate IsShown(t: Token) { Is(t, TEXT + COMMENT + NEWLINE + {CWhitespace}) }

  /** The last shown token is a word, given whether one was before `ts`. */
  function EndsInWord(word: bool, ts: seq<Token>): bool
    decreases |ts|
  {
    if ts == [] then word
    else EndsInWord(if IsShown(ts[0]) then IsWord(ts[0]) else word, ts[1..])
  }

  /** No word comes right after another one, nothing shown being in between. */
  predicate Apart(word: bool, ts: seq<Token>)
    decreases |ts|
  {
    ts == [] || (
      && !(word && IsWord(ts[0]))
      && Apart(if IsShown(ts[0]) then IsWord(ts[0]) else word, ts[1..])
    )
  }

  lemma {:induction false} ApartConcat(word: bool, a: seq<Token>, b: seq<Token>)
    ensures Apart(word, a + b) <==> Apart(word, a) && Apart(EndsInWord(word, a), b)
    ensures EndsInWord(word, a + b) == EndsInWord(EndsInWord(word, a), b)
    decreases |a|
  {
    if a == [] {
      assert a + b == b;
    } else {
      assert (a + b)[0] == a[0] && (a + b)[1..] == a[1..] + b;
      ApartConcat(if IsShown(a[0]) then IsWord(a[0]) else word, a[1..], b);
    }
  }

  lemma ApartOne(word: bool, t: Token)
    ensures Apart(word, [t]) <==> !(word && IsWord(t))
    ensures EndsInWord(word, [t]) == if IsShown(t) then IsWord(t) else word
  {
    assert [t][1..] == [];
  }

  /** Tokens that are no words can be written anywhere. */
  lemma {:induction false} NoWords(word: bool, ts: seq<Token>)
    requires forall i :: 0 <= i < |ts| ==> !IsWord(ts[i])
    ensures Apart(word, ts)
    ensures EndsInWord(word, ts) ==> word
    ensures (exists i :: 0 <= i < |ts| && IsShown(ts[i])) ==> !EndsInWord(word, ts)
    decreases |ts|
  {
    if ts != [] {
      NoWords(if IsShown(ts[0]) then false else word, ts[1..]);
      if i :| 0 <= i < |ts| && IsShown(ts[i]) && i > 0 {
        assert IsShown(ts[1..][i - 1]);
      }
    }
  }

  function Show(t: Token): seq<Token> {
    if IsShown(t) then [t] else []
  }

  lemma {:induction false} ApartByShown(word: bool, ts: seq<Token>)
    ensures Apart(word, ts) <==> Apart(word, FlatMap(Show, ts))
    decreases |ts|
  {
    if ts != [] {
      var t, rest := ts[0], ts[1..];
      ApartByShown(if IsShown(t) then IsWord(t) else word, rest);
      if IsShown(t) {
        assert FlatMap(Show, ts)[1..] == FlatMap(Show, rest);
      } else {
        assert FlatMap(Show, ts) == FlatMap(Show, rest);
      }
    }
  }

  // ----- The spacing rules put words apart

  lemma WordsNeedSpace(v: View)
    requires IsWord(v.Tok(-1)) && IsWord(v.Tok(1))
    ensures NeedsSpace(v)
  {}

  /** Between two words a space is inserted; whatever is inserted is a space. */
  lemma SpaceInserted(v: View, n: nat)
    requires Spacing().Settles(v, n)
    ensures
      var ins := Spacing().Inserted(v, n);
      && (forall i :: 0 <= i < |ins| ==> ins[i] == Whitespace)
      && (IsWord(v.Tok(-1)) && IsWord(v.Tok(1)) ==> ins != [])
    ensures !Spacing().Drops(v, n)
    decreases n
  {
    MatchComesFromRules(Spacing(), 0, v);
    if IsWord(v.Tok(-1)) && IsWord(v.Tok(1)) {
      WordsNeedSpace(v);
    }
    hide NeedsSpace;
    match Spacing().Match(v) {
      case Insert(ts) => SpaceInserted(Spacing().After(v, ts), n - 1);
      case _ =>
    }
  }

  lemma ShownOrHidden(t: Token)
    requires Tokens.Marks(t) == []
    ensures IsShown(t) <==> !Is(t, CONTROL)
    ensures IsWord(t) ==> IsShown(t)
  {}

  /** Conditions see whether the output ends in a word. */
  lemma {:induction false} EndsInRecent(s: RuleSet, out: seq<Token>)
    requires s.pass == CONTROL && Unmarked(out)
    ensures EndsInWord(false, out) == (s.Recent(out) != [] && IsWord(s.Recent(out)[0]))
    decreases |out|
  {
    if out != [] {
      var init, t := out[..|out| - 1], out[|out| - 1];
      assert out == init + [t];
      assert Tokens.Marks(out[|out| - 1]) == [];
      ShownOrHidden(t);
      hide IsShown;
      hide IsWord;
      RecentSnoc(s, init, t);
      ApartConcat(false, init, [t]);
      ApartOne(EndsInWord(false, init), t);
      forall i | 0 <= i < |init| ensures Tokens.Marks(init[i]) == [] { assert init[i] == out[i]; }
      EndsInRecent(s, init);
    }
  }

  lemma HiddenApart(out: seq<Token>, hidden: seq<Token>)
    requires Apart(false, out)
    requires forall i :: 0 <= i < |hidden| ==> Spacing().Hidden(hidden[i])
    ensures Apart(false, out + hidden)
  {
    forall i | 0 <= i < |hidden| ensures !IsWord(hidden[i]) {
      assert Spacing().Hidden(hidden[i]);
    }
    ApartConcat(false, out, hidden);
    NoWords(EndsInWord(false, out), hidden);
  }

  /** A visible token is written apart from the previous word. */
  lemma ConsumeApart(out: seq<Token>, rest: seq<Token>)
    requires Fit(Spacing(), IsPlain)
    requires Apart(false, out) && Unmarked(out)
    requires rest != [] && !Spacing().Hidden(rest[0]) && Tokens.Marks(rest[0]) == []
    ensures
      var after := Spacing().Consume(out, Spacing().Look(out, rest), rest[0]);
      Apart(false, after) && Unmarked(after)
  {
    var s, t := Spacing(), rest[0];
    var v := s.Look(out, rest);
    assert s.Settles(v, MAX_INSERTIONS);
    SpaceInserted(v, MAX_INSERTIONS);
    FirstAhead(s, out, rest);
    EndsInRecent(s, out);
    hide Fit;
    hide Spacing;
    hide RuleSet.Look;
    SpacesApart(out, s.Inserted(v, MAX_INSERTIONS), t);
  }

  lemma SpacesApart(out: seq<Token>, ins: seq<Token>, t: Token)
    requires Apart(false, out) && Unmarked(out) && Tokens.Marks(t) == []
    requires forall i :: 0 <= i < |ins| ==> ins[i] == Whitespace
    requires EndsInWord(false, out) && IsWord(t) ==> ins != []
    ensures Apart(false, out + ins + [t]) && Unmarked(out + ins + [t])
  {
    var word := EndsInWord(false, out);
    NoWords(word, ins);
    ApartConcat(false, out, ins);
    ApartConcat(false, out + ins, [t]);
    ApartOne(EndsInWord(word, ins), t);
    if ins != [] {
      assert IsShown(ins[0]);
    }
    UnmarkedConcat(out, ins, t);
  }

  lemma UnmarkedConcat(out: seq<Token>, ins: seq<Token>, t: Token)
    requires Unmarked(out) && Tokens.Marks(t) == []
    requires forall i :: 0 <= i < |ins| ==> ins[i] == Whitespace
    ensures Unmarked(out + ins + [t])
  {
    var all := out + ins + [t];
    forall i | 0 <= i < |all| ensures Tokens.Marks(all[i]) == [] {
      if i < |out| {
        assert all[i] == out[i];
      } else if i < |out| + |ins| {
        assert all[i] == ins[i - |out|];
      }
    }
  }

  lemma {:induction false} RewriteApart(out: seq<Token>, rest: seq<Token>)
    requires Fit(Spacing(), IsPlain)
    requires Apart(false, out) && Unmarked(out) && Unmarked(rest)
    ensures Apart(false, Spacing().Rewrite(out, rest))
    decreases |rest|
  {
    var s := Spacing();
    if rest != [] {
      var n := s.Leading(rest);
      var (out1, rest1) := s.Skip(out, rest);
      HiddenApart(out, rest[..n]);
      assert Unmarked(rest[..n]) && Unmarked(rest1);
      assert Unmarked(out1);
      hide Apart;
      hide RuleSet.Look;
      if rest1 == [] {
        ClosingApart(out1);
      } else {
        assert Tokens.Marks(rest1[0]) == [];
        assert rest1[0] == rest[n];
        ConsumeApart(out1, rest1);
        RewriteApart(s.Consume(out1, s.Look(out1, rest1), rest1[0]), rest1[1..]);
      }
    }
  }

  lemma ClosingApart(out: seq<Token>)
    requires Fit(Spacing(), IsPlain) && Apart(false, out)
    ensures Apart(false, out + Spacing().Closing(out))
  {
    var s, v := Spacing(), Spacing().Look(out, []);
    MatchComesFromRules(s, 0, v);
    hide NeedsSpace;
    ApartConcat(false, out, s.Closing(out));
    NoWords(EndsInWord(false, out), s.Closing(out));
  }

  // ----- Later stages keep words apart

  lemma {:induction false} PaddingApart(word: bool, was: bool, pads: seq<nat>, block: seq<Token>)
    requires |pads| == |Alignment.Columns(0, block)|
    requires Apart(was, block) && (word ==> was)
    ensures
      var padded := Alignment.Unmark(Alignment.PadWith(pads, block));
      Apart(word, padded) && (EndsInWord(word, padded) ==> EndsInWord(was, block))
    decreases |block|
  {
    if block != [] {
      var t, rest := block[0], block[1..];
      Alignment.PadStep(pads, block);
      if t.AlignmentMarker? {
        var spaces := Repeat(Whitespace, pads[0]);
        var tail := Alignment.Unmark(Alignment.PadWith(pads[1..], rest));
        NoWords(word, spaces);
        PaddingApart(EndsInWord(word, spaces), was, pads[1..], rest);
        ApartConcat(word, spaces, tail);
      } else {
        var tail := Alignment.Unmark(Alignment.PadWith(pads, rest));
        PaddingApart(if IsShown(t) then IsWord(t) else word, if IsShown(t) then IsWord(t) else was, pads, rest);
        assert ([t] + tail)[0] == t && ([t] + tail)[1..] == tail;
      }
    }
  }

  lemma {:induction false} SplitBlock(word: bool, ts: seq<Token>)
    requires Apart(word, ts)
    ensures Apart(word, Alignment.Block(ts))
    ensures Apart(EndsInWord(word, Alignment.Block(ts)), Alignment.AfterBlock(ts))
    decreases |ts|
  {
    if ts != [] && ts[0] != AlignmentBlockEnd {
      SplitBlock(if IsShown(ts[0]) then IsWord(ts[0]) else word, ts[1..]);
      assert Alignment.Block(ts)[1..] == Alignment.Block(ts[1..]);
    }
  }

  lemma {:induction false} AlignApart(word: bool, was: bool, ts: seq<Token>)
    requires Apart(was, ts) && (word ==> was)
    ensures Apart(word, Alignment.Flow(ts))
    decreases |ts|
  {
    if ts != [] {
      var t, rest := ts[0], ts[1..];
      if t == AlignmentBlockBegin {
        var block, after := Alignment.Block(rest), Alignment.AfterBlock(rest);
        var columns := Alignment.Columns(0, block);
        SplitBlock(was, rest);
        PaddingApart(word, was, Alignment.Lacking(Alignment.Max(columns), columns), block);
        var padded := Alignment.Unmark(Alignment.Aligned(block));
        AlignApart(EndsInWord(word, padded), EndsInWord(was, block), after);
        ApartConcat(word, padded, Alignment.Flow(after));
      } else {
        AlignApart(if IsShown(t) then IsWord(t) else word, if IsShown(t) then IsWord(t) else was, rest);
        assert ([t] + Alignment.Flow(rest))[1..] == Alignment.Flow(rest);
      }
    }
  }

  lemma {:induction false} IndentApart(word: bool, style: AddingIndentation.Style, level: int, ts: seq<Token>)
    requires Apart(word, ts)
    ensures Apart(word, AddingIndentation.Indent(style, level, ts))
    decreases |ts|
  {
    if ts != [] {
      var t, rest := ts[0], ts[1..];
      if t.Indentation? {
        IndentApart(word, style, level + t.delta, rest);
      } else {
        var tail := AddingIndentation.Indent(style, level, rest);
        IndentApart(if IsShown(t) then IsWord(t) else word, style, level, rest);
        if t.Newline? {
          var line := [Newline] + AddingIndentation.Margin(style, level);
          NoWords(word, line);
          assert IsShown(line[0]);
          ApartConcat(word, line, tail);
        } else {
          assert ([t] + tail)[1..] == tail;
        }
      }
    }
  }

  lemma {:induction false} TrimApart(word: bool, buffer: seq<Token>, ts: seq<Token>)
    requires TrailingSpaces.Waiting(buffer) && Apart(word, buffer + ts)
    ensures Apart(word, TrailingSpaces.Trim(buffer, ts))
    decreases |ts|
  {
    if ts == [] {
      assert buffer + ts == buffer;
    } else {
      var t, rest := ts[0], ts[1..];
      assert buffer + ts == (buffer + [t]) + rest;
      ApartConcat(word, buffer + [t], rest);
      ApartConcat(word, buffer, [t]);
      ApartOne(EndsInWord(word, buffer), t);
      if t.Newline? {
        var kept := Filter(TrailingSpaces.IsControl, buffer);
        FilterIn(TrailingSpaces.IsControl, buffer);
        NoWords(word, kept + [t]);
        assert IsShown((kept + [t])[|kept|]);
        assert [] + rest == rest;
        TrimApart(false, [], rest);
        ApartConcat(word, kept + [t], TrailingSpaces.Trim([], rest));
      } else if IsBlank(t) || TrailingSpaces.IsControl(t) {
        TrimApart(word, buffer + [t], rest);
      } else {
        assert [] + rest == rest;
        TrimApart(EndsInWord(word, buffer + [t]), [], rest);
        ApartConcat(word, buffer + [t], TrailingSpaces.Trim([], rest));
      }
    }
  }

  lemma MarkingApart(k: Marking, ts: seq<Token>)
    requires Fit(k.Rules(), IsMark) && Apart(false, ts)
    ensures Apart(false, k.Rules().Run(ts))
  {
    NothingShownInserted(k);
    RewritePreserves(k.Rules(), Show, [], ts);
    ApartByShown(false, ts);
    ApartByShown(false, k.Rules().Run(ts));
    assert [] + FlatMap(Show, ts) == FlatMap(Show, ts);
  }

  lemma NothingShownInserted(k: Marking)
    requires Fit(k.Rules(), IsMark)
    ensures k.Rules().Valid() && Harmless(k.Rules(), Show)
  {}

  // ----- The whole pipeline

  /** Stages that come after the spacing rules. */
  ghost predicate IsLate(st: Stage) { st.AlignBlocks? || st.IndentLines? || st.TrimLines? }

  lemma LateStageApart(st: Stage, ts: seq<Token>)
    requires StageOk(st) && IsLate(st) && Apart(false, ts)
    ensures Apart(false, Apply(st, ts))
  {
    match st
    case AlignBlocks(k) =>
      MarkingApart(k, ts);
      AlignApart(false, false, k.Rules().Run(ts));
    case IndentLines(style) => IndentApart(false, style, 0, ts);
    case TrimLines =>
      assert [] + ts == ts;
      TrimApart(false, [], ts);
    case _ =>
  }

  lemma {:induction false} LateStagesApart(stages: seq<Stage>, ts: seq<Token>)
    requires AllOk(stages) && Apart(false, ts)
    requires forall i :: 0 <= i < |stages| ==> IsLate(stages[i])
    ensures Apart(false, ApplyAll(stages, ts))
    decreases |stages|
  {
    hide StageOk;
    hide Apart;
    if stages != [] {
      LateStageApart(stages[0], ts);
      LateStagesApart(stages[1..], Apply(stages[0], ts));
    }
  }

  lemma {:induction false} ApplyAllConcat(a: seq<Stage>, b: seq<Stage>, ts: seq<Token>)
    requires AllOk(a) && AllOk(b) && AllOk(a + b)
    ensures ApplyAll(a + b, ts) == ApplyAll(b, ApplyAll(a, ts))
    decreases |a|
  {
    hide StageOk;
    if a == [] {
      assert a + b == b;
    } else {
      assert (a + b)[0] == a[0] && (a + b)[1..] == a[1..] + b;
      ApplyAllConcat(a[1..], b, Apply(a[0], ts));
    }
  }

  lemma LastStagesAreLate(o: Options)
    ensures forall i :: 0 <= i < |LastStages(o)| ==> IsLate(LastStages(o)[i])
  {}

  /** From the spacing rules on, words are apart. */
  lemma SpacingStagesApart(o: Options, ts: seq<Token>)
    requires AllOk(SpacingStages(o)) && Ready(ts)
    ensures Apart(false, ApplyAll(SpacingStages(o), ts))
  {
    var before, spacing, stages := ApplyRules(NewlineAfterComments()), ApplyRules(RuleSets.Spacing()), SpacingStages(o);
    assert stages[1..] == [spacing] + LastStages(o) && stages[1..][1..] == LastStages(o);
    ApplyFirst(stages, ts);
    StageKeeps(before, ts);
    ApplyFirst(stages[1..], Apply(before, ts));
    RewriteApart([], Apply(before, ts));
    LastStagesAreLate(o);
    LateStagesApart(LastStages(o), Apply(spacing, Apply(before, ts)));
  }

  /**
   In the formatted program no word comes right after another: consecutive
   words have a blank, a newline, a comment or punctuation between them.
   */
  lemma FormattingKeepsWordsApart(o: Options, ts: seq<Token>)
    requires Source(ts)
    ensures Apart(false, Format(o, ts))
  {
    PipelineOk(o);
    NewlineStagesOk(o);
    IndentationStagesOk(o);
    SpacingStagesOk(o);
    NoCommentsEarly(o);
    ApplyFirstTwo(o, ts);
    FirstTwoKeep(o, ts);
    hide StageOk;
    hide Source;
    hide Ready;
    hide NewlineStages;
    hide IndentationStages;
    hide SpacingStages;
    hide Format;
    var early := NewlineStages(o) + IndentationStages(o);
    var ts1 := Comments.Run(o.tabSize, StatementLines().Run(ts));
    StagesKeep(early, ts1);
    ApplyAllConcat(early, SpacingStages(o), ts1);
    SpacingStagesApart(o, ApplyAll(early, ts1));
  }

  lemma NoCommentsEarly(o: Options)
    ensures NoComments(NewlineStages(o) + IndentationStages(o))
  {}
}
