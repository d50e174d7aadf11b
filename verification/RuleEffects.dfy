/**
 What the rule sets achieve. A condition on the place where each visible token
 stands holds everywhere in the output of a rule set, if the rules see to it
 whenever a token is inserted or copied.
 */
module RuleEffects {
  import opened Seqs
  import opened Tokens
  import opened Processors
  import opened RuleSets

  /** Something that is said of a token together with what comes before it. */
  type Condition = View -> bool

  /** The place of the token `t` after `out`. */
  function Place(s: RuleSet, out: seq<Token>, t: Token): View {
    View(s.Recent(out), [t], Open([], out))
  }

  /** The condition holds for every visible token of a stream. */
  predicate Obeys(s: RuleSet, ok: Condition, out: seq<Token>)
    decreases |out|
  {
    out == [] ||
    (var init, t := out[..|out| - 1], out[|out| - 1];
     Obeys(s, ok, init) && (s.Hidden(t) || ok(Place(s, init, t))))
  }

  /** The condition holds for tokens that are inserted one after another. */
  predicate OkAll(s: RuleSet, ok: Condition, prev: seq<Token>, stack: seq<Kind>, ts: seq<Token>)
    decreases |ts|
  {
    ts == [] ||
    (ok(View(prev, [ts[0]], stack)) && OkAll(s, ok, s.Remember(prev, ts[0]), stack, ts[1..]))
  }

  /** Grammar rules are not hidden from the rules. */
  predicate SeesGrammar(s: RuleSet) { CBegin !in s.pass && CEnd !in s.pass }

  /** What the next view is like once a token has been copied or dropped at `v`. */
  predicate Follows(s: RuleSet, v: View, w: View) {
    && v.next != []
    && w.prev == (if s.Match(v).Drop? then v.prev else s.Remember(v.prev, v.next[0]))
    && (if |v.next| < MAX_NEXT_TOKENS then w.next == v.next[1..] else v.next[1..] <= w.next)
    && (SeesGrammar(s) ==> w.stack == if s.Match(v).Drop? then v.stack else OpenOne(v.stack, v.next[0]))
  }

  /** Something that is known of the tokens ahead. */
  type Outlook = seq<Token> -> bool

  const ANYTHING: Outlook := (ts: seq<Token>) => true

  /** What is known of the tokens ahead at every place of the input. */
  ghost predicate AllAhead(s: RuleSet, sees: Outlook, rest: seq<Token>) {
    forall i :: 0 <= i <= |rest| ==> sees(s.Ahead(rest[i..]))
  }

  /**
   When `sees` is known of the tokens ahead, the rules keep an invariant of the
   views, which implies the condition for what is written.
   */
  ghost predicate Achieves(s: RuleSet, sees: Outlook, inv: Condition, ok: Condition) {
    && (forall v: View :: v.prev == [] && sees(v.next) ==> inv(v))
    && (forall v: View :: sees(v.next) && inv(v) && s.Match(v).Insert? ==>
          inv(s.After(v, s.Match(v).tokens)) && OkAll(s, ok, v.prev, v.stack, s.Match(v).tokens))
    && (forall v: View, w: View ::
          sees(v.next) && sees(w.next) && inv(v) && !s.Match(v).Insert? && Follows(s, v, w) ==> inv(w))
    && (forall v: View ::
          sees(v.next) && inv(v) && v.next != [] && s.Match(v).Copy? ==> ok(View(v.prev, [v.next[0]], v.stack)))
  }

  // ----- Steps

  lemma ObeysSnoc(s: RuleSet, ok: Condition, out: seq<Token>, t: Token)
    requires Obeys(s, ok, out) && (s.Hidden(t) || ok(Place(s, out, t)))
    ensures Obeys(s, ok, out + [t])
  {
    assert (out + [t])[..|out|] == out;
  }

  lemma {:induction false} ObeysHidden(s: RuleSet, ok: Condition, out: seq<Token>, ts: seq<Token>)
    requires Obeys(s, ok, out) && forall i :: 0 <= i < |ts| ==> s.Hidden(ts[i])
    ensures Obeys(s, ok, out + ts)
    decreases |ts|
  {
    if ts == [] {
      assert out + ts == out;
    } else {
      ObeysSnoc(s, ok, out, ts[0]);
      ObeysHidden(s, ok, out + [ts[0]], ts[1..]);
      assert out + [ts[0]] + ts[1..] == out + ts;
    }
  }

  lemma OneInserted(s: RuleSet, ok: Condition, out: seq<Token>, t: Token)
    requires Obeys(s, ok, out) && ok(Place(s, out, t))
    requires !s.Hidden(t) && !t.Begin? && !t.End?
    ensures Obeys(s, ok, out + [t])
    ensures s.Recent(out + [t]) == s.Remember(s.Recent(out), t) && Open([], out + [t]) == Open([], out)
  {
    ObeysSnoc(s, ok, out, t);
    RecentSnoc(s, out, t);
    OpenSnoc(out, t);
  }

  lemma {:induction false} ObeysInserted(s: RuleSet, ok: Condition, out: seq<Token>, ts: seq<Token>)
    requires Obeys(s, ok, out) && OkAll(s, ok, s.Recent(out), Open([], out), ts)
    requires forall i :: 0 <= i < |ts| ==> !s.Hidden(ts[i]) && !ts[i].Begin? && !ts[i].End?
    ensures Obeys(s, ok, out + ts)
    decreases |ts|
  {
    hide RuleSet.Recent, RuleSet.Remember, RuleSet.Hidden, Open, Obeys;
    if ts == [] {
      assert out + ts == out;
    } else {
      OneInserted(s, ok, out, ts[0]);
      ObeysInserted(s, ok, out + [ts[0]], ts[1..]);
      assert ts == [ts[0]] + ts[1..];
      Assoc(out, [ts[0]], ts[1..]);
    }
  }

  lemma {:induction false} VisibleNone(s: RuleSet, ts: seq<Token>)
    requires forall i :: 0 <= i < |ts| ==> s.Hidden(ts[i])
    ensures s.Visible(ts) == []
    decreases |ts|
  {
    if ts != [] {
      VisibleNone(s, ts[1..]);
    }
  }

  /** Moving hidden tokens changes neither what was seen last nor what is seen next. */
  lemma SkipSees(s: RuleSet, out: seq<Token>, rest: seq<Token>)
    ensures
      var (out1, rest1) := s.Skip(out, rest);
      && s.Recent(out1) == s.Recent(out) && s.Visible(rest1) == s.Visible(rest)
      && (SeesGrammar(s) ==> Open([], out1) == Open([], out))
  {
    var n := s.Leading(rest);
    var hidden := rest[..n];
    VisibleNone(s, hidden);
    RecentConcat(s, out, hidden);
    assert rest == hidden + rest[n..];
    VisibleConcat(s, hidden, rest[n..]);
    assert [] + s.Visible(rest[n..]) == s.Visible(rest[n..]);
    if SeesGrammar(s) {
      forall i | 0 <= i < n ensures !hidden[i].Begin? && !hidden[i].End? {
        assert s.Hidden(hidden[i]);
      }
      OpenConcat([], out, hidden);
      OpenUnchanged(Open([], out), hidden);
    }
  }

  lemma ViewFollows(s: RuleSet, out: seq<Token>, t: Token, rest: seq<Token>)
    requires !s.Hidden(t) && !s.Match(s.Look(out, [t] + rest)).Insert?
    ensures
      var v := s.Look(out, [t] + rest);
      var out0 := if s.Match(v).Drop? then out else out + [t];
      var (out1, rest1) := s.Skip(out0, rest);
      Follows(s, v, s.Look(out1, rest1))
  {
    var v := s.Look(out, [t] + rest);
    var out0 := if s.Match(v).Drop? then out else out + [t];
    SkipSees(s, out0, rest);
    RecentSnoc(s, out, t);
    OpenSnoc(out, t);
    assert ([t] + rest)[1..] == rest;
    assert s.Visible([t] + rest) == [t] + s.Visible(rest);
    AheadShifts(s, t, rest);
  }

  lemma AheadShifts(s: RuleSet, t: Token, rest: seq<Token>)
    requires s.Visible([t] + rest) == [t] + s.Visible(rest)
    ensures
      var now, later := s.Ahead([t] + rest), s.Ahead(rest);
      && now != [] && now[0] == t
      && (if |now| < MAX_NEXT_TOKENS then later == now[1..] else now[1..] <= later)
  {}

  // ----- Whole streams

  lemma SeesAhead(s: RuleSet, sees: Outlook, rest: seq<Token>, n: nat)
    requires AllAhead(s, sees, rest) && n <= |rest|
    ensures AllAhead(s, sees, rest[n..]) && sees(s.Look([], rest).next)
  {
    assert rest[0..] == rest;
    forall i | 0 <= i <= |rest[n..]| ensures sees(s.Ahead(rest[n..][i..])) {
      assert rest[n..][i..] == rest[n + i..];
    }
  }

  lemma {:induction false} RewriteObeys(
      s: RuleSet, sees: Outlook, inv: Condition, ok: Condition, out: seq<Token>, rest: seq<Token>, n: nat)
    requires s.Valid() && Achieves(s, sees, inv, ok) && Obeys(s, ok, out) && AllAhead(s, sees, rest)
    requires rest != [] && !s.Hidden(rest[0]) && inv(s.Look(out, rest)) && s.Settles(s.Look(out, rest), n)
    ensures Obeys(s, ok, s.Rewrite(out, rest))
    decreases |rest|, n
  {
    var v, t, tail := s.Look(out, rest), rest[0], rest[1..];
    assert rest == [t] + tail;
    SeesAhead(s, sees, rest, 1);
    if s.Match(v).Insert? {
      var ts := s.Match(v).tokens;
      InsertObeys(s, sees, inv, ok, out, rest);
      RewriteAfterInsert(s, out, rest, ts);
      RewriteObeys(s, sees, inv, ok, out + ts, rest, n - 1);
    } else {
      ViewFollows(s, out, t, tail);
      SeesAhead(s, sees, tail, s.Leading(tail));
      SeesAhead(s, sees, tail[s.Leading(tail)..], 0);
      RewriteAfterConsume(s, out, t, tail);
      var out0 := if s.Match(v).Drop? then out else out + [t];
      if s.Match(v).Copy? { ConsumeObeys(s, sees, inv, ok, out, rest); }
      ResumeObeys(s, sees, inv, ok, out0, tail);
    }
  }

  lemma InsertObeys(s: RuleSet, sees: Outlook, inv: Condition, ok: Condition, out: seq<Token>, rest: seq<Token>)
    requires s.Valid() && Achieves(s, sees, inv, ok) && Obeys(s, ok, out)
    requires inv(s.Look(out, rest)) && sees(s.Look(out, rest).next) && s.Match(s.Look(out, rest)).Insert?
    ensures
      var ts := s.Match(s.Look(out, rest)).tokens;
      && s.Insertable(ts) && Obeys(s, ok, out + ts)
      && s.Look(out + ts, rest) == s.After(s.Look(out, rest), ts) && inv(s.Look(out + ts, rest))
  {
    var v := s.Look(out, rest);
    var ts := s.Match(v).tokens;
    MatchComesFromRules(s, 0, v);
    assert s.Insertable(ts);
    LookAfterInsert(s, out, rest, ts);
    ObeysInserted(s, ok, out, ts);
  }

  lemma ConsumeObeys(s: RuleSet, sees: Outlook, inv: Condition, ok: Condition, out: seq<Token>, rest: seq<Token>)
    requires Achieves(s, sees, inv, ok) && Obeys(s, ok, out)
    requires inv(s.Look(out, rest)) && sees(s.Look(out, rest).next)
    requires rest != [] && !s.Hidden(rest[0]) && s.Match(s.Look(out, rest)).Copy?
    ensures Obeys(s, ok, out + [rest[0]])
  {
    var v := s.Look(out, rest);
    assert s.Visible(rest)[0] == rest[0] && v.next[0] == rest[0];
    assert ok(View(v.prev, [v.next[0]], v.stack));
    ObeysSnoc(s, ok, out, rest[0]);
  }

  lemma {:induction false} ResumeObeys(
      s: RuleSet, sees: Outlook, inv: Condition, ok: Condition, out: seq<Token>, rest: seq<Token>)
    requires s.Valid() && Achieves(s, sees, inv, ok) && Obeys(s, ok, out) && AllAhead(s, sees, rest)
    requires var (out1, rest1) := s.Skip(out, rest); inv(s.Look(out1, rest1))
    ensures Obeys(s, ok, s.Rewrite(out, rest))
    decreases |rest|, MAX_INSERTIONS + 1
  {
    if rest != [] {
      var (out1, rest1) := s.Skip(out, rest);
      RewriteAfterSkip(s, out, rest);
      ObeysHidden(s, ok, out, rest[..s.Leading(rest)]);
      SeesAhead(s, sees, rest, s.Leading(rest));
      if rest1 == [] {
        if s.Match(s.Look(out1, [])).Insert? {
          SeesAhead(s, sees, rest1, 0);
          InsertObeys(s, sees, inv, ok, out1, []);
        } else {
          assert out1 + [] == out1;
        }
      } else {
        RewriteObeys(s, sees, inv, ok, out1, rest1, MAX_INSERTIONS);
      }
    }
  }

  /** A condition that the rules achieve holds in the whole output. */
  lemma RunObeysOn(s: RuleSet, sees: Outlook, inv: Condition, ok: Condition, ts: seq<Token>)
    requires s.Valid() && Achieves(s, sees, inv, ok) && AllAhead(s, sees, ts)
    ensures Obeys(s, ok, s.Run(ts))
  {
    SkipSees(s, [], ts);
    var (out1, rest1) := s.Skip([], ts);
    SeesAhead(s, sees, ts, s.Leading(ts));
    SeesAhead(s, sees, rest1, 0);
    assert s.Look(out1, rest1).prev == [];
    ResumeObeys(s, sees, inv, ok, [], ts);
  }

  lemma RunObeys(s: RuleSet, inv: Condition, ok: Condition, ts: seq<Token>)
    requires s.Valid() && Achieves(s, ANYTHING, inv, ok)
    ensures Obeys(s, ok, s.Run(ts))
  {
    RunObeysOn(s, ANYTHING, inv, ok, ts);
  }

  // ----- Rules that need no invariant

  /** The rule that applies: the first one whose condition holds. */
  ghost predicate Applies(s: RuleSet, i: nat, v: View)
    requires i < |s.rules|
  {
    s.rules[i].cond(v) && forall j :: 0 <= j < i ==> !s.rules[j].cond(v)
  }

  ghost predicate NoneApplies(s: RuleSet, v: View) {
    forall i :: 0 <= i < |s.rules| ==> !s.rules[i].cond(v)
  }

  lemma {:induction false} MatchFirst(s: RuleSet, i: nat, v: View)
    requires i <= |s.rules| && forall j :: 0 <= j < i ==> !s.rules[j].cond(v)
    ensures s.MatchFrom(i, v) == Copy ||
            exists j :: 0 <= j < |s.rules| && Applies(s, j, v) && s.rules[j].action == s.MatchFrom(i, v)
    decreases |s.rules| - i
  {
    if i < |s.rules| {
      if s.rules[i].cond(v) {
        assert Applies(s, i, v);
      } else {
        MatchFirst(s, i + 1, v);
      }
    }
  }

  lemma {:induction false} CopyMeansNone(s: RuleSet, i: nat, v: View)
    requires i <= |s.rules| && forall j :: 0 <= j < i ==> !s.rules[j].cond(v)
    requires forall j :: 0 <= j < |s.rules| ==> !s.rules[j].action.Copy?
    requires s.MatchFrom(i, v) == Copy
    ensures NoneApplies(s, v)
    decreases |s.rules| - i
  {
    if i < |s.rules| {
      CopyMeansNone(s, i + 1, v);
    }
  }

  ghost predicate Ensures(s: RuleSet, ok: Condition, i: nat)
    requires i < |s.rules|
  {
    match s.rules[i].action
    case Insert(ts) => forall v: View :: Applies(s, i, v) ==> OkAll(s, ok, v.prev, v.stack, ts)
    case Drop => true
    case Copy => false
  }

  const ANY: Condition := (v: View) => true

  /** The condition holds where no rule applies. */
  ghost predicate CopiesOnly(s: RuleSet, ok: Condition) {
    forall v: View :: v.next != [] && NoneApplies(s, v) ==> ok(View(v.prev, [v.next[0]], v.stack))
  }

  /** Enough for a condition that only looks back: no rule breaks it, and it holds where none applies. */
  lemma AchievesByRules(s: RuleSet, ok: Condition)
    requires forall i :: 0 <= i < |s.rules| ==> Ensures(s, ok, i)
    requires CopiesOnly(s, ok)
    ensures Achieves(s, ANYTHING, ANY, ok)
  {
    forall v: View | s.Match(v).Insert? ensures OkAll(s, ok, v.prev, v.stack, s.Match(v).tokens) {
      MatchFirst(s, 0, v);
      var j :| 0 <= j < |s.rules| && Applies(s, j, v) && s.rules[j].action == s.Match(v);
      assert Ensures(s, ok, j);
    }
    forall i | 0 <= i < |s.rules| ensures !s.rules[i].action.Copy? {
      assert Ensures(s, ok, i);
    }
    forall v: View | v.next != [] && s.Match(v).Copy? ensures ok(View(v.prev, [v.next[0]], v.stack)) {
      CopyMeansNone(s, 0, v);
    }
  }

  /** The condition holds for this token wherever it stands. */
  ghost predicate Free(ok: Condition, t: Token) {
    forall v: View :: v.next == [t] ==> ok(v)
  }

  lemma {:induction false} FreeIsOk(s: RuleSet, ok: Condition, prev: seq<Token>, stack: seq<Kind>, ts: seq<Token>)
    requires forall i :: 0 <= i < |ts| ==> Free(ok, ts[i])
    ensures OkAll(s, ok, prev, stack, ts)
    decreases |ts|
  {
    if ts != [] {
      assert Free(ok, ts[0]);
      FreeIsOk(s, ok, s.Remember(prev, ts[0]), stack, ts[1..]);
    }
  }

  /** Rules that only insert tokens for which the condition always holds. */
  lemma AchievesFreely(s: RuleSet, ok: Condition)
    requires forall i, k :: 0 <= i < |s.rules| && s.rules[i].action.Insert? && 0 <= k < |s.rules[i].action.tokens| ==>
               Free(ok, s.rules[i].action.tokens[k])
    requires forall i :: 0 <= i < |s.rules| ==> !s.rules[i].action.Copy?
    requires CopiesOnly(s, ok)
    ensures Achieves(s, ANYTHING, ANY, ok)
  {
    forall i | 0 <= i < |s.rules| ensures Ensures(s, ok, i) {
      if s.rules[i].action.Insert? {
        forall v: View | Applies(s, i, v) ensures OkAll(s, ok, v.prev, v.stack, s.rules[i].action.tokens) {
          FreeIsOk(s, ok, v.prev, v.stack, s.rules[i].action.tokens);
        }
      }
    }
    AchievesByRules(s, ok);
  }

  // ----- Lines of statements, braces and sections

  predicate StatementStartsLine(v: View) {
    v.Tok(1) == Begin(ImportStmt) || v.Tok(1) == Begin(IncludeStmt) || v.Tok(1) == Begin(RuleDecl)
    ==> v.Tok(-1) == Begin(SourceFile) || v.Tok(-1) == Newline
  }

  lemma StatementLinesCopies()
    ensures CopiesOnly(StatementLines(), StatementStartsLine)
  {
    var s := StatementLines();
    forall v: View | v.next != [] && NoneApplies(s, v) ensures StatementStartsLine(View(v.prev, [v.next[0]], v.stack)) {
      assert !s.rules[0].cond(v) && !s.rules[1].cond(v);
    }
  }

  lemma StatementLinesAchieve()
    ensures Achieves(StatementLines(), ANYTHING, ANY, StatementStartsLine)
  {
    assert Free(StatementStartsLine, Newline);
    StatementLinesCopies();
    hide StatementStartsLine, Free;
    AchievesFreely(StatementLines(), StatementStartsLine);
  }

  /** Every import, include and rule starts a line. */
  lemma StatementsStartLines(ts: seq<Token>)
    ensures StatementLines().Valid()
    ensures Obeys(StatementLines(), StatementStartsLine, StatementLines().Run(ts))
  {
    StatementLinesFit();
    StatementLinesAchieve();
    hide StatementLines, Achieves;
    RunObeys(StatementLines(), ANY, StatementStartsLine, ts);
  }

  predicate NoBlank(v: View) {
    !IsBlank(v.Tok(1))
  }

  lemma NoWhitespaceCopies()
    ensures CopiesOnly(NoWhitespace(), NoBlank)
  {
    var s := NoWhitespace();
    forall v: View | v.next != [] && NoneApplies(s, v) ensures NoBlank(View(v.prev, [v.next[0]], v.stack)) {
      assert !s.rules[0].cond(v);
    }
  }

  lemma NoWhitespaceAchieve()
    ensures Achieves(NoWhitespace(), ANYTHING, ANY, NoBlank)
  {
    assert Free(NoBlank, Newline);
    NoWhitespaceCopies();
    hide NoBlank, Free;
    AchievesFreely(NoWhitespace(), NoBlank);
  }

  /** No space or tab of the source is left. */
  lemma BlanksAreGone(ts: seq<Token>)
    ensures NoWhitespace().Valid()
    ensures Obeys(NoWhitespace(), NoBlank, NoWhitespace().Run(ts))
  {
    NoWhitespaceFit();
    NoWhitespaceAchieve();
    hide NoWhitespace, Achieves;
    RunObeys(NoWhitespace(), ANY, NoBlank, ts);
  }

  predicate BraceStartsLine(v: View) {
    v.Tok(1) == LBRACE && v.InRule(RuleDecl, false) ==> v.Tok(-1) == Newline
  }

  lemma BraceOnOwnLineCopies()
    ensures CopiesOnly(BraceOnOwnLine(), BraceStartsLine)
  {
    var s := BraceOnOwnLine();
    forall v: View | v.next != [] && NoneApplies(s, v) ensures BraceStartsLine(View(v.prev, [v.next[0]], v.stack)) {
      assert !s.rules[0].cond(v);
    }
  }

  lemma BraceOnOwnLineAchieve()
    ensures Achieves(BraceOnOwnLine(), ANYTHING, ANY, BraceStartsLine)
  {
    assert Free(BraceStartsLine, Newline);
    BraceOnOwnLineCopies();
    hide BraceStartsLine, Free;
    AchievesFreely(BraceOnOwnLine(), BraceStartsLine);
  }

  /** With that option, the opening brace of a rule starts a line. */
  lemma BracesStartLines(ts: seq<Token>)
    ensures BraceOnOwnLine().Valid()
    ensures Obeys(BraceOnOwnLine(), BraceStartsLine, BraceOnOwnLine().Run(ts))
  {
    BraceOnOwnLineFit();
    BraceOnOwnLineAchieve();
    hide BraceOnOwnLine, Achieves;
    RunObeys(BraceOnOwnLine(), ANY, BraceStartsLine, ts);
  }

  predicate RuleIsApart(v: View) {
    v.Tok(1) == Begin(RuleDecl) && v.Tok(-1) == Newline ==> v.Tok(-2) == Newline || Is(v.Tok(-2), COMMENT)
  }

  lemma EmptyLineBeforeRuleCopies()
    ensures CopiesOnly(EmptyLineBeforeRule(), RuleIsApart)
  {
    var s := EmptyLineBeforeRule();
    forall v: View | v.next != [] && NoneApplies(s, v) ensures RuleIsApart(View(v.prev, [v.next[0]], v.stack)) {
      assert !s.rules[0].cond(v);
    }
  }

  lemma EmptyLineBeforeRuleAchieve()
    ensures Achieves(EmptyLineBeforeRule(), ANYTHING, ANY, RuleIsApart)
  {
    assert Free(RuleIsApart, Newline);
    EmptyLineBeforeRuleCopies();
    hide RuleIsApart, Free;
    AchievesFreely(EmptyLineBeforeRule(), RuleIsApart);
  }

  /** A rule that starts a line comes after an empty line or a comment. */
  lemma RulesAreApart(ts: seq<Token>)
    ensures EmptyLineBeforeRule().Valid()
    ensures Obeys(EmptyLineBeforeRule(), RuleIsApart, EmptyLineBeforeRule().Run(ts))
  {
    EmptyLineBeforeRuleFit();
    EmptyLineBeforeRuleAchieve();
    hide EmptyLineBeforeRule, Achieves;
    RunObeys(EmptyLineBeforeRule(), ANY, RuleIsApart, ts);
  }

  predicate HeaderIsApart(v: View) {
    IsHeader(v.Tok(1)) ==> v.Tok(-1) == Newline && v.Tok(-2) == Newline
  }

  lemma EmptyLineBeforeHeaderCopies()
    ensures CopiesOnly(EmptyLineBeforeHeader(), HeaderIsApart)
  {
    var s := EmptyLineBeforeHeader();
    forall v: View | v.next != [] && NoneApplies(s, v) ensures HeaderIsApart(View(v.prev, [v.next[0]], v.stack)) {
      assert !s.rules[0].cond(v) && !s.rules[1].cond(v);
    }
  }

  lemma EmptyLineBeforeHeaderAchieve()
    ensures Achieves(EmptyLineBeforeHeader(), ANYTHING, ANY, HeaderIsApart)
  {
    assert Free(HeaderIsApart, Newline);
    EmptyLineBeforeHeaderCopies();
    hide HeaderIsApart, Free;
    AchievesFreely(EmptyLineBeforeHeader(), HeaderIsApart);
  }

  /** With that option, every section header comes after an empty line. */
  lemma HeadersAreApart(ts: seq<Token>)
    ensures EmptyLineBeforeHeader().Valid()
    ensures Obeys(EmptyLineBeforeHeader(), HeaderIsApart, EmptyLineBeforeHeader().Run(ts))
  {
    EmptyLineBeforeHeaderFit();
    EmptyLineBeforeHeaderAchieve();
    hide EmptyLineBeforeHeader, Achieves;
    RunObeys(EmptyLineBeforeHeader(), ANY, HeaderIsApart, ts);
  }

  predicate ItemStartsLine(v: View) {
    && (v.InRule(MetaDef, false) || v.InRule(PatternDef, false) || v.InRule(WithDecl, false) ==>
          Is(v.Tok(1), {CIdentifier}) ==> v.Tok(-1) == Newline)
    && (v.InRule(RuleDecl, false) && v.Tok(1) == RBRACE ==> v.Tok(-1) == Newline)
  }

  lemma RequiredNewlinesCopies()
    ensures CopiesOnly(RequiredNewlines(), ItemStartsLine)
  {
    var s := RequiredNewlines();
    forall v: View | v.next != [] && NoneApplies(s, v) ensures ItemStartsLine(View(v.prev, [v.next[0]], v.stack)) {
      assert !s.rules[0].cond(v) && !s.rules[1].cond(v) && !s.rules[2].cond(v) && !s.rules[3].cond(v) &&
        !s.rules[4].cond(v);
    }
  }

  lemma RequiredNewlinesAchieve()
    ensures Achieves(RequiredNewlines(), ANYTHING, ANY, ItemStartsLine)
  {
    assert Free(ItemStartsLine, Newline);
    RequiredNewlinesCopies();
    hide ItemStartsLine, Free;
    AchievesFreely(RequiredNewlines(), ItemStartsLine);
  }

  /** Every item of a section and the closing brace of a rule start a line. */
  lemma ItemsStartLines(ts: seq<Token>)
    ensures RequiredNewlines().Valid()
    ensures Obeys(RequiredNewlines(), ItemStartsLine, RequiredNewlines().Run(ts))
  {
    RequiredNewlinesFit();
    RequiredNewlinesAchieve();
    hide RequiredNewlines, Achieves;
    RunObeys(RequiredNewlines(), ANY, ItemStartsLine, ts);
  }

  // ----- Indentation levels

  predicate BodyIsIndented(v: View) {
    && (v.InRule(RuleDecl, false) && v.Tok(-1) == LBRACE ==> v.Tok(1) == Indentation(1))
    && (v.InRule(RuleDecl, false) && v.Tok(1) == RBRACE ==> v.Tok(-1) == Indentation(-1))
  }

  lemma IndentBodyCopies()
    ensures CopiesOnly(IndentBody(), BodyIsIndented)
  {
    var s := IndentBody();
    forall v: View | v.next != [] && NoneApplies(s, v) ensures BodyIsIndented(View(v.prev, [v.next[0]], v.stack)) {
      assert !s.rules[0].cond(v) && !s.rules[1].cond(v);
    }
  }

  lemma IndentBodyRule0()
    ensures Ensures(IndentBody(), BodyIsIndented, 0)
  {
    var s := IndentBody();
    forall v: View | Applies(s, 0, v) ensures OkAll(s, BodyIsIndented, v.prev, v.stack, s.rules[0].action.tokens) {
      assert s.rules[0].cond(v);
    }
  }

  lemma IndentBodyRule1()
    ensures Ensures(IndentBody(), BodyIsIndented, 1)
  {
    var s := IndentBody();
    forall v: View | Applies(s, 1, v) ensures OkAll(s, BodyIsIndented, v.prev, v.stack, s.rules[1].action.tokens) {
      assert !s.rules[0].cond(v) && s.rules[1].cond(v);
    }
  }

  lemma IndentBodyAchieve()
    ensures Achieves(IndentBody(), ANYTHING, ANY, BodyIsIndented)
  {
    IndentBodyRule0();
    IndentBodyRule1();
    IndentBodyCopies();
    hide Ensures, CopiesOnly, BodyIsIndented;
    AchievesByRules(IndentBody(), BodyIsIndented);
  }

  /** The level rises after the opening brace of a rule and falls before the closing one. */
  lemma BodiesAreIndented(ts: seq<Token>)
    ensures IndentBody().Valid()
    ensures Obeys(IndentBody(), BodyIsIndented, IndentBody().Run(ts))
  {
    IndentBodyFit();
    IndentBodyAchieve();
    hide IndentBody, Achieves;
    RunObeys(IndentBody(), ANY, BodyIsIndented, ts);
  }

  predicate HexPatternIsIndented(v: View) {
    && (v.InRule(HexPattern, true) && v.Tok(-1) == LBRACE ==> v.Tok(1) == Indentation(1))
    && (v.InRule(HexPattern, true) && v.Tok(1) == RBRACE ==> v.Tok(-1) == Indentation(-1))
  }

  lemma IndentHexPatternsCopies()
    ensures CopiesOnly(IndentHexPatterns(), HexPatternIsIndented)
  {
    var s := IndentHexPatterns();
    forall v: View | v.next != [] && NoneApplies(s, v)
      ensures HexPatternIsIndented(View(v.prev, [v.next[0]], v.stack))
    {
      assert !s.rules[0].cond(v) && !s.rules[1].cond(v);
    }
  }

  lemma IndentHexPatternsRule0()
    ensures Ensures(IndentHexPatterns(), HexPatternIsIndented, 0)
  {
    var s := IndentHexPatterns();
    forall v: View | Applies(s, 0, v)
      ensures OkAll(s, HexPatternIsIndented, v.prev, v.stack, s.rules[0].action.tokens)
    {
      assert s.rules[0].cond(v);
    }
  }

  lemma IndentHexPatternsRule1()
    ensures Ensures(IndentHexPatterns(), HexPatternIsIndented, 1)
  {
    var s := IndentHexPatterns();
    forall v: View | Applies(s, 1, v)
      ensures OkAll(s, HexPatternIsIndented, v.prev, v.stack, s.rules[1].action.tokens)
    {
      assert !s.rules[0].cond(v) && s.rules[1].cond(v);
    }
  }

  lemma IndentHexPatternsAchieve()
    ensures Achieves(IndentHexPatterns(), ANYTHING, ANY, HexPatternIsIndented)
  {
    IndentHexPatternsRule0();
    IndentHexPatternsRule1();
    IndentHexPatternsCopies();
    hide Ensures, CopiesOnly, HexPatternIsIndented;
    AchievesByRules(IndentHexPatterns(), HexPatternIsIndented);
  }

  /** The level rises after the opening brace of a hex pattern and falls before the closing one. */
  lemma HexPatternsAreIndented(ts: seq<Token>)
    ensures IndentHexPatterns().Valid()
    ensures Obeys(IndentHexPatterns(), HexPatternIsIndented, IndentHexPatterns().Run(ts))
  {
    IndentHexPatternsFit();
    IndentHexPatternsAchieve();
    hide IndentHexPatterns, Achieves;
    RunObeys(IndentHexPatterns(), ANY, HexPatternIsIndented, ts);
  }

  predicate ParenthesesAreIndented(v: View) {
    && (v.InRule(BooleanExpr, true) && v.Tok(-1) == LPAREN ==> v.Tok(1) == Indentation(1))
    && (v.InRule(BooleanExpr, true) && v.Tok(1) == RPAREN ==> v.Tok(-1) == Indentation(-1))
  }

  lemma IndentParenthesizedCopies()
    ensures CopiesOnly(IndentParenthesized(), ParenthesesAreIndented)
  {
    var s := IndentParenthesized();
    forall v: View | v.next != [] && NoneApplies(s, v)
      ensures ParenthesesAreIndented(View(v.prev, [v.next[0]], v.stack))
    {
      assert !s.rules[0].cond(v) && !s.rules[1].cond(v);
    }
  }

  lemma IndentParenthesizedRule0()
    ensures Ensures(IndentParenthesized(), ParenthesesAreIndented, 0)
  {
    var s := IndentParenthesized();
    forall v: View | Applies(s, 0, v)
      ensures OkAll(s, ParenthesesAreIndented, v.prev, v.stack, s.rules[0].action.tokens)
    {
      assert s.rules[0].cond(v);
    }
  }

  lemma IndentParenthesizedRule1()
    ensures Ensures(IndentParenthesized(), ParenthesesAreIndented, 1)
  {
    var s := IndentParenthesized();
    forall v: View | Applies(s, 1, v)
      ensures OkAll(s, ParenthesesAreIndented, v.prev, v.stack, s.rules[1].action.tokens)
    {
      assert !s.rules[0].cond(v) && s.rules[1].cond(v);
    }
  }

  lemma IndentParenthesizedAchieve()
    ensures Achieves(IndentParenthesized(), ANYTHING, ANY, ParenthesesAreIndented)
  {
    IndentParenthesizedRule0();
    IndentParenthesizedRule1();
    IndentParenthesizedCopies();
    hide Ensures, CopiesOnly, ParenthesesAreIndented;
    AchievesByRules(IndentParenthesized(), ParenthesesAreIndented);
  }

  /** The level rises after an opening parenthesis of an expression and falls before the closing one. */
  lemma ExpressionsAreIndented(ts: seq<Token>)
    ensures IndentParenthesized().Valid()
    ensures Obeys(IndentParenthesized(), ParenthesesAreIndented, IndentParenthesized().Run(ts))
  {
    IndentParenthesizedFit();
    IndentParenthesizedAchieve();
    hide IndentParenthesized, Achieves;
    RunObeys(IndentParenthesized(), ANY, ParenthesesAreIndented, ts);
  }

  // ----- Comments, spaces and marks

  predicate CommentEndsLine(v: View) {
    v.Tok(-1).HeadComment? || v.Tok(-1).TailComment? || v.Tok(-1).BlockComment? ==> v.Tok(1) == Newline
  }

  lemma NewlineAfterCommentsCopies()
    ensures CopiesOnly(NewlineAfterComments(), CommentEndsLine)
  {
    var s := NewlineAfterComments();
    forall v: View | v.next != [] && NoneApplies(s, v) ensures CommentEndsLine(View(v.prev, [v.next[0]], v.stack)) {
      assert !s.rules[0].cond(v);
    }
  }

  lemma NewlineAfterCommentsAchieve()
    ensures Achieves(NewlineAfterComments(), ANYTHING, ANY, CommentEndsLine)
  {
    assert Free(CommentEndsLine, Newline);
    NewlineAfterCommentsCopies();
    hide CommentEndsLine, Free;
    AchievesFreely(NewlineAfterComments(), CommentEndsLine);
  }

  /** A comment that has to end its line is followed by a newline. */
  lemma CommentsEndLines(ts: seq<Token>)
    ensures NewlineAfterComments().Valid()
    ensures Obeys(NewlineAfterComments(), CommentEndsLine, NewlineAfterComments().Run(ts))
  {
    NewlineAfterCommentsFit();
    NewlineAfterCommentsAchieve();
    hide NewlineAfterComments, Achieves;
    RunObeys(NewlineAfterComments(), ANY, CommentEndsLine, ts);
  }

  predicate IsSpaced(v: View) {
    && !NeedsSpace(v)
    && (v.Tok(-1).InlineComment? ==> v.Tok(1) == Whitespace)
    && !(Is(v.Tok(-1), TEXT) && Is(v.Tok(1), COMMENT))
  }

  lemma SpacingCopies()
    ensures CopiesOnly(Spacing(), IsSpaced)
  {
    var s := Spacing();
    forall v: View | v.next != [] && NoneApplies(s, v) ensures IsSpaced(View(v.prev, [v.next[0]], v.stack)) {
      assert !s.rules[0].cond(v) && !s.rules[1].cond(v) && !s.rules[2].cond(v);
    }
  }

  lemma WhitespaceIsSpaced()
    ensures Free(IsSpaced, Whitespace)
  {}

  lemma SpacingAchieve()
    ensures Achieves(Spacing(), ANYTHING, ANY, IsSpaced)
  {
    WhitespaceIsSpaced();
    SpacingCopies();
    hide IsSpaced, Free;
    AchievesFreely(Spacing(), IsSpaced);
  }

  /** Tokens that need a space are never next to each other, nor is a comment next to text. */
  lemma TokensAreSpaced(ts: seq<Token>)
    ensures Spacing().Valid()
    ensures Obeys(Spacing(), IsSpaced, Spacing().Run(ts))
  {
    SpacingFit();
    SpacingAchieve();
    hide Spacing, Achieves;
    RunObeys(Spacing(), ANY, IsSpaced, ts);
  }

  // ----- Rules that need to look ahead

  /** What a view has in common with the one before, after dropping the token between them. */
  predicate Dropped(s: RuleSet, v: View, w: View) {
    && v.next != [] && w.prev == v.prev && w.Tok(1) == v.Tok(2) && w.Tok(2) == v.Tok(3)
    && (SeesGrammar(s) ==> w.stack == v.stack)
  }

  predicate Copied(s: RuleSet, v: View, w: View) {
    && v.next != []
    && (SeesGrammar(s) && !v.Tok(1).Begin? && !v.Tok(1).End? ==> w.stack == v.stack)
    && w.Tok(-1) == v.Tok(1) && w.Tok(-2) == v.Tok(-1) && w.Tok(-3) == v.Tok(-2)
    && w.Tok(1) == v.Tok(2) && w.Tok(2) == v.Tok(3)
  }

  lemma FollowsIs(s: RuleSet, v: View, w: View)
    requires Follows(s, v, w)
    ensures if s.Match(v).Drop? then Dropped(s, v, w) else Copied(s, v, w)
  {
    if |v.next| >= MAX_NEXT_TOKENS {
      assert forall i :: 0 <= i < |v.next[1..]| ==> w.next[i] == v.next[1..][i];
    }
  }

  ghost predicate Keeps(s: RuleSet, inv: Condition, ok: Condition, i: nat)
    requires i < |s.rules|
  {
    match s.rules[i].action
    case Insert(ts) =>
      forall v: View :: inv(v) && Applies(s, i, v) ==> inv(s.After(v, ts)) && OkAll(s, ok, v.prev, v.stack, ts)
    case Drop => forall v: View, w: View :: inv(v) && Applies(s, i, v) && Dropped(s, v, w) ==> inv(w)
    case Copy => false
  }

  /** Without a rule that applies, a token may be copied. */
  ghost predicate CopyKeeps(s: RuleSet, sees: Outlook, inv: Condition, ok: Condition) {
    && (forall v: View :: v.prev == [] ==> inv(v))
    && (forall v: View, w: View :: sees(v.next) && inv(v) && NoneApplies(s, v) && Copied(s, v, w) ==> inv(w))
    && (forall v: View :: inv(v) && v.next != [] && NoneApplies(s, v) ==> ok(View(v.prev, [v.next[0]], v.stack)))
  }

  lemma AchievesByInvariant(s: RuleSet, sees: Outlook, inv: Condition, ok: Condition)
    requires forall i :: 0 <= i < |s.rules| ==> Keeps(s, inv, ok, i)
    requires CopyKeeps(s, sees, inv, ok)
    ensures Achieves(s, sees, inv, ok)
  {
    forall i | 0 <= i < |s.rules| ensures !s.rules[i].action.Copy? {
      assert Keeps(s, inv, ok, i);
    }
    forall v: View | inv(v) && s.Match(v).Insert?
      ensures inv(s.After(v, s.Match(v).tokens)) && OkAll(s, ok, v.prev, v.stack, s.Match(v).tokens)
    {
      MatchFirst(s, 0, v);
      var j :| 0 <= j < |s.rules| && Applies(s, j, v) && s.rules[j].action == s.Match(v);
      assert Keeps(s, inv, ok, j);
    }
    forall v: View, w: View | sees(v.next) && inv(v) && !s.Match(v).Insert? && Follows(s, v, w) ensures inv(w) {
      FollowsIs(s, v, w);
      if s.Match(v).Drop? {
        MatchFirst(s, 0, v);
        var j :| 0 <= j < |s.rules| && Applies(s, j, v) && s.rules[j].action == s.Match(v);
        assert Keeps(s, inv, ok, j);
      } else {
        CopyMeansNone(s, 0, v);
      }
    }
    forall v: View | inv(v) && v.next != [] && s.Match(v).Copy? ensures ok(View(v.prev, [v.next[0]], v.stack)) {
      CopyMeansNone(s, 0, v);
    }
  }

  /** After one newline no two more come, and after two no more. */
  predicate FewNewlinesAhead(v: View) {
    v.Tok(-1) == Newline ==> v.Tok(1) == Newline ==> v.Tok(2) != Newline && v.Tok(-2) != Newline
  }

  predicate NewlineIsWanted(v: View) {
    v.Tok(1) == Newline ==>
      && v.Tok(-1) != NoToken
      && !(v.Tok(-1) == Newline && v.Tok(-2) == Newline)
      && (v.InRule(RuleMods, false) || v.InRule(RuleTags, false) ==> Is(v.Tok(-1), COMMENT))
      && v.Tok(-1) != End(RuleMods) && v.Tok(-1) != End(RuleTags)
  }

  lemma FewerNewlinesCopies()
    ensures CopyKeeps(FewerNewlines(), ANYTHING, FewNewlinesAhead, NewlineIsWanted)
  {
    var s := FewerNewlines();
    forall v: View, w: View | FewNewlinesAhead(v) && NoneApplies(s, v) && Copied(s, v, w) ensures FewNewlinesAhead(w) {
      assert !s.rules[1].cond(v);
    }
    forall v: View | FewNewlinesAhead(v) && v.next != [] && NoneApplies(s, v)
      ensures NewlineIsWanted(View(v.prev, [v.next[0]], v.stack))
    {
      assert !s.rules[0].cond(v) && !s.rules[3].cond(v) && !s.rules[4].cond(v) && !s.rules[5].cond(v);
    }
  }

  lemma FewerNewlinesAchieve()
    ensures Achieves(FewerNewlines(), ANYTHING, FewNewlinesAhead, NewlineIsWanted)
  {
    var s := FewerNewlines();
    FewerNewlinesCopies();
    forall i | 0 <= i < |s.rules| ensures Keeps(s, FewNewlinesAhead, NewlineIsWanted, i) {
      forall v: View, w: View | FewNewlinesAhead(v) && Applies(s, i, v) && Dropped(s, v, w)
        ensures FewNewlinesAhead(w)
      {
        assert s.rules[i].cond(v);
      }
    }
    hide CopyKeeps, Keeps;
    AchievesByInvariant(s, ANYTHING, FewNewlinesAhead, NewlineIsWanted);
  }

  /**
   There is no newline at the start of the file, within tags or modifiers or
   after them, and there are never three newlines in a row.
   */
  lemma NewlinesAreFew(ts: seq<Token>)
    ensures FewerNewlines().Valid()
    ensures Obeys(FewerNewlines(), NewlineIsWanted, FewerNewlines().Run(ts))
  {
    FewerNewlinesFit();
    FewerNewlinesAchieve();
    hide FewerNewlines, Achieves;
    RunObeys(FewerNewlines(), FewNewlinesAhead, NewlineIsWanted, ts);
  }

  // ----- Indentation levels of sections and of `with` expressions

  /** Right after the colon of a block the level only falls if the block ends there. */
  predicate BlockIsEmpty(v: View, b: Kind) {
    v.Tok(-1) == Indentation(-1) && v.Tok(-2) == COLON && v.stack != [] && v.stack[|v.stack| - 1] == b ==> v.Tok(1).End?
  }

  predicate BlockIsIndented(v: View, b: Kind) {
    && (v.InRule(b, false) && v.Tok(-1) == COLON ==> v.Tok(1) == Indentation(1) || v.Tok(1) == Indentation(-1))
    && (v.Tok(1) == End(b) ==> v.Tok(-1) == Indentation(-1))
    && BlockIsEmpty(v, b)
  }

  predicate SectionIsEmpty(v: View) {
    BlockIsEmpty(v, ConditionBlk) && BlockIsEmpty(v, MetaBlk) && BlockIsEmpty(v, PatternsBlk)
  }

  predicate SectionIsIndented(v: View) {
    BlockIsIndented(v, ConditionBlk) && BlockIsIndented(v, MetaBlk) && BlockIsIndented(v, PatternsBlk)
  }

  lemma BlockStaysEmpty(s: RuleSet, v: View, w: View, b: Kind)
    requires SeesGrammar(s) && Copied(s, v, w) && !(v.InRule(b, false) && v.Tok(-1) == COLON)
    ensures BlockIsEmpty(w, b)
  {}

  lemma IndentSectionsStay(v: View, w: View)
    requires NoneApplies(IndentSections(), v) && Copied(IndentSections(), v, w)
    ensures SectionIsEmpty(w)
  {
    var s := IndentSections();
    assert !s.rules[0].cond(v) && !s.rules[2].cond(v) && !s.rules[4].cond(v);
    BlockStaysEmpty(s, v, w, ConditionBlk);
    BlockStaysEmpty(s, v, w, MetaBlk);
    BlockStaysEmpty(s, v, w, PatternsBlk);
  }

  lemma IndentSectionsCopies()
    ensures CopyKeeps(IndentSections(), ANYTHING, SectionIsEmpty, SectionIsIndented)
  {
    var s := IndentSections();
    forall v: View, w: View | SectionIsEmpty(v) && NoneApplies(s, v) && Copied(s, v, w) ensures SectionIsEmpty(w) {
      IndentSectionsStay(v, w);
    }
    forall v: View | SectionIsEmpty(v) && v.next != [] && NoneApplies(s, v)
      ensures SectionIsIndented(View(v.prev, [v.next[0]], v.stack))
    {
      assert !s.rules[0].cond(v) && !s.rules[1].cond(v) && !s.rules[2].cond(v);
      assert !s.rules[3].cond(v) && !s.rules[4].cond(v) && !s.rules[5].cond(v);
      hide IndentSections, View.InRule, CopyKeeps;
      BlockStaysOk(v, ConditionBlk);
      BlockStaysOk(v, MetaBlk);
      BlockStaysOk(v, PatternsBlk);
    }
  }

  lemma BlockStaysOk(v: View, b: Kind)
    requires v.next != [] && BlockIsEmpty(v, b)
    requires !(v.InRule(b, false) && v.Tok(-1) == COLON) && !(v.Tok(1) == End(b) && Unlowered(v))
    ensures BlockIsIndented(View(v.prev, [v.next[0]], v.stack), b)
  {}

  /** Where the level rises after a colon, or falls at an end. */
  lemma LevelIsOk(s: RuleSet, v: View, level: Token)
    requires (level == Indentation(1) && v.Tok(-1) == COLON)
          || (level == Indentation(-1) && v.Tok(1).End? && Unlowered(v))
    ensures SectionIsEmpty(s.After(v, [level])) && OkAll(s, SectionIsIndented, v.prev, v.stack, [level])
  {
    AfterOne(s, v, level);
    assert s.After(v, [level]).Tok(1) == v.Tok(1);
    assert [level][1..] == [];
  }

  lemma SectionRuleLevel(i: nat, v: View)
    requires i < 6 && IndentSections().rules[i].cond(v)
    ensures if i % 2 == 0 then v.Tok(-1) == COLON else v.Tok(1).End? && Unlowered(v)
  {
    hide View.InRule, Unlowered;
  }

  lemma IndentSectionsRule(i: nat)
    requires i < 6
    ensures Keeps(IndentSections(), SectionIsEmpty, SectionIsIndented, i)
  {
    var s := IndentSections();
    var level := if i % 2 == 0 then Indentation(1) else Indentation(-1);
    assert s.rules[i].action == Insert([level]);
    hide SectionIsEmpty, SectionIsIndented, OkAll, RuleSet.After, IndentSections, Unlowered;
    forall v: View | SectionIsEmpty(v) && Applies(s, i, v)
      ensures SectionIsEmpty(s.After(v, [level])) && OkAll(s, SectionIsIndented, v.prev, v.stack, [level])
    {
      SectionRuleLevel(i, v);
      LevelIsOk(s, v, level);
    }
  }

  lemma IndentSectionsAchieve()
    ensures Achieves(IndentSections(), ANYTHING, SectionIsEmpty, SectionIsIndented)
  {
    forall i: nat | i < 6 ensures Keeps(IndentSections(), SectionIsEmpty, SectionIsIndented, i) {
      IndentSectionsRule(i);
    }
    IndentSectionsCopies();
    hide Keeps, CopyKeeps, SectionIsIndented, SectionIsEmpty;
    AchievesByInvariant(IndentSections(), ANYTHING, SectionIsEmpty, SectionIsIndented);
  }

  /**
   The level rises by one after the colon of a section header, unless the
   section ends there, and falls by one at the end of the section.
   */
  lemma SectionsAreIndented(ts: seq<Token>)
    ensures IndentSections().Valid()
    ensures Obeys(IndentSections(), SectionIsIndented, IndentSections().Run(ts))
  {
    IndentSectionsFit();
    IndentSectionsAchieve();
    hide IndentSections, Achieves;
    RunObeys(IndentSections(), SectionIsEmpty, SectionIsIndented, ts);
  }

  /** Right after the keyword the level only falls if the expression ends there. */
  predicate WithIsEmpty(v: View) {
    v.Tok(-1) == Indentation(-1) && v.Tok(-2) == Keyword("with") && v.stack != [] && v.stack[|v.stack| - 1] == WithExpr
    ==> v.Tok(1).End?
  }

  predicate WithIsIndented(v: View) {
    && (v.InRule(WithExpr, false) && v.Tok(-1) == Keyword("with") ==>
          v.Tok(1) == Indentation(1) || v.Tok(1) == Indentation(-1))
    && (v.Tok(1) == End(WithExpr) ==> v.Tok(-1) == Indentation(-1))
    && WithIsEmpty(v)
  }

  lemma IndentWithCopies()
    ensures CopyKeeps(IndentWith(), ANYTHING, WithIsEmpty, WithIsIndented)
  {
    var s := IndentWith();
    forall v: View, w: View | WithIsEmpty(v) && NoneApplies(s, v) && Copied(s, v, w) ensures WithIsEmpty(w) {
      assert !s.rules[0].cond(v);
    }
    forall v: View | WithIsEmpty(v) && v.next != [] && NoneApplies(s, v)
      ensures WithIsIndented(View(v.prev, [v.next[0]], v.stack))
    {
      assert !s.rules[0].cond(v) && !s.rules[1].cond(v);
    }
  }

  lemma IndentWithRule(i: nat)
    requires i < 2
    ensures Keeps(IndentWith(), WithIsEmpty, WithIsIndented, i)
  {
    var s := IndentWith();
    var level := if i == 0 then Indentation(1) else Indentation(-1);
    forall v: View | WithIsEmpty(v) && Applies(s, i, v)
      ensures WithIsEmpty(s.After(v, [level])) && OkAll(s, WithIsIndented, v.prev, v.stack, [level])
    {
      assert s.rules[i].cond(v) && (i > 0 ==> !s.rules[0].cond(v));
      AfterOne(s, v, level);
      assert [level][1..] == [];
    }
  }

  lemma IndentWithAchieve()
    ensures Achieves(IndentWith(), ANYTHING, WithIsEmpty, WithIsIndented)
  {
    IndentWithRule(0);
    IndentWithRule(1);
    IndentWithCopies();
    hide Keeps, CopyKeeps, WithIsIndented, WithIsEmpty;
    AchievesByInvariant(IndentWith(), ANYTHING, WithIsEmpty, WithIsIndented);
  }

  /**
   The level rises by one after the keyword of a `with` expression, unless the
   expression ends there, and falls by one at its end.
   */
  lemma WithExpressionsAreIndented(ts: seq<Token>)
    ensures IndentWith().Valid()
    ensures Obeys(IndentWith(), WithIsIndented, IndentWith().Run(ts))
  {
    IndentWithFit();
    IndentWithAchieve();
    hide IndentWith, Achieves;
    RunObeys(IndentWith(), WithIsEmpty, WithIsIndented, ts);
  }

  // ----- Empty lines after section headers

  /** What comes after the newline that follows a section header. */
  predicate AfterHeaderLine(v: View) { v.Tok(-1) == Newline && v.Tok(-2) == COLON && IsHeader(v.Tok(-3)) }

  predicate EmptyLineFollows(v: View) { AfterHeaderLine(v) ==> v.Tok(1) == Newline }

  predicate HeaderHasEmptyLine(v: View) { EmptyLineFollows(v) && (AfterHeader(v) ==> v.Tok(1) == Newline) }

  predicate NoEmptyLineFollows(v: View) { AfterHeaderLine(v) ==> v.Tok(1) != Newline }

  predicate HeaderEndsLine(v: View) { NoEmptyLineFollows(v) && (AfterHeader(v) ==> v.Tok(1) == Newline) }

  lemma AfterNewlines(s: RuleSet, v: View)
    ensures
      var w := s.After(v, [Newline]);
      w.Tok(-1) == Newline && w.Tok(-2) == v.Tok(-1) && w.Tok(-3) == v.Tok(-2) && w.Tok(1) == v.Tok(1)
    ensures
      var w := s.After(v, [Newline, Newline]);
      w.Tok(-1) == Newline && w.Tok(-2) == Newline
  {
    AfterOne(s, v, Newline);
    AfterTwo(s, v, Newline, Newline);
    assert s.RememberAll(v.prev, [Newline]) == s.RememberAll(s.Remember(v.prev, Newline), [Newline][1..]);
  }

  lemma EmptyLineAfterHeaderCopies()
    ensures CopyKeeps(EmptyLineAfterHeader(), ANYTHING, EmptyLineFollows, HeaderHasEmptyLine)
  {
    var s := EmptyLineAfterHeader();
    forall v: View, w: View | EmptyLineFollows(v) && NoneApplies(s, v) && Copied(s, v, w) ensures EmptyLineFollows(w) {
      assert !s.rules[0].cond(v) && !s.rules[1].cond(v);
    }
    forall v: View | EmptyLineFollows(v) && v.next != [] && NoneApplies(s, v)
      ensures HeaderHasEmptyLine(View(v.prev, [v.next[0]], v.stack))
    {
      assert !s.rules[0].cond(v);
    }
  }

  lemma EmptyLineAfterHeaderInserts(i: nat)
    requires i < 2
    ensures Keeps(EmptyLineAfterHeader(), EmptyLineFollows, HeaderHasEmptyLine, i)
  {
    var s := EmptyLineAfterHeader();
    assert Free(HeaderHasEmptyLine, Newline);
    var ts := s.rules[i].action.tokens;
    forall v: View | EmptyLineFollows(v) && Applies(s, i, v)
      ensures EmptyLineFollows(s.After(v, ts)) && OkAll(s, HeaderHasEmptyLine, v.prev, v.stack, ts)
    {
      hide Free, HeaderHasEmptyLine;
      assert s.rules[i].cond(v);
      AfterNewlines(s, v);
      FreeIsOk(s, HeaderHasEmptyLine, v.prev, v.stack, ts);
    }
  }

  lemma EmptyLineAfterHeaderAchieve()
    ensures Achieves(EmptyLineAfterHeader(), ANYTHING, EmptyLineFollows, HeaderHasEmptyLine)
  {
    EmptyLineAfterHeaderCopies();
    EmptyLineAfterHeaderInserts(0);
    EmptyLineAfterHeaderInserts(1);
    hide CopyKeeps, Keeps;
    AchievesByInvariant(EmptyLineAfterHeader(), ANYTHING, EmptyLineFollows, HeaderHasEmptyLine);
  }

  /** With that option, every section header is followed by an empty line. */
  lemma HeadersHaveEmptyLines(ts: seq<Token>)
    ensures EmptyLineAfterHeader().Valid()
    ensures Obeys(EmptyLineAfterHeader(), HeaderHasEmptyLine, EmptyLineAfterHeader().Run(ts))
  {
    EmptyLineAfterHeaderFit();
    EmptyLineAfterHeaderAchieve();
    hide EmptyLineAfterHeader, Achieves;
    RunObeys(EmptyLineAfterHeader(), EmptyLineFollows, HeaderHasEmptyLine, ts);
  }

  lemma NewlineAfterHeaderCopies()
    ensures CopyKeeps(NewlineAfterHeader(), ANYTHING, NoEmptyLineFollows, HeaderEndsLine)
  {
    var s := NewlineAfterHeader();
    forall v: View, w: View | NoEmptyLineFollows(v) && NoneApplies(s, v) && Copied(s, v, w)
      ensures NoEmptyLineFollows(w)
    {
      assert !s.rules[0].cond(v) && !s.rules[1].cond(v);
    }
    forall v: View | NoEmptyLineFollows(v) && v.next != [] && NoneApplies(s, v)
      ensures HeaderEndsLine(View(v.prev, [v.next[0]], v.stack))
    {
      assert !s.rules[0].cond(v);
    }
  }

  lemma NewlineAfterHeaderAchieve()
    ensures Achieves(NewlineAfterHeader(), ANYTHING, NoEmptyLineFollows, HeaderEndsLine)
  {
    var s := NewlineAfterHeader();
    NewlineAfterHeaderCopies();
    forall v: View | NoEmptyLineFollows(v) && Applies(s, 0, v)
      ensures NoEmptyLineFollows(s.After(v, [Newline])) && OkAll(s, HeaderEndsLine, v.prev, v.stack, [Newline])
    {
      assert s.rules[0].cond(v);
      AfterNewlines(s, v);
      assert [Newline][1..] == [];
    }
    assert Keeps(s, NoEmptyLineFollows, HeaderEndsLine, 0);
    forall v: View, w: View | NoEmptyLineFollows(v) && Applies(s, 1, v) && Dropped(s, v, w)
      ensures NoEmptyLineFollows(w)
    {
      assert s.rules[1].cond(v);
    }
    assert Keeps(s, NoEmptyLineFollows, HeaderEndsLine, 1);
    hide CopyKeeps, Keeps;
    AchievesByInvariant(s, ANYTHING, NoEmptyLineFollows, HeaderEndsLine);
  }

  /** Without it, every section header ends its line and no empty line follows. */
  lemma HeadersEndLines(ts: seq<Token>)
    ensures NewlineAfterHeader().Valid()
    ensures Obeys(NewlineAfterHeader(), HeaderEndsLine, NewlineAfterHeader().Run(ts))
  {
    NewlineAfterHeaderFit();
    NewlineAfterHeaderAchieve();
    hide NewlineAfterHeader, Achieves;
    RunObeys(NewlineAfterHeader(), NoEmptyLineFollows, HeaderEndsLine, ts);
  }

  // ----- Rules that rely on few newlines in a row

  /** No three newlines come next, as `NewlinesAreFew` sees to. */
  predicate NoThreeNewlines(ahead: seq<Token>) {
    |ahead| >= 3 && ahead[0] == Newline && ahead[1] == Newline ==> ahead[2] != Newline
  }

  predicate OneNewlineAhead(v: View) { v.Tok(-1) == Newline && v.Tok(1) == Newline ==> v.Tok(2) != Newline }

  predicate NoBraceAfterNewline(v: View) {
    && OneNewlineAhead(v)
    && (v.Tok(-1) == Newline && v.InRule(RuleDecl, false) ==>
          v.Tok(1) != LBRACE && (v.Tok(1) == Newline ==> v.Tok(2) != LBRACE))
  }

  predicate BraceFollowsText(v: View) { v.Tok(1) == LBRACE && v.InRule(RuleDecl, false) ==> v.Tok(-1) != Newline }

  lemma BraceOnSameLineCopies()
    ensures CopyKeeps(BraceOnSameLine(), NoThreeNewlines, NoBraceAfterNewline, BraceFollowsText)
  {
    var s := BraceOnSameLine();
    forall v: View, w: View | NoThreeNewlines(v.next) && NoBraceAfterNewline(v) && NoneApplies(s, v) && Copied(s, v, w)
      ensures NoBraceAfterNewline(w)
    {
      assert !s.rules[0].cond(v);
    }
  }

  lemma BraceOnSameLineAchieve()
    ensures Achieves(BraceOnSameLine(), NoThreeNewlines, NoBraceAfterNewline, BraceFollowsText)
  {
    var s := BraceOnSameLine();
    BraceOnSameLineCopies();
    forall v: View, w: View | NoBraceAfterNewline(v) && Applies(s, 0, v) && Dropped(s, v, w)
      ensures NoBraceAfterNewline(w)
    {
      assert s.rules[0].cond(v);
    }
    assert Keeps(s, NoBraceAfterNewline, BraceFollowsText, 0);
    hide CopyKeeps, Keeps;
    AchievesByInvariant(s, NoThreeNewlines, NoBraceAfterNewline, BraceFollowsText);
  }

  /** Without the option for it, the opening brace of a rule does not start a line. */
  lemma BracesFollowText(ts: seq<Token>)
    requires AllAhead(BraceOnSameLine(), NoThreeNewlines, ts)
    ensures BraceOnSameLine().Valid()
    ensures Obeys(BraceOnSameLine(), BraceFollowsText, BraceOnSameLine().Run(ts))
  {
    BraceOnSameLineFit();
    BraceOnSameLineAchieve();
    hide BraceOnSameLine, Achieves, AllAhead;
    RunObeysOn(BraceOnSameLine(), NoThreeNewlines, NoBraceAfterNewline, BraceFollowsText, ts);
  }

  // ----- The brace rules come right after the rules for newlines

  /** The tokens that conditions see last are the last visible ones. */
  lemma {:induction false} RecentEnds(s: RuleSet, out: seq<Token>)
    ensures
      var seen, recent := s.Visible(out), s.Recent(out);
      && |recent| == (if |seen| < MAX_PREV_TOKENS then |seen| else MAX_PREV_TOKENS)
      && forall k :: 0 <= k < |recent| ==> recent[k] == seen[|seen| - 1 - k]
    decreases |out|
  {
    if out != [] {
      var init, t := out[..|out| - 1], out[|out| - 1];
      assert out == init + [t];
      RecentEnds(s, init);
      RecentSnoc(s, init, t);
      VisibleSnoc(s, init, t);
    }
  }

  predicate ThreeNewlinesAt(ts: seq<Token>, j: nat) {
    j + 2 < |ts| && ts[j] == Newline && ts[j + 1] == Newline && ts[j + 2] == Newline
  }

  /** Not the third newline in a row. */
  predicate NoThirdNewline(v: View) { v.Tok(1) == Newline ==> !(v.Tok(-1) == Newline && v.Tok(-2) == Newline) }

  lemma {:induction false} ObeysLess(s: RuleSet, ok: Condition, less: Condition, out: seq<Token>)
    requires Obeys(s, ok, out) && forall v: View :: ok(v) ==> less(v)
    ensures Obeys(s, less, out)
    decreases |out|
  {
    if out != [] {
      ObeysLess(s, ok, less, out[..|out| - 1]);
    }
  }

  lemma {:induction false} NeverThreeNewlines(s: RuleSet, out: seq<Token>)
    requires Obeys(s, NoThirdNewline, out)
    ensures forall j :: !ThreeNewlinesAt(s.Visible(out), j)
    decreases |out|
  {
    if out == [] {
      VisibleNone(s, out);
    } else {
      var init, t := out[..|out| - 1], out[|out| - 1];
      assert out == init + [t];
      NeverThreeNewlines(s, init);
      assert s.Hidden(t) || NoThirdNewline(View(s.Recent(init), [t], Open([], init)));
      hide RuleSet.Visible, RuleSet.Recent, Obeys, Open, ThreeNewlinesAt, RuleSet.Hidden;
      OneMoreSeen(s, init, t, Open([], init));
    }
  }

  lemma OneMoreSeen(s: RuleSet, init: seq<Token>, t: Token, stack: seq<Kind>)
    requires forall j :: !ThreeNewlinesAt(s.Visible(init), j)
    requires s.Hidden(t) || NoThirdNewline(View(s.Recent(init), [t], stack))
    ensures forall j :: !ThreeNewlinesAt(s.Visible(init + [t]), j)
  {
    RecentEnds(s, init);
    VisibleSnoc(s, init, t);
    var seen, more := s.Visible(init), s.Visible(init + [t]);
    hide RuleSet.Visible, RuleSet.Recent;
    forall j ensures !ThreeNewlinesAt(more, j) {
      assert !ThreeNewlinesAt(seen, j);
      if ThreeNewlinesAt(more, j) {
        LastThree(seen, t, j);
      }
    }
  }

  lemma LastThree(seen: seq<Token>, t: Token, j: nat)
    requires ThreeNewlinesAt(seen + [t], j) && !ThreeNewlinesAt(seen, j)
    ensures t == Newline && |seen| >= 2 && seen[|seen| - 1] == Newline && seen[|seen| - 2] == Newline
  {
    assert j + 2 == |seen|;
  }

  /** Rules that hide the same tokens never see three newlines ahead. */
  lemma FewNewlinesAreAhead(r: RuleSet, s: RuleSet, out: seq<Token>)
    requires Obeys(r, NoThirdNewline, out) && r.pass == s.pass
    ensures AllAhead(s, NoThreeNewlines, out)
  {
    NeverThreeNewlines(r, out);
    SameVisible(r, s, out);
    forall i | 0 <= i <= |out| ensures NoThreeNewlines(s.Ahead(out[i..])) {
      VisibleConcat(s, out[..i], out[i..]);
      assert out == out[..i] + out[i..];
      assert !ThreeNewlinesAt(s.Visible(out), |s.Visible(out[..i])|);
    }
  }

  lemma {:induction false} SameVisible(s: RuleSet, r: RuleSet, ts: seq<Token>)
    requires s.pass == r.pass
    ensures s.Visible(ts) == r.Visible(ts)
    decreases |ts|
  {
    if ts != [] {
      SameVisible(s, r, ts[1..]);
    }
  }

  /** In the pipeline, without the option for it, the opening brace of a rule does not start a line. */
  lemma BracesFollowTextInPipeline(ts: seq<Token>)
    ensures FewerNewlines().Valid() && BraceOnSameLine().Valid()
    ensures Obeys(BraceOnSameLine(), BraceFollowsText, BraceOnSameLine().Run(FewerNewlines().Run(ts)))
  {
    assert FewerNewlines().pass == BraceOnSameLine().pass;
    hide FewerNewlines, BraceOnSameLine, Obeys, AllAhead;
    NewlinesAreFew(ts);
    ObeysLess(FewerNewlines(), NewlineIsWanted, NoThirdNewline, FewerNewlines().Run(ts));
    FewNewlinesAreAhead(FewerNewlines(), BraceOnSameLine(), FewerNewlines().Run(ts));
    BracesFollowText(FewerNewlines().Run(ts));
  }

  // ----- Section headers

  predicate NoHeaderAfterEmptyLine(v: View) {
    && OneNewlineAhead(v)
    && (v.Tok(-1) == Newline && v.Tok(-2) == Newline ==> v.Tok(1) != Newline && !IsHeader(v.Tok(1)))
  }

  predicate HeaderHasOneNewline(v: View) { IsHeader(v.Tok(1)) ==> v.Tok(-1) == Newline && v.Tok(-2) != Newline }

  lemma NewlineBeforeHeaderCopies()
    ensures CopyKeeps(NewlineBeforeHeader(), NoThreeNewlines, NoHeaderAfterEmptyLine, HeaderHasOneNewline)
  {
    var s := NewlineBeforeHeader();
    forall v: View, w: View | NoThreeNewlines(v.next) && NoHeaderAfterEmptyLine(v) && NoneApplies(s, v) &&
        Copied(s, v, w)
      ensures NoHeaderAfterEmptyLine(w)
    {
      assert !s.rules[1].cond(v);
    }
    forall v: View | NoHeaderAfterEmptyLine(v) && v.next != [] && NoneApplies(s, v)
      ensures HeaderHasOneNewline(View(v.prev, [v.next[0]], v.stack))
    {
      assert !s.rules[0].cond(v);
    }
  }

  lemma NewlineBeforeHeaderInserts()
    ensures Keeps(NewlineBeforeHeader(), NoHeaderAfterEmptyLine, HeaderHasOneNewline, 0)
  {
    var s := NewlineBeforeHeader();
    forall v: View | NoHeaderAfterEmptyLine(v) && Applies(s, 0, v)
      ensures NoHeaderAfterEmptyLine(s.After(v, [Newline])) && OkAll(s, HeaderHasOneNewline, v.prev, v.stack, [Newline])
    {
      assert s.rules[0].cond(v);
      AfterNewlines(s, v);
      assert [Newline][1..] == [];
    }
  }

  lemma NewlineBeforeHeaderDrops()
    ensures Keeps(NewlineBeforeHeader(), NoHeaderAfterEmptyLine, HeaderHasOneNewline, 1)
  {
    var s := NewlineBeforeHeader();
    forall v: View, w: View | NoHeaderAfterEmptyLine(v) && Applies(s, 1, v) && Dropped(s, v, w)
      ensures NoHeaderAfterEmptyLine(w)
    {
      assert s.rules[1].cond(v);
    }
  }

  lemma NewlineBeforeHeaderAchieve()
    ensures Achieves(NewlineBeforeHeader(), NoThreeNewlines, NoHeaderAfterEmptyLine, HeaderHasOneNewline)
  {
    NewlineBeforeHeaderCopies();
    NewlineBeforeHeaderInserts();
    NewlineBeforeHeaderDrops();
    hide CopyKeeps, Keeps;
    AchievesByInvariant(NewlineBeforeHeader(), NoThreeNewlines, NoHeaderAfterEmptyLine, HeaderHasOneNewline);
  }

  /** Without the option for an empty line, every section header comes after exactly one newline. */
  lemma HeadersHaveOneNewline(ts: seq<Token>)
    requires AllAhead(NewlineBeforeHeader(), NoThreeNewlines, ts)
    ensures NewlineBeforeHeader().Valid()
    ensures Obeys(NewlineBeforeHeader(), HeaderHasOneNewline, NewlineBeforeHeader().Run(ts))
  {
    NewlineBeforeHeaderFit();
    NewlineBeforeHeaderAchieve();
    hide NewlineBeforeHeader, Achieves, AllAhead;
    RunObeysOn(NewlineBeforeHeader(), NoThreeNewlines, NoHeaderAfterEmptyLine, HeaderHasOneNewline, ts);
  }

  /** After the opening brace and an empty line. */
  predicate AfterBraceAndEmptyLine(v: View) { v.Tok(-1) == Newline && v.Tok(-2) == Newline && v.Tok(-3) == LBRACE }

  predicate NoFirstHeaderAhead(v: View) {
    OneNewlineAhead(v) && (AfterBraceAndEmptyLine(v) ==> v.Tok(1) != Newline && !IsHeader(v.Tok(1)))
  }

  predicate FirstHeaderIsClose(v: View) { IsHeader(v.Tok(1)) ==> !AfterBraceAndEmptyLine(v) }

  lemma NoEmptyLineBeforeFirstHeaderCopies()
    ensures CopyKeeps(NoEmptyLineBeforeFirstHeader(), NoThreeNewlines, NoFirstHeaderAhead, FirstHeaderIsClose)
  {
    var s := NoEmptyLineBeforeFirstHeader();
    forall v: View, w: View | NoThreeNewlines(v.next) && NoFirstHeaderAhead(v) && NoneApplies(s, v) && Copied(s, v, w)
      ensures NoFirstHeaderAhead(w)
    {
      assert !s.rules[0].cond(v);
    }
  }

  lemma NoEmptyLineBeforeFirstHeaderAchieve()
    ensures Achieves(NoEmptyLineBeforeFirstHeader(), NoThreeNewlines, NoFirstHeaderAhead, FirstHeaderIsClose)
  {
    var s := NoEmptyLineBeforeFirstHeader();
    NoEmptyLineBeforeFirstHeaderCopies();
    forall v: View, w: View | NoFirstHeaderAhead(v) && Applies(s, 0, v) && Dropped(s, v, w)
      ensures NoFirstHeaderAhead(w)
    {
      assert s.rules[0].cond(v);
    }
    assert Keeps(s, NoFirstHeaderAhead, FirstHeaderIsClose, 0);
    hide CopyKeeps, Keeps;
    AchievesByInvariant(s, NoThreeNewlines, NoFirstHeaderAhead, FirstHeaderIsClose);
  }

  /** No empty line separates the first section header of a rule from the opening brace. */
  lemma FirstHeadersAreClose(ts: seq<Token>)
    requires AllAhead(NoEmptyLineBeforeFirstHeader(), NoThreeNewlines, ts)
    ensures NoEmptyLineBeforeFirstHeader().Valid()
    ensures Obeys(NoEmptyLineBeforeFirstHeader(), FirstHeaderIsClose, NoEmptyLineBeforeFirstHeader().Run(ts))
  {
    NoEmptyLineBeforeFirstHeaderFit();
    NoEmptyLineBeforeFirstHeaderAchieve();
    hide NoEmptyLineBeforeFirstHeader, Achieves, AllAhead;
    RunObeysOn(NoEmptyLineBeforeFirstHeader(), NoThreeNewlines, NoFirstHeaderAhead, FirstHeaderIsClose, ts);
  }

  // ----- Alignment marks

  /** The equal signs of the items of a block are marked. */
  function EqualSignIsMarked(item: Kind): Condition {
    (v: View) => v.InRule(item, false) && v.Tok(1) == EQUAL ==> v.Tok(-1) == AlignmentMarker
  }

  lemma EqualSignMarkersCopies(block: Kind, item: Kind)
    ensures CopiesOnly(EqualSignMarkers(block, item), EqualSignIsMarked(item))
  {
    var s, ok := EqualSignMarkers(block, item), EqualSignIsMarked(item);
    forall v: View | v.next != [] && NoneApplies(s, v) ensures ok(View(v.prev, [v.next[0]], v.stack)) {
      assert !s.rules[3].cond(v);
    }
  }

  /** Every equal sign of the meta definitions, or of the patterns, is marked for alignment. */
  lemma EqualSignsAreMarked(block: Kind, item: Kind, ts: seq<Token>)
    ensures EqualSignMarkers(block, item).Valid()
    ensures Obeys(EqualSignMarkers(block, item), EqualSignIsMarked(item), EqualSignMarkers(block, item).Run(ts))
  {
    EqualSignMarkersFit(block, item);
    EqualSignMarkersCopies(block, item);
    var s, ok := EqualSignMarkers(block, item), EqualSignIsMarked(item);
    assert Free(ok, AlignmentBlockBegin) && Free(ok, AlignmentBlockEnd) && Free(ok, AlignmentMarker);
    hide Free, CopiesOnly, EqualSignIsMarked;
    AchievesFreely(s, ok);
    hide EqualSignMarkers, Achieves;
    RunObeys(s, ANY, ok, ts);
  }

  predicate HexCommentIsMarked(v: View) {
    v.InRule(HexPattern, true) && v.Tok(1).TailComment? ==> v.Tok(-1) == AlignmentMarker
  }

  lemma HexCommentMarkersCopies()
    ensures CopiesOnly(HexCommentMarkers(), HexCommentIsMarked)
  {
    var s := HexCommentMarkers();
    forall v: View | v.next != [] && NoneApplies(s, v) ensures HexCommentIsMarked(View(v.prev, [v.next[0]], v.stack)) {
      assert !s.rules[2].cond(v);
    }
  }

  /** Every comment at the end of a line of a hex pattern is marked for alignment. */
  lemma HexCommentsAreMarked(ts: seq<Token>)
    ensures HexCommentMarkers().Valid()
    ensures Obeys(HexCommentMarkers(), HexCommentIsMarked, HexCommentMarkers().Run(ts))
  {
    HexCommentMarkersFit();
    HexCommentMarkersCopies();
    var s := HexCommentMarkers();
    assert Free(HexCommentIsMarked, AlignmentBlockBegin) && Free(HexCommentIsMarked, AlignmentBlockEnd);
    assert Free(HexCommentIsMarked, AlignmentMarker);
    hide Free, CopiesOnly, HexCommentIsMarked;
    AchievesFreely(s, HexCommentIsMarked);
    hide HexCommentMarkers, Achieves;
    RunObeys(s, ANY, HexCommentIsMarked, ts);
  }

  // ----- The end of the file

  /** What the processor leaves ends in a newline. */
  predicate EndsLine(out: seq<Token>) {
    var recent := RequiredNewlines().Recent(out);
    recent != [] && recent[0] == Newline
  }

  /**
   With nothing but hidden tokens left, the processor sees to a final newline;
   a visible last token stays the last one.
   */
  lemma {:induction false} RewriteEndsLine(out: seq<Token>, rest: seq<Token>)
    requires RequiredNewlines().Valid() && rest != []
    ensures EndsLine(RequiredNewlines().Rewrite(out, rest)) <==>
            RequiredNewlines().Hidden(rest[|rest| - 1]) || rest[|rest| - 1] == Newline
    decreases |rest|
  {
    hide RequiredNewlines;
    var s := RequiredNewlines();
    var (out1, rest1) := s.Skip(out, rest);
    RewriteAfterSkip(s, out, rest);
    if rest1 == [] {
      ClosingEndsLine(out1);
    } else {
      var n := s.Leading(rest);
      assert rest1 == rest[n..] && rest1[|rest1| - 1] == rest[|rest| - 1] && !s.Hidden(rest1[0]);
      RewriteVisible(s, out1, rest1);
      if |rest1| == 1 {
        LastIsCopied(out1, s.Look(out1, rest1), rest1[0]);
      } else {
        RewriteEndsLine(s.Consume(out1, s.Look(out1, rest1), rest1[0]), rest1[1..]);
      }
    }
  }

  lemma LastIsCopied(out: seq<Token>, v: View, t: Token)
    requires RequiredNewlines().Valid() && !RequiredNewlines().Hidden(t)
    ensures EndsLine(RequiredNewlines().Consume(out, v, t)) <==> t == Newline
  {
    var s := RequiredNewlines();
    assert s.Settles(v, MAX_INSERTIONS);
    NothingDropped(v, MAX_INSERTIONS);
    hide RequiredNewlines;
    RecentSnoc(s, out + s.Inserted(v, MAX_INSERTIONS), t);
  }

  lemma NothingDropped(v: View, n: nat)
    requires RequiredNewlines().Settles(v, n)
    ensures !RequiredNewlines().Drops(v, n)
    decreases n
  {
    var s := RequiredNewlines();
    MatchComesFromRules(s, 0, v);
    assert !s.Match(v).Drop?;
    hide RequiredNewlines;
    if s.Match(v).Insert? {
      NothingDropped(s.After(v, s.Match(v).tokens), n - 1);
    }
  }

  lemma ClosingEndsLine(out: seq<Token>)
    ensures EndsLine(out + RequiredNewlines().Closing(out))
  {
    var s, v := RequiredNewlines(), RequiredNewlines().Look(out, []);
    assert s.rules[4].cond(v) <==> v.Tok(-1) != Newline;
    if v.Tok(-1) != Newline {
      assert s.Match(v) == Insert([Newline]);
      RecentSnoc(s, out, Newline);
    } else {
      assert s.Match(v) == Copy;
      assert out + [] == out;
    }
  }

  /**
   A file ends with a newline if and only if its last token is one or is hidden
   from the rules, as the end of a grammar rule is.
   */
  lemma FileEndsLine(ts: seq<Token>)
    requires ts != []
    ensures RequiredNewlines().Valid()
    ensures EndsLine(RequiredNewlines().Run(ts)) <==> Is(ts[|ts| - 1], CONTROL) || ts[|ts| - 1] == Newline
  {
    RequiredNewlinesFit();
    RewriteEndsLine([], ts);
  }
}
