/**
 Runs of newlines in the pipeline. Once comments and newlines have been moved
 up and the ends of grammar rules before the newlines, no control token comes
 between two newlines; so what the rules for newlines achieve also holds for the
 rules for section headers, which do not see control tokens.
 */
module NewlineRuns {
  import opened Seqs
  import opened Tokens
  import opened Processors
  import opened Preservation
  import opened RuleSets
  import opened RuleEffects
  import opened BlockMarkers
  import opened Formatter
  import Comments
  import Bubbles
  import WordSpacing

  // ----- Runs that control tokens do not interrupt

  /** Before any newline, after `n` newlines, or after newlines and control tokens. */
  datatype Run = Clear | Fresh(n: nat) | Sealed

  function Next(r: Run, t: Token): Run {
    if t.Newline? then Fresh(if r.Fresh? then r.n + 1 else 1)
    else if Is(t, CONTROL) then if r.Clear? then Clear else Sealed
    else Clear
  }

  /** No newline comes after a control token after a newline, and no rule ends right after a newline. */
  predicate Allowed(few: bool, r: Run, t: Token) {
    && (t.Newline? ==> !r.Sealed? && (few && r.Fresh? ==> r.n < 2))
    && (t.End? ==> !r.Fresh?)
  }

  /** The runs of newlines are whole, and have at most two newlines if they are `few`. */
  predicate Bounded(few: bool, r: Run, ts: seq<Token>)
    decreases |ts|
  {
    ts == [] || (Allowed(few, r, ts[0]) && Bounded(few, Next(r, ts[0]), ts[1..]))
  }

  function Reached(r: Run, ts: seq<Token>): Run
    decreases |ts|
  {
    if ts == [] then r else Reached(Next(r, ts[0]), ts[1..])
  }

  lemma {:induction false} BoundedConcat(few: bool, r: Run, a: seq<Token>, b: seq<Token>)
    ensures Bounded(few, r, a + b) <==> Bounded(few, r, a) && Bounded(few, Reached(r, a), b)
    ensures Reached(r, a + b) == Reached(Reached(r, a), b)
    decreases |a|
  {
    if a == [] {
      assert a + b == b;
    } else {
      assert (a + b)[0] == a[0] && (a + b)[1..] == a[1..] + b;
      BoundedConcat(few, Next(r, a[0]), a[1..], b);
    }
  }

  lemma BoundedCons(few: bool, r: Run, t: Token, ts: seq<Token>)
    ensures Bounded(few, r, [t] + ts) <==> Allowed(few, r, t) && Bounded(few, Next(r, t), ts)
    ensures Reached(r, [t] + ts) == Reached(Next(r, t), ts)
  {
    assert ([t] + ts)[1..] == ts;
  }

  /** Whatever may follow after `q` may follow after `p`. */
  predicate Freer(p: Run, q: Run) { p.Clear? || p == q || (p.Fresh? && q.Fresh? && p.n <= q.n) }

  lemma {:induction false} FreerIsBounded(few: bool, p: Run, q: Run, ts: seq<Token>)
    requires Freer(p, q) && Bounded(few, q, ts)
    ensures Bounded(few, p, ts)
    decreases |ts|
  {
    if ts != [] {
      FreerIsBounded(few, Next(p, ts[0]), Next(q, ts[0]), ts[1..]);
    }
  }

  lemma NewlineRemoved(few: bool, a: seq<Token>, b: seq<Token>)
    requires Bounded(few, Clear, a + ([Newline] + b))
    ensures Bounded(few, Clear, a + b)
  {
    BoundedConcat(few, Clear, a, [Newline] + b);
    BoundedConcat(few, Clear, a, b);
    BoundedCons(few, Reached(Clear, a), Newline, b);
    FreerIsBounded(few, Reached(Clear, a), Next(Reached(Clear, a), Newline), b);
  }

  /** A newline between a newline and the begin of a rule, or between text and a brace. */
  lemma NewlineAdded(few: bool, a: seq<Token>, t: Token, b: seq<Token>)
    requires Bounded(few, Clear, a + ([t] + b))
    requires (t.Begin? && Reached(Clear, a) == Fresh(1)) || (t == LBRACE && Reached(Clear, a) == Clear)
    ensures Bounded(few, Clear, a + [Newline] + ([t] + b))
  {
    var r := Reached(Clear, a);
    BoundedConcat(few, Clear, a, [t] + b);
    BoundedCons(few, r, t, b);
    Assoc(a, [Newline], [t] + b);
    BoundedConcat(few, Clear, a, [Newline] + ([t] + b));
    BoundedCons(few, r, Newline, [t] + b);
    BoundedCons(few, Next(r, Newline), t, b);
  }

  // ----- After the two reorderings

  predicate IsRule(t: Token) { t.Begin? || t.End? }

  /** Begin and End are the only control tokens, as the parser makes them. */
  ghost predicate OnlyRules(ts: seq<Token>) {
    forall i :: 0 <= i < |ts| && Is(ts[i], CONTROL) ==> IsRule(ts[i])
  }

  /** No newline comes right after a Begin or End token. */
  predicate NewlinesUp(rule: bool, ts: seq<Token>)
    decreases |ts|
  {
    ts == [] || ((rule ==> !ts[0].Newline?) && NewlinesUp(IsRule(ts[0]), ts[1..]))
  }

  lemma {:induction false} RulesThen(rule: bool, held: seq<Token>, t: Token, ts: seq<Token>)
    requires forall i :: 0 <= i < |held| ==> IsRule(held[i])
    requires !t.Newline? && NewlinesUp(IsRule(t), ts)
    ensures NewlinesUp(rule, held + [t] + ts)
    decreases |held|
  {
    var all := held + [t] + ts;
    if held == [] {
      assert all[0] == t && all[1..] == ts;
    } else {
      assert all[0] == held[0] && all[1..] == held[1..] + [t] + ts;
      RulesThen(true, held[1..], t, ts);
    }
  }

  lemma {:induction false} TailsUp(held: seq<Token>, ts: seq<Token>)
    requires forall i :: 0 <= i < |held| ==> IsRule(held[i])
    ensures NewlinesUp(false, TAILS_UP.Flow(held, ts))
    decreases |ts|
  {
    if ts == [] {
      RulesAlone(false, held);
    } else {
      var t, rest := ts[0], ts[1..];
      if IsRule(t) {
        TailsUp(held + [t], rest);
      } else if t.TailComment? || t.Newline? {
        TailsUp(held, rest);
        assert ([t] + TAILS_UP.Flow(held, rest))[1..] == TAILS_UP.Flow(held, rest);
      } else {
        TailsUp([], rest);
        RulesThen(false, held, t, TAILS_UP.Flow([], rest));
      }
    }
  }

  lemma {:induction false} RulesAlone(rule: bool, held: seq<Token>)
    requires forall i :: 0 <= i < |held| ==> IsRule(held[i])
    ensures NewlinesUp(rule, held)
    decreases |held|
  {
    if held != [] {
      RulesAlone(true, held[1..]);
    }
  }

  lemma {:induction false} NewlinesThen(r: Run, held: seq<Token>, t: Token, ts: seq<Token>)
    requires forall i :: 0 <= i < |held| ==> held[i].Newline?
    requires held != [] ==> !r.Sealed?
    requires var q := if held == [] then r else Fresh(1);
        Allowed(false, q, t) && Bounded(false, Next(q, t), ts) && !t.Newline?
    ensures Bounded(false, r, held + [t] + ts)
    decreases |held|
  {
    var all := held + [t] + ts;
    if held == [] {
      assert all[0] == t && all[1..] == ts;
    } else {
      assert all[0] == held[0] && all[1..] == held[1..] + [t] + ts;
      NewlinesThen(Next(r, Newline), held[1..], t, ts);
    }
  }

  lemma {:induction false} NewlinesAlone(r: Run, held: seq<Token>)
    requires forall i :: 0 <= i < |held| ==> held[i].Newline?
    requires held != [] ==> !r.Sealed?
    ensures Bounded(false, r, held)
    decreases |held|
  {
    if held != [] {
      NewlinesAlone(Next(r, Newline), held[1..]);
    }
  }

  lemma {:induction false} EndsUp(r: Run, rule: bool, held: seq<Token>, ts: seq<Token>)
    requires forall i :: 0 <= i < |held| ==> held[i].Newline?
    requires !r.Fresh? && (r.Sealed? ==> held == [] && rule)
    requires NewlinesUp(rule, ts) && OnlyRules(ts) && Unmarked(ts)
    ensures Bounded(false, r, ENDS_UP.Flow(held, ts))
    decreases |ts|
  {
    if ts == [] {
      NewlinesAlone(r, held);
    } else {
      var t, rest := ts[0], ts[1..];
      assert Tokens.Marks(t) == [] && OnlyRules(rest) && Unmarked(rest) && (Is(t, CONTROL) ==> IsRule(t));
      hide OnlyRules, Unmarked;
      if t.Newline? {
        EndsUp(r, false, held + [t], rest);
      } else if t.End? {
        EndsUp(r, true, held, rest);
        BoundedCons(false, r, t, ENDS_UP.Flow(held, rest));
      } else {
        var q := if held == [] then r else Fresh(1);
        EndsUp(Next(q, t), t.Begin?, [], rest);
        NewlinesThen(r, held, t, ENDS_UP.Flow([], rest));
      }
    }
  }

  // ----- Rules that drop newlines, or add one where a run stays whole

  /** Before the brace of a rule there is no Begin since the last text. */
  predicate Named(stack: seq<Kind>, begun: bool, ts: seq<Token>)
    decreases |ts|
  {
    ts == [] || (
      && (ts[0] == LBRACE && stack != [] && stack[|stack| - 1] == RuleDecl ==> !begun)
      && Named(OpenOne(stack, ts[0]), Begun(begun, ts[0]), ts[1..])
    )
  }

  function Begun(begun: bool, t: Token): bool {
    if t.Begin? then true else if Is(t, TEXT) then false else begun
  }

  function BegunAfter(begun: bool, ts: seq<Token>): bool
    decreases |ts|
  {
    if ts == [] then begun else BegunAfter(Begun(begun, ts[0]), ts[1..])
  }

  lemma {:induction false} NamedConcat(stack: seq<Kind>, begun: bool, a: seq<Token>, b: seq<Token>)
    ensures Named(stack, begun, a + b) <==> Named(stack, begun, a) && Named(Open(stack, a), BegunAfter(begun, a), b)
    ensures BegunAfter(begun, a + b) == BegunAfter(BegunAfter(begun, a), b)
    decreases |a|
  {
    if a == [] {
      assert a + b == b;
    } else {
      assert (a + b)[0] == a[0] && (a + b)[1..] == a[1..] + b;
      NamedConcat(OpenOne(stack, a[0]), Begun(begun, a[0]), a[1..], b);
    }
  }

  lemma {:induction false} NamedBySkeleton(stack: seq<Kind>, begun: bool, ts: seq<Token>)
    ensures Named(stack, begun, ts) <==> Named(stack, begun, Skeleton(ts))
    decreases |ts|
  {
    if ts != [] {
      var t, rest := ts[0], ts[1..];
      NamedBySkeleton(OpenOne(stack, t), Begun(begun, t), rest);
      FlatMapCons(Bone, ts);
      if Bone(t) == [] {
        assert [] + Skeleton(rest) == Skeleton(rest);
      } else {
        assert ([t] + Skeleton(rest))[1..] == Skeleton(rest);
      }
    }
  }

  /** After a newline and control tokens a rule has begun since the last text. */
  lemma {:induction false} SealedIsBegun(ts: seq<Token>)
    requires Bounded(false, Clear, ts) && OnlyRules(ts)
    ensures Reached(Clear, ts).Sealed? ==> BegunAfter(false, ts)
    decreases |ts|
  {
    if ts != [] {
      var init, t := ts[..|ts| - 1], ts[|ts| - 1];
      assert ts == init + [t];
      BoundedConcat(false, Clear, init, [t]);
      BoundedCons(false, Reached(Clear, init), t, []);
      assert [t] + [] == [t] && [t][1..] == [];
      NamedConcat([], false, init, [t]);
      assert Is(t, CONTROL) ==> IsRule(t);
      SealedIsBegun(init);
    }
  }

  /** A view at which a newline may be added. */
  predicate MayAdd(braces: bool, v: View) {
    || (v.Tok(1).Begin? && v.Tok(-1) == Newline && v.Tok(-2) != Newline)
    || (braces && v.Tok(1) == LBRACE && v.Tok(-1) != Newline && v.InRule(RuleDecl, false))
  }

  /** Rules that only drop newlines, or add one where they may. */
  ghost predicate Careful(s: RuleSet, braces: bool) {
    && s.pass == NONE && s.Valid()
    && (forall i, v: View :: 0 <= i < |s.rules| && s.rules[i].action.Drop? && s.rules[i].cond(v) ==> v.Tok(1).Newline?)
    && (forall i :: 0 <= i < |s.rules| && s.rules[i].action.Insert? ==> s.rules[i].action.tokens == [Newline])
    && (forall i, v: View :: 0 <= i < |s.rules| && s.rules[i].action.Insert? && s.rules[i].cond(v) ==>
        MayAdd(braces, v))
  }

  /** What is known of the stream while it is rewritten. */
  ghost predicate Steady(few: bool, braces: bool, ts: seq<Token>) {
    && Bounded(few, Clear, ts) && OnlyRules(ts) && Unmarked(ts)
    && (braces ==> Named([], false, ts))
  }

  lemma NewlineDoesNotMatter(braces: bool, a: seq<Token>, b: seq<Token>)
    ensures OnlyRules(a + ([Newline] + b)) <==> OnlyRules(a + b)
    ensures Unmarked(a + ([Newline] + b)) <==> Unmarked(a + b)
    ensures Named([], false, a + ([Newline] + b)) <==> Named([], false, a + b)
  {
    assert OnlyRules([Newline]) && Unmarked([Newline]);
    hide OnlyRules, Unmarked, Named;
    PartsOfStream(a, [Newline] + b);
    PartsOfStream(a, b);
    PartsOfStream([Newline], b);
    NamedConcat([], false, a, [Newline] + b);
    NamedConcat([], false, a, b);
    NewlineIsNoName(Open([], a), BegunAfter(false, a), b);
  }

  lemma NewlineIsNoName(stack: seq<Kind>, begun: bool, b: seq<Token>)
    ensures Named(stack, begun, [Newline] + b) <==> Named(stack, begun, b)
  {
    assert ([Newline] + b)[1..] == b;
  }

  lemma PartsOfStream(a: seq<Token>, b: seq<Token>)
    ensures OnlyRules(a + b) <==> OnlyRules(a) && OnlyRules(b)
    ensures Unmarked(a + b) <==> Unmarked(a) && Unmarked(b)
  {
    if OnlyRules(a + b) {
      assert forall i :: 0 <= i < |a| ==> (a + b)[i] == a[i];
      assert forall i :: 0 <= i < |b| ==> (a + b)[|a| + i] == b[i];
    }
    if Unmarked(a + b) {
      assert forall i :: 0 <= i < |a| ==> (a + b)[i] == a[i];
      assert forall i :: 0 <= i < |b| ==> (a + b)[|a| + i] == b[i];
    }
  }

  lemma {:induction false} FewIsBounded(few: bool, r: Run, ts: seq<Token>)
    requires Bounded(few, r, ts)
    ensures Bounded(false, r, ts)
    decreases |ts|
  {
    if ts != [] {
      FewIsBounded(few, Next(r, ts[0]), ts[1..]);
    }
  }

  /** The last tokens of the output tell how many newlines it ends in. */
  lemma {:induction false} ReachedByLast(out: seq<Token>)
    ensures Reached(Clear, out).Fresh? <==> out != [] && out[|out| - 1].Newline?
    ensures out != [] && out[|out| - 1].Newline? && (|out| == 1 || !out[|out| - 2].Newline?) ==>
              Reached(Clear, out) == Fresh(1)
    decreases |out|
  {
    if out != [] {
      var init, t := out[..|out| - 1], out[|out| - 1];
      assert out == init + [t];
      BoundedConcat(false, Clear, init, [t]);
      BoundedCons(false, Reached(Clear, init), t, []);
      assert [t] + [] == [t];
      ReachedByLast(init);
    }
  }

  lemma {:induction false} AllVisible(s: RuleSet, ts: seq<Token>)
    requires s.pass == NONE && Unmarked(ts)
    ensures s.Visible(ts) == ts
  {
    forall i | 0 <= i < |ts| ensures !s.Hidden(ts[i]) {
      assert Tokens.Marks(ts[i]) == [];
    }
    VisibleAll(s, ts);
  }

  lemma SeenBehind(s: RuleSet, out: seq<Token>, v: View)
    requires s.Visible(out) == out && v.prev == s.Recent(out)
    ensures v.Tok(-1) == Newline <==> out != [] && out[|out| - 1].Newline?
    ensures v.Tok(-2) == Newline <==> |out| > 1 && out[|out| - 2].Newline?
  {
    RecentEnds(s, out);
    hide RuleSet.Visible, RuleSet.Recent;
  }

  lemma SeenAhead(s: RuleSet, rest: seq<Token>)
    requires s.Visible(rest) == rest != [] && s.pass == NONE && Tokens.Marks(rest[0]) == []
    ensures s.Ahead(rest) != [] && s.Ahead(rest)[0] == rest[0] && !s.Hidden(rest[0])
  {
    hide RuleSet.Visible;
  }

  /** What the rules see are the last tokens written and the next ones. */
  lemma SeenTokens(s: RuleSet, out: seq<Token>, rest: seq<Token>)
    requires s.pass == NONE && Unmarked(out + rest) && rest != []
    ensures
      var v := s.Look(out, rest);
      && v.next != [] && v.Tok(1) == rest[0] && !s.Hidden(rest[0]) && v.stack == Open([], out)
      && (v.Tok(-1) == Newline <==> out != [] && out[|out| - 1].Newline?)
      && (v.Tok(-2) == Newline <==> |out| > 1 && out[|out| - 2].Newline?)
  {
    PartsOfStream(out, rest);
    assert Tokens.Marks(rest[0]) == [];
    hide RuleSet.Visible, RuleSet.Recent, RuleSet.Ahead, RuleSet.Hidden, Unmarked, Open;
    AllVisible(s, out);
    AllVisible(s, rest);
    SeenBehind(s, out, s.Look(out, rest));
    SeenAhead(s, rest);
  }

  /** A newline may be added where the rules do so. */
  lemma AddedIsSteady(s: RuleSet, few: bool, braces: bool, out: seq<Token>, rest: seq<Token>)
    requires s.pass == NONE && rest != [] && Steady(few, braces, out + rest) && MayAdd(braces, s.Look(out, rest))
    ensures Steady(few, braces, out + [Newline] + rest)
  {
    var t, b := rest[0], rest[1..];
    assert rest == [t] + b;
    SeenTokens(s, out, rest);
    ReachedByLast(out);
    if !t.Begin? {
      BraceIsClear(s, few, out, t, b);
    }
    NewlineAdded(few, out, t, b);
    NewlineDoesNotMatter(braces, out, rest);
    Assoc(out, [Newline], rest);
  }

  lemma BraceIsClear(s: RuleSet, few: bool, out: seq<Token>, t: Token, b: seq<Token>)
    requires s.pass == NONE && Steady(few, true, out + ([t] + b)) && t == LBRACE
    requires s.Look(out, [t] + b).Tok(-1) != Newline && s.Look(out, [t] + b).InRule(RuleDecl, false)
    ensures Reached(Clear, out) == Clear
  {
    SeenTokens(s, out, [t] + b);
    ReachedByLast(out);
    PartsOfStream(out, [t] + b);
    BoundedConcat(few, Clear, out, [t] + b);
    FewIsBounded(few, Clear, out);
    SealedIsBegun(out);
    NamedConcat([], false, out, [t] + b);
  }

  /** All that is inserted before the next token keeps the stream steady. */
  lemma {:induction false} InsertedIsSteady(
      s: RuleSet, few: bool, braces: bool, out: seq<Token>, rest: seq<Token>, n: nat)
    requires Careful(s, braces) && rest != [] && Steady(few, braces, out + rest) && s.Settles(s.Look(out, rest), n)
    ensures Steady(few, braces, out + s.Inserted(s.Look(out, rest), n) + rest)
    decreases n
  {
    var v := s.Look(out, rest);
    if s.Match(v).Insert? {
      CarefulInserts(s, braces, v);
      AddedIsSteady(s, few, braces, out, rest);
      assert s.Insertable([Newline]);
      LookAfterInsert(s, out, rest, [Newline]);
      hide Careful, Steady, RuleSet.Look;
      InsertedIsSteady(s, few, braces, out + [Newline], rest, n - 1);
      Assoc(out, [Newline], s.Inserted(s.After(v, [Newline]), n - 1));
    } else {
      assert out + [] == out;
    }
  }

  lemma CarefulInserts(s: RuleSet, braces: bool, v: View)
    requires Careful(s, braces) && s.Match(v).Insert?
    ensures s.Match(v) == Insert([Newline]) && MayAdd(braces, v)
  {
    hide MayAdd;
    MatchComesFromRules(s, 0, v);
  }

  function NotNewline(t: Token): seq<Token> { if t.Newline? then [] else [t] }

  lemma CarefulDrops(s: RuleSet, braces: bool, v: View, n: nat)
    requires Careful(s, braces) && s.Settles(v, n) && s.Drops(v, n)
    ensures v.Tok(1).Newline?
  {
    assert Harmless(s, NotNewline);
    DroppedSaysNothing(s, NotNewline, v, n);
  }

  lemma ConsumedIsSteady(s: RuleSet, few: bool, braces: bool, out: seq<Token>, rest: seq<Token>)
    requires Careful(s, braces) && rest != [] && Steady(few, braces, out + rest)
    ensures !s.Hidden(rest[0]) && s.Settles(s.Look(out, rest), MAX_INSERTIONS)
    ensures Steady(few, braces, s.Consume(out, s.Look(out, rest), rest[0]) + rest[1..])
  {
    var v, t, b := s.Look(out, rest), rest[0], rest[1..];
    assert s.Settles(v, MAX_INSERTIONS);
    hide RuleSet.Look, Bounded, Named, OnlyRules, Unmarked;
    InsertedIsSteady(s, few, braces, out, rest, MAX_INSERTIONS);
    SeenTokens(s, out, rest);
    var before := out + s.Inserted(v, MAX_INSERTIONS);
    assert rest == [t] + b;
    if s.Drops(v, MAX_INSERTIONS) {
      CarefulDrops(s, braces, v, MAX_INSERTIONS);
      NewlineRemoved(few, before, b);
      NewlineDoesNotMatter(braces, before, b);
      assert before + [] == before;
    } else {
      Assoc(before, [t], b);
    }
  }

  lemma {:induction false} RewriteIsSteady(s: RuleSet, few: bool, braces: bool, out: seq<Token>, rest: seq<Token>)
    requires Careful(s, braces) && Steady(few, braces, out + rest)
    ensures Steady(few, braces, s.Rewrite(out, rest))
    decreases |rest|
  {
    if rest == [] {
      assert out + rest == out;
    } else {
      ConsumedIsSteady(s, few, braces, out, rest);
      hide Steady, RuleSet.Look;
      RewriteVisible(s, out, rest);
      RewriteIsSteady(s, few, braces, s.Consume(out, s.Look(out, rest), rest[0]), rest[1..]);
    }
  }

  lemma RunIsSteady(s: RuleSet, few: bool, braces: bool, ts: seq<Token>)
    requires Careful(s, braces) && Steady(few, braces, ts)
    ensures Steady(few, braces, s.Run(ts))
  {
    assert [] + ts == ts;
    RewriteIsSteady(s, few, braces, [], ts);
  }

  // ----- The rule sets of the pipeline

  lemma FewerNewlinesCareful()
    ensures Careful(FewerNewlines(), false)
  {
    FewerNewlinesFit();
    hide MayAdd, Fit, View.InRule;
    assert forall i :: 0 <= i < 6 ==> FewerNewlines().rules[i].action.Drop?;
  }

  lemma BraceOnSameLineCareful()
    ensures Careful(BraceOnSameLine(), false)
  {
    BraceOnSameLineFit();
    hide MayAdd, Fit, View.InRule;
  }

  lemma BraceOnOwnLineCareful()
    ensures Careful(BraceOnOwnLine(), true)
  {
    BraceOnOwnLineFit();
    hide Fit, View.InRule;
  }

  lemma EmptyLineBeforeRuleCareful()
    ensures Careful(EmptyLineBeforeRule(), false)
  {
    EmptyLineBeforeRuleFit();
    hide Fit, View.InRule;
  }

  lemma {:induction false} CountedIsBounded(ts: seq<Token>)
    requires Bounded(false, Clear, ts) && forall j :: !ThreeNewlinesAt(ts, j)
    ensures Bounded(true, Clear, ts)
    ensures var r := Reached(Clear, ts);
      r.Fresh? ==> r.n <= 2 && |ts| >= r.n && forall k :: |ts| - r.n <= k < |ts| ==> ts[k] == Newline
    decreases |ts|
  {
    if ts != [] {
      var init, t := ts[..|ts| - 1], ts[|ts| - 1];
      assert ts == init + [t];
      BoundedConcat(false, Clear, init, [t]);
      BoundedConcat(true, Clear, init, [t]);
      BoundedCons(false, Reached(Clear, init), t, []);
      BoundedCons(true, Reached(Clear, init), t, []);
      assert [t] + [] == [t];
      forall j ensures !ThreeNewlinesAt(init, j) {
        assert !ThreeNewlinesAt(ts, j);
      }
      CountedIsBounded(init);
      assert |init| >= 2 ==> !ThreeNewlinesAt(ts, |init| - 2);
    }
  }

  /** What comes next in a bounded stream, for rules that do not see control tokens. */
  lemma {:induction false} FewAhead(s: RuleSet, r: Run, ts: seq<Token>)
    requires Bounded(true, r, ts) && s.pass == CONTROL && (r.Fresh? ==> r.n > 0)
    ensures
      var seen := s.Visible(ts);
      && (r.Sealed? || (r.Fresh? && r.n >= 2) ==> seen == [] || seen[0] != Newline)
      && (r.Fresh? ==> |seen| < 2 || seen[0] != Newline || seen[1] != Newline)
      && NoThreeNewlines(seen)
    decreases |ts|
  {
    if ts != [] {
      FewAhead(s, Next(r, ts[0]), ts[1..]);
    }
  }

  lemma BoundedIsFewAhead(s: RuleSet, ts: seq<Token>)
    requires Bounded(true, Clear, ts) && s.pass == CONTROL
    ensures AllAhead(s, NoThreeNewlines, ts)
  {
    forall i | 0 <= i <= |ts| ensures NoThreeNewlines(s.Ahead(ts[i..])) {
      assert ts == ts[..i] + ts[i..];
      BoundedConcat(true, Clear, ts[..i], ts[i..]);
      FreerIsBounded(true, Clear, Reached(Clear, ts[..i]), ts[i..]);
      FewAhead(s, Clear, ts[i..]);
    }
  }

  /** Control tokens other than Begin and End. */
  function Strange(t: Token): seq<Token> { if Is(t, CONTROL) && !IsRule(t) then [t] else [] }

  lemma OnlyRulesIs(ts: seq<Token>)
    ensures OnlyRules(ts) <==> FlatMap(Strange, ts) == []
  {
    if OnlyRules(ts) {
      FlatMapNothing(Strange, ts);
    }
    if FlatMap(Strange, ts) == [] {
      NothingMapped(Strange, ts);
      forall i | 0 <= i < |ts| && Is(ts[i], CONTROL) ensures IsRule(ts[i]) {
        assert Strange(ts[i]) == [];
      }
    }
  }

  lemma {:induction false} ReorderIsUnmarked(m: Bubbles.Medium, ts: seq<Token>)
    requires m == TAILS_UP || m == ENDS_UP
    requires OnlyRules(ts) && Unmarked(ts)
    ensures OnlyRules(m.Flow([], ts)) && Unmarked(m.Flow([], ts))
  {
    MapUnmarked(ts);
    OnlyRulesIs(ts);
    OnlyRulesIs(m.Flow([], ts));
    assert forall t :: m.water(t) ==> Strange(t) == [] && Tokens.Marks(t) == [];
    FlatMapNothing(Strange, []);
    FlatMapNothing(Tokens.Marks, []);
    hide FlatMap, OnlyRules, Bubbles.Medium.Flow;
    Bubbles.FlowPreserves(m, Strange, [], ts);
    Bubbles.FlowPreserves(m, Tokens.Marks, [], ts);
    NothingMapped(Tokens.Marks, m.Flow([], ts));
  }

  /** The stream once newlines have been moved up, and ends before them. */
  function Reordered(ts: seq<Token>): seq<Token> { ENDS_UP.Flow([], TAILS_UP.Flow([], ts)) }

  lemma ReorderedIsBounded(ts: seq<Token>)
    requires OnlyRules(ts) && Unmarked(ts)
    ensures Steady(false, false, Reordered(ts))
  {
    var up := TAILS_UP.Flow([], ts);
    TailsUp([], ts);
    ReorderIsUnmarked(TAILS_UP, ts);
    EndsUp(Clear, false, [], up);
    ReorderIsUnmarked(ENDS_UP, up);
  }

  /** The stream once newlines have been removed and the brace has been put in its place. */
  ghost function Braced(own: bool, ts: seq<Token>): seq<Token> {
    FewerNewlinesFit();
    BraceOnOwnLineFit();
    BraceOnSameLineFit();
    (if own then BraceOnOwnLine() else BraceOnSameLine()).Run(FewerNewlines().Run(ts))
  }

  /** What the pipeline passes to the rules for section headers. */
  ghost function BeforeHeaders(own: bool, ts: seq<Token>): seq<Token> {
    EmptyLineBeforeRuleFit();
    EmptyLineBeforeRule().Run(Braced(own, Reordered(ts)))
  }

  lemma FewerIsSteady(braces: bool, ts: seq<Token>)
    requires Steady(false, braces, ts)
    ensures FewerNewlines().Valid() && Steady(true, braces, FewerNewlines().Run(ts))
  {
    FewerNewlinesCareful();
    NewlinesAreFew(ts);
    var s, out := FewerNewlines(), FewerNewlines().Run(ts);
    MoreCareful(s, braces);
    hide FewerNewlines, Careful;
    RunIsSteady(s, false, braces, ts);
    ObeysLess(s, NewlineIsWanted, NoThirdNewline, out);
    NeverThreeNewlines(s, out);
    SeesAll();
    AllVisible(s, out);
    CountedIsBounded(out);
  }

  lemma SeesAll()
    ensures FewerNewlines().pass == NONE
  {}

  lemma MoreCareful(s: RuleSet, braces: bool)
    requires Careful(s, false)
    ensures Careful(s, braces)
  {
    forall i, v: View | 0 <= i < |s.rules| && s.rules[i].action.Insert? && s.rules[i].cond(v)
      ensures MayAdd(braces, v)
    {
      assert MayAdd(false, v);
    }
  }

  lemma BracedIsSteady(own: bool, ts: seq<Token>)
    requires Steady(false, own, ts)
    ensures Steady(true, own, Braced(own, ts))
  {
    FewerIsSteady(own, ts);
    BraceOnOwnLineFit();
    BraceOnSameLineFit();
    BraceOnOwnLineCareful();
    BraceOnSameLineCareful();
    hide FewerNewlines, BraceOnOwnLine, BraceOnSameLine, Careful, Fit, Steady;
    var fewer := FewerNewlines().Run(ts);
    if own {
      RunIsSteady(BraceOnOwnLine(), true, true, fewer);
    } else {
      RunIsSteady(BraceOnSameLine(), true, false, fewer);
    }
  }

  /**
   What the pipeline passes to the rules for section headers has no three
   newlines in a row, control tokens aside. If braces go to lines of their own,
   no grammar rule may begin between the name of a rule and its brace.
   */
  lemma BeforeHeadersIsBounded(own: bool, ts: seq<Token>)
    requires OnlyRules(ts) && Unmarked(ts) && (own ==> Named([], false, Skeleton(ts)))
    ensures Bounded(true, Clear, BeforeHeaders(own, ts))
  {
    EmptyLineBeforeRuleFit();
    EmptyLineBeforeRuleCareful();
    MoreCareful(EmptyLineBeforeRule(), own);
    ReorderedIsBounded(ts);
    ReorderedIsNamed(ts);
    NamedBySkeleton([], false, Reordered(ts));
    hide EmptyLineBeforeRule, Careful, Fit, Braced, Reordered;
    BracedIsSteady(own, Reordered(ts));
    RunIsSteady(EmptyLineBeforeRule(), true, own, Braced(own, Reordered(ts)));
  }

  lemma ReorderedIsNamed(ts: seq<Token>)
    ensures Skeleton(Reordered(ts)) == Skeleton(ts)
  {
    var up := TAILS_UP.Flow([], ts);
    MediaOk();
    FlatMapNothing(Bone, []);
    hide FlatMap, Bubbles.Medium.Flow;
    Bubbles.FlowPreserves(TAILS_UP, Bone, [], ts);
    Bubbles.FlowPreserves(ENDS_UP, Bone, [], up);
    assert [] + FlatMap(Bone, ts) == FlatMap(Bone, ts) && [] + FlatMap(Bone, up) == FlatMap(Bone, up);
  }

  // ----- Section headers in the pipeline

  lemma NoHeaderIsCopied(s: RuleSet)
    requires CopyKeeps(s, NoThreeNewlines, NoHeaderAfterEmptyLine, HeaderHasOneNewline)
    ensures CopyKeeps(s, NoThreeNewlines, NoHeaderAfterEmptyLine, NoThirdNewline)
  {
    hide NoneApplies, HeaderHasOneNewline;
  }

  lemma NewlineBeforeHeaderHasNoThird()
    ensures Achieves(NewlineBeforeHeader(), NoThreeNewlines, NoHeaderAfterEmptyLine, NoThirdNewline)
  {
    var s := NewlineBeforeHeader();
    NewlineBeforeHeaderCopies();
    NewlineBeforeHeaderInserts();
    NewlineBeforeHeaderDrops();
    forall v: View | NoHeaderAfterEmptyLine(v) && Applies(s, 0, v)
      ensures OkAll(s, NoThirdNewline, v.prev, v.stack, [Newline])
    {
      assert s.rules[0].cond(v);
      assert [Newline][1..] == [];
    }
    assert Keeps(s, NoHeaderAfterEmptyLine, NoThirdNewline, 0);
    assert Keeps(s, NoHeaderAfterEmptyLine, NoThirdNewline, 1);
    NoHeaderIsCopied(s);
    hide CopyKeeps, Keeps;
    AchievesByInvariant(s, NoThreeNewlines, NoHeaderAfterEmptyLine, NoThirdNewline);
  }

  predicate NoThirdAhead(v: View) {
    OneNewlineAhead(v) && (v.Tok(-1) == Newline && v.Tok(-2) == Newline ==> v.Tok(1) != Newline)
  }

  lemma EmptyLineBeforeHeaderInserts(i: nat)
    requires i < 2
    ensures Keeps(EmptyLineBeforeHeader(), NoThirdAhead, NoThirdNewline, i)
  {
    var s := EmptyLineBeforeHeader();
    var ts := s.rules[i].action.tokens;
    forall v: View | NoThirdAhead(v) && Applies(s, i, v)
      ensures NoThirdAhead(s.After(v, ts)) && OkAll(s, NoThirdNewline, v.prev, v.stack, ts)
    {
      assert s.rules[i].cond(v);
      AfterNewlines(s, v);
      assert s.After(v, ts).Tok(1) == v.Tok(1);
      assert [Newline, Newline][1..] == [Newline] && [Newline][1..] == [];
    }
  }

  lemma NoThirdIsCopied(s: RuleSet)
    ensures CopyKeeps(s, NoThreeNewlines, NoThirdAhead, NoThirdNewline)
  {
    hide NoneApplies;
  }

  lemma EmptyLineBeforeHeaderHasNoThird()
    ensures Achieves(EmptyLineBeforeHeader(), NoThreeNewlines, NoThirdAhead, NoThirdNewline)
  {
    var s := EmptyLineBeforeHeader();
    EmptyLineBeforeHeaderInserts(0);
    EmptyLineBeforeHeaderInserts(1);
    NoThirdIsCopied(s);
    hide CopyKeeps, Keeps;
    AchievesByInvariant(s, NoThreeNewlines, NoThirdAhead, NoThirdNewline);
  }

  /** In the pipeline, without the option for an empty line, every section header comes after exactly one newline. */
  lemma HeadersHaveOneNewlineInPipeline(own: bool, ts: seq<Token>)
    requires OnlyRules(ts) && Unmarked(ts) && (own ==> Named([], false, Skeleton(ts)))
    ensures NewlineBeforeHeader().Valid()
    ensures Obeys(NewlineBeforeHeader(), HeaderHasOneNewline, NewlineBeforeHeader().Run(BeforeHeaders(own, ts)))
  {
    BeforeHeadersIsBounded(own, ts);
    BoundedIsFewAhead(NewlineBeforeHeader(), BeforeHeaders(own, ts));
    hide BeforeHeaders, NewlineBeforeHeader, AllAhead, Obeys;
    HeadersHaveOneNewline(BeforeHeaders(own, ts));
  }

  function HeaderRules(spaced: bool): RuleSet {
    if spaced then EmptyLineBeforeHeader() else NewlineBeforeHeader()
  }

  lemma HeaderRulesHaveNoThird(spaced: bool, ts: seq<Token>)
    requires AllAhead(HeaderRules(spaced), NoThreeNewlines, ts)
    ensures HeaderRules(spaced).Valid() && HeaderRules(spaced).pass == CONTROL
    ensures Obeys(HeaderRules(spaced), NoThirdNewline, HeaderRules(spaced).Run(ts))
  {
    EmptyLineBeforeHeaderFit();
    NewlineBeforeHeaderFit();
    EmptyLineBeforeHeaderHasNoThird();
    NewlineBeforeHeaderHasNoThird();
    assert HeaderRules(spaced).pass == CONTROL;
    hide EmptyLineBeforeHeader, NewlineBeforeHeader, Achieves, AllAhead, Obeys, Fit;
    if spaced {
      RunObeysOn(HeaderRules(spaced), NoThreeNewlines, NoThirdAhead, NoThirdNewline, ts);
    } else {
      RunObeysOn(HeaderRules(spaced), NoThreeNewlines, NoHeaderAfterEmptyLine, NoThirdNewline, ts);
    }
  }

  /** In the pipeline no empty line separates the first section header of a rule from the opening brace. */
  lemma FirstHeadersAreCloseInPipeline(own: bool, spaced: bool, ts: seq<Token>)
    requires OnlyRules(ts) && Unmarked(ts) && (own ==> Named([], false, Skeleton(ts)))
    ensures HeaderRules(spaced).Valid() && NoEmptyLineBeforeFirstHeader().Valid()
    ensures
      var s := NoEmptyLineBeforeFirstHeader();
      Obeys(s, FirstHeaderIsClose, s.Run(HeaderRules(spaced).Run(BeforeHeaders(own, ts))))
  {
    var before := BeforeHeaders(own, ts);
    assert HeaderRules(spaced).pass == NoEmptyLineBeforeFirstHeader().pass == CONTROL;
    BeforeHeadersIsBounded(own, ts);
    BoundedIsFewAhead(HeaderRules(spaced), before);
    hide BeforeHeaders, HeaderRules, NoEmptyLineBeforeFirstHeader, AllAhead, Obeys;
    HeaderRulesHaveNoThird(spaced, before);
    FewNewlinesAreAhead(HeaderRules(spaced), NoEmptyLineBeforeFirstHeader(), HeaderRules(spaced).Run(before));
    FirstHeadersAreClose(HeaderRules(spaced).Run(before));
  }

  // ----- For every input of the formatter

  /** The stream once comments are processed and blanks are gone. */
  ghost function Bare(o: Options, x: seq<Token>): seq<Token> {
    StatementLinesFit();
    NoWhitespaceFit();
    NoWhitespace().Run(Comments.Run(o.tabSize, StatementLines().Run(x)))
  }

  lemma NewlinesAreNotStrange(s: RuleSet)
    requires Fit(s, IsPlain) &&
        (forall i :: 0 <= i < |s.rules| && s.rules[i].action.Insert? ==> s.rules[i].action.tokens == [Newline])
    ensures Harmless(s, Strange)
  {}

  lemma RulesKeepStrange(s: RuleSet, ts: seq<Token>)
    requires Fit(s, IsPlain) &&
        (forall i :: 0 <= i < |s.rules| && s.rules[i].action.Insert? ==> s.rules[i].action.tokens == [Newline])
    requires OnlyRules(ts)
    ensures OnlyRules(s.Run(ts))
  {
    OnlyRulesIs(ts);
    OnlyRulesIs(s.Run(ts));
    NewlinesAreNotStrange(s);
    hide FlatMap, OnlyRules, Fit;
    RewritePreserves(s, Strange, [], ts);
    FlatMapNothing(Strange, []);
  }

  lemma StrangeIsSeen()
    ensures Comments.Sees(Strange, Comments.NoItems)
  {
    assert Comments.SeesLines(Strange, Comments.NoItems);
    hide Comments.SeesLines;
  }

  lemma CommentsKeepStrange(tabSize: nat, ts: seq<Token>)
    requires OnlyRules(ts) && Comments.RawComments(ts)
    ensures OnlyRules(Comments.Run(tabSize, ts))
  {
    OnlyRulesIs(ts);
    OnlyRulesIs(Comments.Run(tabSize, ts));
    StrangeIsSeen();
    FlatMapNothing(Strange, []);
    hide FlatMap, OnlyRules, Comments.Flow, Comments.Sees;
    Comments.FlowPreserves(Strange, Comments.NoItems, tabSize, true, 0, [], ts);
  }

  lemma BareIsFit(o: Options, x: seq<Token>)
    requires Source(x) && OnlyRules(x)
    ensures OnlyRules(Bare(o, x)) && Unmarked(Bare(o, x)) && Skeleton(Bare(o, x)) == Skeleton(x)
  {
    StatementLinesFit();
    NoWhitespaceFit();
    RulesKeepStrange(StatementLines(), x);
    NothingOddInserted();
    CommentsStayRaw(StatementLines(), x);
    FirstTwoKeep(o, x);
    var processed := Comments.Run(o.tabSize, StatementLines().Run(x));
    assert forall i :: 0 <= i < |NoWhitespace().rules| ==> !NoWhitespace().rules[i].action.Insert?;
    hide StatementLines, NoWhitespace, Fit, Source, OnlyRules, Comments.RawComments, Essence, Nested, Blocks;
    CommentsKeepStrange(o.tabSize, StatementLines().Run(x));
    RulesKeep(NoWhitespace(), processed);
    RulesKeepStrange(NoWhitespace(), processed);
  }

  /** The stages up to the rules for section headers. */
  function UpToHeaders(o: Options): seq<Stage> { NewlineStages(o)[..7] }

  /** One stage more. */
  function UpToFirstHeaders(o: Options): seq<Stage> { NewlineStages(o)[..8] }

  ghost function Processed(o: Options, x: seq<Token>): seq<Token> {
    StatementLinesFit();
    Comments.Run(o.tabSize, StatementLines().Run(x))
  }

  function MovingStages(): seq<Stage> { [ApplyRules(NoWhitespace()), Reorder(TAILS_UP), Reorder(ENDS_UP)] }

  function RunStages(own: bool): seq<Stage> {
    [ ApplyRules(FewerNewlines()),
      ApplyRules(if own then BraceOnOwnLine() else BraceOnSameLine()),
      ApplyRules(EmptyLineBeforeRule()) ]
  }

  lemma UpToHeadersIs(o: Options)
    ensures UpToHeaders(o) ==
            MovingStages() + RunStages(o.newlineBeforeCurlyBrace) +
                [ApplyRules(HeaderRules(o.emptyLineBeforeSectionHeader))]
    ensures UpToFirstHeaders(o) == UpToHeaders(o) + [ApplyRules(NoEmptyLineBeforeFirstHeader())]
    ensures AllOk(UpToHeaders(o)) && AllOk(UpToFirstHeaders(o))
  {
    NewlineStagesOk(o);
    hide StageOk;
  }

  lemma ApplyOne(a: Stage, ts: seq<Token>)
    requires StageOk(a)
    ensures AllOk([a]) && ApplyAll([a], ts) == Apply(a, ts)
  {
    assert [a][1..] == [];
  }

  lemma ApplyThree(a: Stage, b: Stage, c: Stage, ts: seq<Token>)
    requires StageOk(a) && StageOk(b) && StageOk(c)
    ensures AllOk([a, b, c]) && ApplyAll([a, b, c], ts) == Apply(c, Apply(b, Apply(a, ts)))
  {
    hide StageOk, Apply;
    ApplyFirst([a, b, c], ts);
    assert [a, b, c][1..] == [b] + [c];
    ApplyFirst([b] + [c], Apply(a, ts));
    assert ([b] + [c])[1..] == [c];
    ApplyOne(c, Apply(b, Apply(a, ts)));
  }

  lemma MovedIs(o: Options, x: seq<Token>)
    ensures AllOk(MovingStages()) && ApplyAll(MovingStages(), Processed(o, x)) == Reordered(Bare(o, x))
  {
    NoWhitespaceFit();
    MediaOk();
    assert StageOk(ApplyRules(NoWhitespace()));
    hide NoWhitespace, StageOk, ApplyAll;
    ApplyThree(ApplyRules(NoWhitespace()), Reorder(TAILS_UP), Reorder(ENDS_UP), Processed(o, x));
  }

  lemma RunsAre(own: bool, ts: seq<Token>)
    ensures AllOk(RunStages(own)) && EmptyLineBeforeRule().Valid()
    ensures ApplyAll(RunStages(own), ts) == EmptyLineBeforeRule().Run(Braced(own, ts))
  {
    FewerNewlinesFit();
    BraceOnOwnLineFit();
    BraceOnSameLineFit();
    EmptyLineBeforeRuleFit();
    var brace := ApplyRules(if own then BraceOnOwnLine() else BraceOnSameLine());
    assert StageOk(ApplyRules(FewerNewlines())) && StageOk(brace) && StageOk(ApplyRules(EmptyLineBeforeRule()));
    hide FewerNewlines, BraceOnOwnLine, BraceOnSameLine, EmptyLineBeforeRule, StageOk, ApplyAll;
    ApplyThree(ApplyRules(FewerNewlines()), brace, ApplyRules(EmptyLineBeforeRule()), ts);
  }

  lemma AllOkConcat(a: seq<Stage>, b: seq<Stage>)
    requires AllOk(a + b)
    ensures AllOk(a) && AllOk(b)
  {
    hide StageOk;
    assert forall i :: 0 <= i < |a| ==> (a + b)[i] == a[i];
    assert forall i :: 0 <= i < |b| ==> (a + b)[|a| + i] == b[i];
  }

  /** What the pipeline has made when the section headers are dealt with. */
  lemma HeadersAreReached(o: Options, x: seq<Token>)
    ensures AllOk(UpToHeaders(o)) && HeaderRules(o.emptyLineBeforeSectionHeader).Valid()
    ensures ApplyAll(UpToHeaders(o), Processed(o, x)) ==
            HeaderRules(o.emptyLineBeforeSectionHeader).Run(BeforeHeaders(o.newlineBeforeCurlyBrace, Bare(o, x)))
  {
    UpToHeadersIs(o);
    EmptyLineBeforeHeaderFit();
    NewlineBeforeHeaderFit();
    MovedIs(o, x);
    RunsAre(o.newlineBeforeCurlyBrace, Reordered(Bare(o, x)));
    var moving, runs := MovingStages(), RunStages(o.newlineBeforeCurlyBrace);
    var rules := HeaderRules(o.emptyLineBeforeSectionHeader);
    assert StageOk(ApplyRules(rules));
    hide StageOk, MovingStages, RunStages, Processed, Bare, Reordered, Braced, EmptyLineBeforeRule, HeaderRules,
      UpToHeaders, Fit;
    AllOkConcat(moving + runs, [ApplyRules(rules)]);
    var y := Processed(o, x);
    WordSpacing.ApplyAllConcat(moving + runs, [ApplyRules(rules)], y);
    WordSpacing.ApplyAllConcat(moving, runs, y);
    ApplyOne(ApplyRules(rules), ApplyAll(moving + runs, y));
  }

  lemma FirstHeadersAreReached(o: Options, x: seq<Token>)
    ensures AllOk(UpToHeaders(o)) && AllOk(UpToFirstHeaders(o)) && NoEmptyLineBeforeFirstHeader().Valid()
    ensures ApplyAll(UpToFirstHeaders(o), Processed(o, x)) ==
            NoEmptyLineBeforeFirstHeader().Run(ApplyAll(UpToHeaders(o), Processed(o, x)))
  {
    UpToHeadersIs(o);
    NoEmptyLineBeforeFirstHeaderFit();
    var last := ApplyRules(NoEmptyLineBeforeFirstHeader());
    assert StageOk(last);
    hide StageOk, UpToHeaders, UpToFirstHeaders, Processed, NoEmptyLineBeforeFirstHeader;
    AllOkConcat(UpToHeaders(o), [last]);
    WordSpacing.ApplyAllConcat(UpToHeaders(o), [last], Processed(o, x));
    ApplyOne(last, ApplyAll(UpToHeaders(o), Processed(o, x)));
  }

  /**
   In the pipeline, for every source: without the option for an empty line every
   section header comes after exactly one newline, and no empty line separates
   the first one of a rule from the opening brace.
   */
  lemma HeadersInPipeline(o: Options, x: seq<Token>)
    requires Source(x) && OnlyRules(x) && (o.newlineBeforeCurlyBrace ==> Named([], false, Skeleton(x)))
    ensures AllOk(UpToHeaders(o)) && AllOk(UpToFirstHeaders(o))
    ensures !o.emptyLineBeforeSectionHeader ==>
              Obeys(NewlineBeforeHeader(), HeaderHasOneNewline, ApplyAll(UpToHeaders(o), Processed(o, x)))
    ensures Obeys(NoEmptyLineBeforeFirstHeader(), FirstHeaderIsClose, ApplyAll(UpToFirstHeaders(o), Processed(o, x)))
  {
    HeadersAreReached(o, x);
    FirstHeadersAreReached(o, x);
    BareIsFit(o, x);
    hide Obeys, Source, OnlyRules, Bare, UpToHeaders, UpToFirstHeaders, NewlineBeforeHeader,
      NoEmptyLineBeforeFirstHeader, BeforeHeaders;
    if !o.emptyLineBeforeSectionHeader {
      HeadersHaveOneNewlineInPipeline(o.newlineBeforeCurlyBrace, Bare(o, x));
    }
    FirstHeadersAreCloseInPipeline(o.newlineBeforeCurlyBrace, o.emptyLineBeforeSectionHeader, Bare(o, x));
  }
}
