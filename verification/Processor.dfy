/**
 The rule-driven rewriter of the formatter.

 `Rewrite` is the specification: rules look at the whole output written so far
 and at the whole remaining input. `Processor` is the windowed implementation,
 which only keeps the last three visible output tokens and reads ahead until it
 holds three visible input tokens. `Processor.Next` refines `Rewrite`.
 */
module Processors {
  import opened Seqs
  import opened Tokens

  const MAX_PREV_TOKENS := 3
  const MAX_NEXT_TOKENS := 3

  /** No rule set of the formatter inserts more than this many times in a row. */
  const MAX_INSERTIONS := 2

  /**
   What a rule can see. `prev` holds the last visible output tokens, the most
   recent one first; `next` holds the next visible input tokens; `stack` holds
   the grammar rules that are open in the output.
   */
  datatype View = View(prev: seq<Token>, next: seq<Token>, stack: seq<Kind>) {
    function Tok(n: int): Token
      requires n != 0 && -MAX_PREV_TOKENS <= n <= MAX_NEXT_TOKENS
    {
      if 1 <= n <= |next| then next[n - 1]
      else if -|prev| <= n <= -1 then prev[-n - 1]
      else NoToken
    }

    /** If the next token is an End, the rule it closes is not considered. */
    predicate InRule(k: Kind, deep: bool) {
      var open := if next != [] && next[0].End? && stack != [] then stack[..|stack| - 1] else stack;
      if deep then k in open else open != [] && open[|open| - 1] == k
    }

    /** What InRule asserts: an End that comes next closes the innermost open rule. */
    predicate Consistent() {
      next != [] ==> Closes(stack, next[0])
    }
  }

  datatype Action = Copy | Drop | Insert(tokens: seq<Token>)

  datatype Rule = Rule(cond: View -> bool, action: Action)

  datatype RuleSet = RuleSet(rules: seq<Rule>, pass: Category) {

    /** The action of the first rule that applies; copying is the default. */
    function Match(v: View): Action {
      MatchFrom(0, v)
    }

    function MatchFrom(i: nat, v: View): Action
      requires i <= |rules|
      decreases |rules| - i
    {
      if i == |rules| then Copy
      else if rules[i].cond(v) then rules[i].action
      else MatchFrom(i + 1, v)
    }

    predicate Hidden(t: Token) { Is(t, pass) }

    /** Insertions are of visible tokens that neither open nor close a grammar rule. */
    ghost predicate Insertable(ts: seq<Token>) {
      && ts != []
      && forall i :: 0 <= i < |ts| ==> !Hidden(ts[i]) && !ts[i].Begin? && !ts[i].End?
    }

    /** At most `n` insertions are made at `v` before an input token is consumed. */
    ghost predicate Settles(v: View, n: nat)
      decreases n
    {
      match Match(v)
      case Insert(ts) => n > 0 && Settles(After(v, ts), n - 1)
      case _ => true
    }

    ghost predicate Valid() {
      && (forall i :: 0 <= i < |rules| && rules[i].action.Insert? ==> Insertable(rules[i].action.tokens))
      && (forall v :: Settles(v, MAX_INSERTIONS))
    }

    ghost predicate DropsNoBone() {
      forall i, v: View :: 0 <= i < |rules| && rules[i].action.Drop? && rules[i].cond(v) ==>
        !v.Tok(1).Begin? && !v.Tok(1).End?
    }

    // ----- The window

    function Leading(rest: seq<Token>): (n: nat)
      ensures n <= |rest|
      ensures forall i :: 0 <= i < n ==> Hidden(rest[i])
      ensures n < |rest| ==> !Hidden(rest[n])
    {
      if rest != [] && Hidden(rest[0]) then 1 + Leading(rest[1..]) else 0
    }

    /** Moves the leading hidden tokens from the input to the output. */
    function Skip(out: seq<Token>, rest: seq<Token>): (seq<Token>, seq<Token>) {
      var n := Leading(rest);
      (out + rest[..n], rest[n..])
    }

    function Visible(ts: seq<Token>): seq<Token> {
      if ts == [] then []
      else if Hidden(ts[0]) then Visible(ts[1..])
      else [ts[0]] + Visible(ts[1..])
    }

    function Remember(prev: seq<Token>, t: Token): seq<Token> {
      var longer := [t] + prev;
      if |longer| > MAX_PREV_TOKENS then longer[..MAX_PREV_TOKENS] else longer
    }

    function RememberAll(prev: seq<Token>, ts: seq<Token>): (r: seq<Token>)
      ensures |prev| <= MAX_PREV_TOKENS ==> |r| <= MAX_PREV_TOKENS
      decreases |ts|
    {
      if ts == [] then prev else RememberAll(Remember(prev, ts[0]), ts[1..])
    }

    /** The last visible tokens of `out`, the most recent one first. */
    function Recent(out: seq<Token>): seq<Token> {
      RememberAll([], Visible(out))
    }

    function Ahead(rest: seq<Token>): seq<Token> {
      var visible := Visible(rest);
      if |visible| > MAX_NEXT_TOKENS then visible[..MAX_NEXT_TOKENS] else visible
    }

    function Look(out: seq<Token>, rest: seq<Token>): View {
      View(Recent(out), Ahead(rest), Open([], out))
    }

    function After(v: View, ts: seq<Token>): View {
      v.(prev := RememberAll(v.prev, ts))
    }

    // ----- Rewriting of a whole stream

    /** All that is inserted at `v` before the next input token is consumed. */
    ghost function Inserted(v: View, n: nat): seq<Token>
      requires Settles(v, n)
      decreases n
    {
      match Match(v)
      case Insert(ts) => ts + Inserted(After(v, ts), n - 1)
      case _ => []
    }

    ghost function Drops(v: View, n: nat): bool
      requires Settles(v, n)
      decreases n
    {
      match Match(v)
      case Insert(ts) => Drops(After(v, ts), n - 1)
      case Drop => true
      case Copy => false
    }

    /** What the processor adds when only hidden tokens were left in the input. */
    function Closing(out: seq<Token>): seq<Token> {
      match Match(Look(out, []))
      case Insert(ts) => ts
      case _ => []
    }

    /** The whole output, given the output so far and the remaining input. */
    ghost function Rewrite(out: seq<Token>, rest: seq<Token>): seq<Token>
      requires Valid()
      decreases |rest|
    {
      if rest == [] then out
      else
        var (out1, rest1) := Skip(out, rest);
        if rest1 == [] then out1 + Closing(out1)
        else
          Rewrite(Consume(out1, Look(out1, rest1), rest1[0]), rest1[1..])
    }

    /** The whole output, once hidden tokens have been moved out of the way. */
    ghost function Resume(out: seq<Token>, rest: seq<Token>): seq<Token>
      requires Valid()
    {
      if rest == [] then out + Closing(out) else Rewrite(out, rest)
    }

    /** The output once the visible token `t` has been consumed at the view `v`. */
    ghost function Consume(out: seq<Token>, v: View, t: Token): seq<Token>
      requires Settles(v, MAX_INSERTIONS)
    {
      out + Inserted(v, MAX_INSERTIONS) + if Drops(v, MAX_INSERTIONS) then [] else [t]
    }

    ghost function Run(ts: seq<Token>): seq<Token>
      requires Valid()
    {
      Rewrite([], ts)
    }
  }

  // ----- The window is kept up to date incrementally

  lemma {:induction false} RememberAllConcat(s: RuleSet, prev: seq<Token>, a: seq<Token>, b: seq<Token>)
    ensures s.RememberAll(prev, a + b) == s.RememberAll(s.RememberAll(prev, a), b)
    decreases |a|
  {
    if a == [] {
      assert a + b == b;
    } else {
      assert (a + b)[0] == a[0] && (a + b)[1..] == a[1..] + b;
      RememberAllConcat(s, s.Remember(prev, a[0]), a[1..], b);
    }
  }

  lemma {:induction false} VisibleConcat(s: RuleSet, a: seq<Token>, b: seq<Token>)
    ensures s.Visible(a + b) == s.Visible(a) + s.Visible(b)
  {
    if a == [] {
      assert a + b == b;
    } else {
      assert (a + b)[0] == a[0] && (a + b)[1..] == a[1..] + b;
      VisibleConcat(s, a[1..], b);
    }
  }

  lemma RecentConcat(s: RuleSet, out: seq<Token>, ts: seq<Token>)
    ensures s.Recent(out + ts) == s.RememberAll(s.Recent(out), s.Visible(ts))
  {
    VisibleConcat(s, out, ts);
    RememberAllConcat(s, [], s.Visible(out), s.Visible(ts));
  }

  lemma {:induction false} VisibleAll(s: RuleSet, ts: seq<Token>)
    requires forall i :: 0 <= i < |ts| ==> !s.Hidden(ts[i])
    ensures s.Visible(ts) == ts
  {
    if ts != [] {
      VisibleAll(s, ts[1..]);
    }
  }

  lemma {:induction false} OpenUnchanged(stack: seq<Kind>, ts: seq<Token>)
    requires forall i :: 0 <= i < |ts| ==> !ts[i].Begin? && !ts[i].End?
    ensures Open(stack, ts) == stack && Nested(stack, ts)
    decreases |ts|
  {
    if ts != [] {
      OpenUnchanged(stack, ts[1..]);
    }
  }

  /** Inserting tokens changes the view only through `After`. */
  lemma LookAfterInsert(s: RuleSet, out: seq<Token>, rest: seq<Token>, ts: seq<Token>)
    requires s.Insertable(ts)
    ensures s.Look(out + ts, rest) == s.After(s.Look(out, rest), ts)
  {
    RecentConcat(s, out, ts);
    VisibleAll(s, ts);
    OpenConcat([], out, ts);
    OpenUnchanged(Open([], out), ts);
  }

  lemma {:induction false} MatchComesFromRules(s: RuleSet, i: nat, v: View)
    requires i <= |s.rules|
    ensures s.MatchFrom(i, v) == Copy ||
            exists j :: i <= j < |s.rules| && s.rules[j].cond(v) && s.rules[j].action == s.MatchFrom(i, v)
    decreases |s.rules| - i
  {
    if i < |s.rules| && !s.rules[i].cond(v) {
      MatchComesFromRules(s, i + 1, v);
    }
  }

  /**
   A bound on insertions from a rank that every insertion lowers, whatever
   the order of the rules.
   */
  lemma {:induction false} RankBoundsInsertions(s: RuleSet, rank: View -> nat, v: View, n: nat)
    requires forall i, w :: (0 <= i < |s.rules| && s.rules[i].cond(w) && s.rules[i].action.Insert?) ==>
                              rank(s.After(w, s.rules[i].action.tokens)) < rank(w)
    requires rank(v) <= n
    ensures s.Settles(v, n)
    decreases n
  {
    MatchComesFromRules(s, 0, v);
    match s.Match(v) {
      case Insert(ts) =>
        RankBoundsInsertions(s, rank, s.After(v, ts), n - 1);
      case _ =>
    }
  }

  lemma {:induction false} BoundIsIrrelevant(s: RuleSet, v: View, m: nat, n: nat)
    requires s.Settles(v, m) && s.Settles(v, n)
    ensures s.Inserted(v, m) == s.Inserted(v, n)
    ensures s.Drops(v, m) == s.Drops(v, n)
    decreases m
  {
    match s.Match(v) {
      case Insert(ts) => BoundIsIrrelevant(s, s.After(v, ts), m - 1, n - 1);
      case _ =>
    }
  }

  /** The rewriting when the next input token is visible. */
  lemma RewriteVisible(s: RuleSet, out: seq<Token>, rest: seq<Token>)
    requires s.Valid()
    requires rest != [] && !s.Hidden(rest[0])
    ensures s.Rewrite(out, rest) == s.Rewrite(s.Consume(out, s.Look(out, rest), rest[0]), rest[1..])
  {
    SkipNone(s, out, rest);
  }

  /** A single insertion is a step of the rewriting. */
  lemma RewriteAfterInsert(s: RuleSet, out: seq<Token>, rest: seq<Token>, ts: seq<Token>)
    requires s.Valid()
    requires rest != [] && !s.Hidden(rest[0])
    requires s.Match(s.Look(out, rest)) == Insert(ts)
    ensures s.Rewrite(out, rest) == s.Rewrite(out + ts, rest)
  {
    ConsumeAfterInsert(s, out, s.Look(out, rest), ts, rest[0]);
    MatchComesFromRules(s, 0, s.Look(out, rest));
    LookAfterInsert(s, out, rest, ts);
    RewriteVisible(s, out, rest);
    RewriteVisible(s, out + ts, rest);
  }

  /** Dropping or copying the next token is a step of the rewriting. */
  lemma RewriteAfterConsume(s: RuleSet, out: seq<Token>, t: Token, rest: seq<Token>)
    requires s.Valid() && !s.Hidden(t)
    ensures s.Match(s.Look(out, [t] + rest)) == Drop ==> s.Rewrite(out, [t] + rest) == s.Rewrite(out, rest)
    ensures s.Match(s.Look(out, [t] + rest)) == Copy ==> s.Rewrite(out, [t] + rest) == s.Rewrite(out + [t], rest)
  {
    RewriteVisible(s, out, [t] + rest);
    assert ([t] + rest)[1..] == rest;
    assert out + [] == out && out + [] + [t] == out + [t];
  }

  lemma ConsumeAfterInsert(s: RuleSet, out: seq<Token>, v: View, ts: seq<Token>, t: Token)
    requires s.Valid()
    requires s.Match(v) == Insert(ts)
    ensures s.Consume(out, v, t) == s.Consume(out + ts, s.After(v, ts), t)
  {
    assert s.Settles(v, MAX_INSERTIONS);
    BoundIsIrrelevant(s, s.After(v, ts), MAX_INSERTIONS - 1, MAX_INSERTIONS);
  }

  /** Hidden tokens at the front of the input go to the output first. */
  lemma RewriteAfterSkip(s: RuleSet, out: seq<Token>, rest: seq<Token>)
    requires s.Valid() && rest != []
    ensures
      var (out1, rest1) := s.Skip(out, rest);
      s.Rewrite(out, rest) == if rest1 == [] then out1 + s.Closing(out1) else s.Rewrite(out1, rest1)
  {
    var (out1, rest1) := s.Skip(out, rest);
    if rest1 != [] {
      assert rest1[0] == rest[s.Leading(rest)];
      SkipNone(s, out1, rest1);
    }
  }

  lemma {:induction false} RewriteExtends(s: RuleSet, out: seq<Token>, rest: seq<Token>)
    requires s.Valid()
    ensures out <= s.Rewrite(out, rest)
    decreases |rest|
  {
    if rest != [] {
      var (out1, rest1) := s.Skip(out, rest);
      if rest1 != [] {
        RewriteExtends(s, s.Consume(out1, s.Look(out1, rest1), rest1[0]), rest1[1..]);
      }
    }
  }

  lemma AheadOfBuffered(s: RuleSet, buffered: seq<Token>, input: seq<Token>)
    requires |s.Visible(buffered)| >= MAX_NEXT_TOKENS || input == []
    ensures s.Ahead(buffered + input) == s.Ahead(buffered)
  {
    VisibleConcat(s, buffered, input);
    assert input == [] ==> buffered + input == buffered;
  }

  lemma VisibleSnoc(s: RuleSet, ts: seq<Token>, t: Token)
    ensures s.Visible(ts + [t]) == s.Visible(ts) + if s.Hidden(t) then [] else [t]
  {
    VisibleConcat(s, ts, [t]);
    assert [t][1..] == [];
  }

  lemma OpenSnoc(out: seq<Token>, t: Token)
    ensures Open([], out + [t]) == OpenOne(Open([], out), t)
  {
    OpenConcat([], out, [t]);
    assert [t][1..] == [];
  }

  lemma RecentSnoc(s: RuleSet, out: seq<Token>, t: Token)
    ensures s.Recent(out + [t]) == if s.Hidden(t) then s.Recent(out) else s.Remember(s.Recent(out), t)
  {
    RecentConcat(s, out, [t]);
    VisibleSnoc(s, [], t);
    assert [] + [t] == [t] && [t][1..] == [];
    var prev := s.Recent(out);
    assert s.RememberAll(prev, [t]) == s.RememberAll(s.Remember(prev, t), [t][1..]);
  }

  lemma NextCloses(out: seq<Token>, rest: seq<Token>)
    requires Nested([], out + rest) && rest != []
    ensures Closes(Open([], out), rest[0])
  {
    OpenConcat([], out, rest);
  }

  /** Adding tokens other than Begin and End keeps the stream nested. */
  /** An insertion is a step of the rewriting, also when no input is left. */
  lemma ResumeInsert(s: RuleSet, out: seq<Token>, rest: seq<Token>, ts: seq<Token>)
    requires s.Valid() && (rest != [] ==> !s.Hidden(rest[0]))
    requires s.Match(s.Look(out, rest)) == Insert(ts)
    ensures s.Insertable(ts) && s.Rewrite(out + ts, rest) == s.Resume(out, rest)
  {
    hide RuleSet.Look, RuleSet.Skip;
    MatchComesFromRules(s, 0, s.Look(out, rest));
    if rest != [] {
      RewriteAfterInsert(s, out, rest, ts);
    }
  }

  lemma NestedAfterInsert(out: seq<Token>, ts: seq<Token>, rest: seq<Token>)
    requires Nested([], out + rest)
    requires forall i :: 0 <= i < |ts| ==> !ts[i].Begin? && !ts[i].End?
    ensures Nested([], out + ts + rest)
  {
    OpenConcat([], out, rest);
    OpenConcat([], out, ts);
    OpenUnchanged(Open([], out), ts);
    OpenConcat([], out + ts, rest);
  }

  lemma DroppedIsNoBone(s: RuleSet, out: seq<Token>, t: Token, rest: seq<Token>)
    requires s.DropsNoBone() && !s.Hidden(t)
    requires s.Match(s.Look(out, [t] + rest)) == Drop
    ensures !t.Begin? && !t.End?
  {
    var v := s.Look(out, [t] + rest);
    MatchComesFromRules(s, 0, v);
    assert s.Visible([t] + rest)[0] == t;
    assert v.Tok(1) == t;
  }

  lemma NestedAfterDrop(out: seq<Token>, t: Token, rest: seq<Token>)
    requires Nested([], out + ([t] + rest))
    requires !t.Begin? && !t.End?
    ensures Nested([], out + rest)
  {
    OpenConcat([], out, [t] + rest);
    OpenConcat([], out, rest);
    assert ([t] + rest)[1..] == rest;
  }

  lemma SkipOne(s: RuleSet, out: seq<Token>, rest: seq<Token>)
    requires rest != [] && s.Hidden(rest[0])
    ensures s.Skip(out, rest) == s.Skip(out + [rest[0]], rest[1..])
  {
    var n := s.Leading(rest[1..]);
    assert s.Leading(rest) == n + 1;
    assert out + rest[..n + 1] == out + [rest[0]] + rest[1..][..n];
    assert rest[n + 1..] == rest[1..][n..];
  }

  lemma SkipNone(s: RuleSet, out: seq<Token>, rest: seq<Token>)
    requires rest != [] ==> !s.Hidden(rest[0])
    ensures s.Skip(out, rest).0 == out && s.Skip(out, rest).1 == rest
  {
    assert s.Leading(rest) == 0;
    assert out + rest[..0] == out && rest[0..] == rest;
  }

  /** Lawful rules settle, and never drop a token that opens or closes a grammar rule. */
  type Lawful = s: RuleSet | s.Valid() && s.DropsNoBone() witness RuleSet([], NONE)

  class Processor {
    const ruleSet: Lawful
    var input: seq<Token>
    var output: seq<Token>
    var stack: seq<Kind>
    var prevTokens: seq<Token>
    var nextTokens: seq<Token>
    ghost var written: seq<Token>   // all that has been put into `output`
    ghost var returned: seq<Token>  // all that has been taken from `output`

    /** The tokens that have been neither consumed nor moved to the output. */
    ghost function Rest(): seq<Token>
      reads this
    {
      nextTokens + input
    }

    /** What every step keeps, even between removing a token and writing it. */
    ghost predicate Kept()
      reads this
    {
      && written == returned + output
      && stack == Open([], written)
      && prevTokens == ruleSet.Recent(written)
    }

    ghost predicate Valid()
      reads this
    {
      Kept() && Nested([], written + Rest())
    }

    /** Everything that the iterator will still return. */
    ghost function Remaining(): seq<Token>
      reads this
      requires Valid()
    {
      RewriteExtends(ruleSet, written, Rest());
      ruleSet.Rewrite(written, Rest())[|returned|..]
    }

    constructor (ruleSet: Lawful, input: seq<Token>)
      requires Nested([], input)
      ensures Valid() && Remaining() == ruleSet.Run(input)
    {
      this.ruleSet := ruleSet;
      this.input := input;
      output, stack, prevTokens, nextTokens := [], [], [], [];
      written, returned := [], [];
      new;
      assert [] + input == input && [] + ([] + input) == input;
      assert ruleSet.Run(input)[0..] == ruleSet.Run(input);
    }

    /** What conditions can see through the context. */
    function Context(): View
      reads this
    {
      View(prevTokens, ruleSet.Ahead(nextTokens), stack)
    }

    /** The window holds as many visible tokens as conditions can ask for. */
    ghost predicate Filled()
      reads this
    {
      |ruleSet.Visible(nextTokens)| >= MAX_NEXT_TOKENS || input == []
    }

    /** The windowed context shows what the whole output and the whole input would show. */
    lemma ContextIsLook()
      requires Kept() && Filled()
      ensures Context() == ruleSet.Look(written, Rest())
    {
      AheadOfBuffered(ruleSet, nextTokens, input);
    }

    /** Reads ahead until the window is full or the input is exhausted. */
    method Fill()
      requires Valid()
      modifies this`nextTokens, this`input
      ensures Valid() && Rest() == old(Rest())
      ensures Filled()
    {
      ghost var rest := Rest();
      var visible := |ruleSet.Visible(nextTokens)|;
      while visible < MAX_NEXT_TOKENS && input != []
        invariant Rest() == rest && visible == |ruleSet.Visible(nextTokens)|
        decreases |input|
      {
        VisibleSnoc(ruleSet, nextTokens, input[0]);
        if !ruleSet.Hidden(input[0]) {
          visible := visible + 1;
        }
        assert nextTokens + [input[0]] + input[1..] == rest;
        nextTokens, input := nextTokens + [input[0]], input[1..];
      }
    }

    /** Keeps the stack of open rules up to date; the assertion is that of the source. */
    method Track(token: Token)
      requires Closes(stack, token)
      modifies this`stack
      ensures stack == OpenOne(old(stack), token)
    {
      if token.Begin? {
        stack := stack + [token.kind];
      } else if token.End? && stack != [] {
        assert stack[|stack| - 1] == token.kind;
        stack := stack[..|stack| - 1];
      }
    }

    /** Moves a hidden token from the front of the window to the output. */
    method Pass()
      requires Valid()
      requires nextTokens != [] && ruleSet.Hidden(nextTokens[0])
      modifies this`nextTokens, this`stack, this`output, this`written
      ensures Valid()
      ensures nextTokens == old(nextTokens[1..])
      ensures ruleSet.Visible(nextTokens) == old(ruleSet.Visible(nextTokens))
      ensures written == old(written + [nextTokens[0]]) && output == old(output + [nextTokens[0]])
    {
      var token := nextTokens[0];
      assert Rest() == [token] + (nextTokens[1..] + input);
      assert written + Rest() == (written + [token]) + (nextTokens[1..] + input);
      NextCloses(written, Rest());
      OpenSnoc(written, token);
      RecentSnoc(ruleSet, written, token);
      nextTokens := nextTokens[1..];
      Track(token);
      assert written + [token] == returned + (output + [token]);
      output := output + [token];
      written := written + [token];
    }

    /**
     Reads ahead and moves the hidden tokens at the front to the output.
     Returns true when nothing is left to process or to return.
     */
    method Advance() returns (exhausted: bool)
      requires Valid()
      modifies this
      ensures Valid() && returned == old(returned)
      ensures written == ruleSet.Skip(old(written), old(Rest())).0
      ensures Rest() == ruleSet.Skip(old(written), old(Rest())).1
      ensures nextTokens != [] ==> !ruleSet.Hidden(nextTokens[0])
      ensures nextTokens == [] ==> input == []
      ensures Filled()
      ensures exhausted == (nextTokens == [] && output == [])
    {
      hide RuleSet.Leading, RuleSet.Recent, Open, Nested;
      Fill();
      while nextTokens != [] && ruleSet.Hidden(nextTokens[0])
        invariant Valid() && returned == old(returned)
        invariant ruleSet.Skip(written, Rest()) == ruleSet.Skip(old(written), old(Rest()))
        invariant Filled()
        decreases |nextTokens|
      {
        SkipOne(ruleSet, written, Rest());
        assert Rest()[0] == nextTokens[0] && Rest()[1..] == nextTokens[1..] + input;
        Pass();
      }
      assert Rest() != [] ==> !ruleSet.Hidden(Rest()[0]);
      SkipNone(ruleSet, written, Rest());
      exhausted := nextTokens == [] && output == [];
    }

    /** Advancing again, when no hidden token is at the front, changes no content. */
    method AdvanceAgain()
      requires Valid()
      requires nextTokens != [] ==> !ruleSet.Hidden(nextTokens[0])
      requires nextTokens == [] ==> input == []
      modifies this
      ensures Kept() && written == old(written) && returned == old(returned)
      ensures Rest() == old(Rest())
      ensures nextTokens == [] ==> input == []
    {
      assert Rest() != [] ==> Rest()[0] == nextTokens[0];
      SkipNone(ruleSet, written, Rest());
      var _ := Advance();
    }

    method PopInputToken() returns (token: Option<Token>)
      requires Valid()
      requires nextTokens != [] ==> !ruleSet.Hidden(nextTokens[0])
      requires nextTokens == [] ==> input == []
      modifies this
      ensures Kept() && written == old(written) && returned == old(returned)
      ensures token.None? ==> old(Rest()) == [] && Rest() == []
      ensures token.Some? ==> old(Rest()) == [token.value] + Rest()
    {
      AdvanceAgain();
      if nextTokens == [] {
        token := None;
      } else {
        token := Some(nextTokens[0]);
        assert Rest() == [nextTokens[0]] + (nextTokens[1..] + input);
        nextTokens := nextTokens[1..];
      }
    }

    /** Writes a token, if there is one. Writing an End closes the innermost open rule. */
    method PushOutputToken(token: Option<Token>)
      requires Kept()
      requires token.Some? ==> Closes(stack, token.value)
      modifies this`stack, this`prevTokens, this`output, this`written
      ensures Kept()
      ensures
        var ts := if token.Some? then [token.value] else [];
        written == old(written) + ts && output == old(output) + ts
    {
      if token.None? {
        return;
      }
      var t := token.value;
      OpenSnoc(written, t);
      RecentSnoc(ruleSet, written, t);
      Track(t);
      if !ruleSet.Hidden(t) {
        prevTokens := [t] + prevTokens;
      }
      assert written + [t] == returned + (output + [t]);
      output := output + [t];
      written := written + [t];
      if |prevTokens| > MAX_PREV_TOKENS {
        prevTokens := prevTokens[..|prevTokens| - 1];
      }
    }

    method PushAll(tokens: seq<Token>)
      requires Kept() && ruleSet.Insertable(tokens)
      modifies this`stack, this`prevTokens, this`output, this`written
      ensures Kept()
      ensures written == old(written) + tokens && output == old(output) + tokens
    {
      for i := 0 to |tokens|
        invariant Kept()
        invariant written == old(written) + tokens[..i] && output == old(output) + tokens[..i]
      {
        assert tokens[..i + 1] == tokens[..i] + [tokens[i]];
        PushOutputToken(Some(tokens[i]));
      }
      assert tokens[..|tokens|] == tokens;
    }
  
    /** The action of the first rule that applies. */
    method Select(v: View) returns (action: Action)
      ensures action == ruleSet.Match(v)
    {
      var i := 0;
      while i < |ruleSet.rules|
        invariant i <= |ruleSet.rules| && ruleSet.Match(v) == ruleSet.MatchFrom(i, v)
      {
        if ruleSet.rules[i].cond(v) {
          return ruleSet.rules[i].action;
        }
        i := i + 1;
      }
      action := Copy;
    }

    /** Performs an action. The view at which conditions were evaluated is consistent. */
    method Perform(action: Action)
      requires Valid() && Filled()
      requires nextTokens != [] ==> !ruleSet.Hidden(nextTokens[0])
      requires nextTokens == [] ==> input == []
      requires action == ruleSet.Match(Context())
      modifies this
      ensures Valid() && returned == old(returned)
      ensures ruleSet.Rewrite(written, Rest()) == old(ruleSet.Resume(written, Rest()))
      ensures |Rest()| <= |old(Rest())|
      ensures old(Rest()) == [] || |Rest()| < |old(Rest())| || |written| > |old(written)|
    {
      ContextIsLook();
      ghost var out, rest := written, Rest();
      assert Context().Consistent() by {
        if rest != [] { NextCloses(out, rest); }
      }
      match action {
        case Insert(tokens) => PerformInsert(tokens);
        case Drop => PerformDrop();
        case Copy => PerformCopy();
      }
    }

    method PerformInsert(tokens: seq<Token>)
      requires Valid()
      requires Rest() != [] ==> !ruleSet.Hidden(Rest()[0])
      requires ruleSet.Match(ruleSet.Look(written, Rest())) == Insert(tokens)
      modifies this
      ensures Valid() && returned == old(returned)
      ensures ruleSet.Rewrite(written, Rest()) == old(ruleSet.Resume(written, Rest()))
      ensures Rest() == old(Rest()) && |written| > |old(written)|
    {
      hide RuleSet.Look, RuleSet.Rewrite, RuleSet.Resume, RuleSet.Hidden, Nested;
      ghost var out, rest := written, Rest();
      ResumeInsert(ruleSet, out, rest, tokens);
      NestedAfterInsert(out, tokens, rest);
      PushAll(tokens);
    }

    method PerformDrop()
      requires Valid()
      requires nextTokens != [] ==> !ruleSet.Hidden(nextTokens[0])
      requires nextTokens == [] ==> input == []
      requires ruleSet.Match(ruleSet.Look(written, Rest())) == Drop
      modifies this
      ensures Valid() && returned == old(returned)
      ensures ruleSet.Rewrite(written, Rest()) == old(ruleSet.Resume(written, Rest()))
      ensures old(Rest()) == Rest() == [] || |Rest()| < |old(Rest())|
    {
      ghost var out, rest := written, Rest();
      assert rest != [] ==> rest[0] == nextTokens[0];
      MatchComesFromRules(ruleSet, 0, ruleSet.Look(out, rest));
      var token := PopInputToken();
      if token.Some? {
        DroppedIsNoBone(ruleSet, out, token.value, Rest());
        NestedAfterDrop(out, token.value, Rest());
        RewriteAfterConsume(ruleSet, out, token.value, Rest());
      } else {
        assert out + [] == out;
      }
    }

    method PerformCopy()
      requires Valid()
      requires nextTokens != [] ==> !ruleSet.Hidden(nextTokens[0])
      requires nextTokens == [] ==> input == []
      requires ruleSet.Match(ruleSet.Look(written, Rest())) == Copy
      modifies this
      ensures Valid() && returned == old(returned)
      ensures ruleSet.Rewrite(written, Rest()) == old(ruleSet.Resume(written, Rest()))
      ensures old(Rest()) == Rest() == [] || |Rest()| < |old(Rest())|
    {
      ghost var out, rest := written, Rest();
      assert rest != [] ==> rest[0] == nextTokens[0];
      var token := PopInputToken();
      if token.Some? {
        NextCloses(out, rest);
        RewriteAfterConsume(ruleSet, out, token.value, Rest());
        assert out + rest == out + [token.value] + Rest();
      } else {
        assert out + [] == out;
      }
      PushOutputToken(token);
    }

    /** One round of the main loop, when no output is pending. */
    method Round() returns (exhausted: bool)
      requires Valid() && output == []
      modifies this
      ensures Valid() && returned == old(returned)
      ensures ruleSet.Rewrite(written, Rest()) == old(ruleSet.Rewrite(written, Rest()))
      ensures exhausted ==> written == returned && Rest() == []
      ensures !exhausted ==> |Rest()| < |old(Rest())| || (|Rest()| == |old(Rest())| && |written| > |returned|)
    {
      ghost var out, rest := written, Rest();
      if rest != [] { RewriteAfterSkip(ruleSet, out, rest); }
      exhausted := Advance();
      if !exhausted {
        assert |written| + |Rest()| == |out| + |rest|;
        ContextIsLook();
        var action := Select(Context());
        Perform(action);
      }
    }

    /** The next token of the output, as the specification has it; None at its end. */
    method Next() returns (r: Option<Token>)
      requires Valid()
      modifies this
      ensures Valid()
      ensures r.Some? ==> old(Remaining()) == [r.value] + Remaining()
      ensures r.None? ==> old(Remaining()) == [] && Remaining() == []
    {
      while true
        invariant Valid() && returned == old(returned)
        invariant Remaining() == old(Remaining())
        decreases |Rest()|, |returned| + 1 - |written|
      {
        if output != [] {
          r := PopOutput();
          return;
        }
        var exhausted := Round();
        if exhausted {
          return None;
        }
      }
    }

    method PopOutput() returns (r: Option<Token>)
      requires Valid() && output != []
      modifies this`output, this`returned
      ensures Valid() && r.Some?
      ensures old(Remaining()) == [r.value] + Remaining()
    {
      hide RuleSet.Rewrite, RuleSet.Recent, Open, Nested;
      r := Some(output[0]);
      RewriteExtends(ruleSet, written, Rest());
      ghost var all := ruleSet.Rewrite(written, Rest());
      assert written[..|written|] == all[..|written|];
      assert all[|returned|] == output[0];
      assert written == (returned + [output[0]]) + output[1..];
      returned := returned + [output[0]];
      output := output[1..];
    }
  }
}
