/**
 What a rewriting keeps. A projection of tokens is kept by a rule set when all
 the tokens it inserts or drops have nothing to say under that projection.
 */
module Preservation {
  import opened Seqs
  import opened Tokens
  import opened Processors

  ghost predicate Harmless<X>(s: RuleSet, f: Token -> seq<X>) {
    && (forall i, j :: 0 <= i < |s.rules| && s.rules[i].action.Insert? && 0 <= j < |s.rules[i].action.tokens| ==>
          f(s.rules[i].action.tokens[j]) == [])
    && (forall i, v: View :: 0 <= i < |s.rules| && s.rules[i].action.Drop? && s.rules[i].cond(v) ==>
          f(v.Tok(1)) == [])
  }

  lemma {:induction false} InsertedSaysNothing<X>(s: RuleSet, f: Token -> seq<X>, v: View, n: nat)
    requires Harmless(s, f) && s.Settles(v, n)
    ensures FlatMap(f, s.Inserted(v, n)) == []
    decreases n
  {
    MatchComesFromRules(s, 0, v);
    match s.Match(v) {
      case Insert(ts) =>
        InsertedSaysNothing(s, f, s.After(v, ts), n - 1);
        FlatMapNothing(f, ts);
        FlatMapConcat(f, ts, s.Inserted(s.After(v, ts), n - 1));
      case _ =>
    }
  }

  lemma {:induction false} DroppedSaysNothing<X>(s: RuleSet, f: Token -> seq<X>, v: View, n: nat)
    requires Harmless(s, f) && s.Settles(v, n) && s.Drops(v, n)
    ensures f(v.Tok(1)) == []
    decreases n
  {
    MatchComesFromRules(s, 0, v);
    match s.Match(v) {
      case Insert(ts) =>
        DroppedSaysNothing(s, f, s.After(v, ts), n - 1);
        assert s.After(v, ts).Tok(1) == v.Tok(1);
      case _ =>
    }
  }

  lemma FirstAhead(s: RuleSet, out: seq<Token>, rest: seq<Token>)
    requires rest != [] && !s.Hidden(rest[0])
    ensures s.Look(out, rest).Tok(1) == rest[0]
  {
    assert s.Visible(rest)[0] == rest[0];
  }

  lemma SkipPreserves<X>(s: RuleSet, f: Token -> seq<X>, out: seq<Token>, rest: seq<Token>)
    ensures FlatMap(f, s.Skip(out, rest).0) + FlatMap(f, s.Skip(out, rest).1) == FlatMap(f, out) + FlatMap(f, rest)
  {
    var n := s.Leading(rest);
    FlatMapConcat(f, out, rest[..n]);
    FlatMapConcat(f, rest[..n], rest[n..]);
    assert rest == rest[..n] + rest[n..];
  }

  lemma ConsumePreserves<X>(s: RuleSet, f: Token -> seq<X>, out: seq<Token>, v: View, t: Token)
    requires s.Valid() && Harmless(s, f) && v.Tok(1) == t
    ensures FlatMap(f, s.Consume(out, v, t)) == FlatMap(f, out) + f(t)
  {
    assert s.Settles(v, MAX_INSERTIONS);
    var ins := s.Inserted(v, MAX_INSERTIONS);
    InsertedSaysNothing(s, f, v, MAX_INSERTIONS);
    FlatMapConcat(f, out, ins);
    if s.Drops(v, MAX_INSERTIONS) {
      DroppedSaysNothing(s, f, v, MAX_INSERTIONS);
      assert out + ins + [] == out + ins;
    } else {
      FlatMapConcat(f, out + ins, [t]);
      FlatMapOne(f, t);
    }
  }

  /** Rewriting by harmless rules leaves the projection of the stream unchanged. */
  lemma {:induction false} RewritePreserves<X>(s: RuleSet, f: Token -> seq<X>, out: seq<Token>, rest: seq<Token>)
    requires s.Valid() && Harmless(s, f)
    ensures FlatMap(f, s.Rewrite(out, rest)) == FlatMap(f, out) + FlatMap(f, rest)
    decreases |rest|
  {
    if rest == [] {
      assert FlatMap(f, out) + [] == FlatMap(f, out);
    } else {
      SkipPreserves(s, f, out, rest);
      var (out1, rest1) := s.Skip(out, rest);
      if rest1 == [] {
        ClosingPreserves(s, f, out1);
      } else {
        var v := s.Look(out1, rest1);
        FirstAhead(s, out1, rest1);
        ConsumePreserves(s, f, out1, v, rest1[0]);
        RewritePreserves(s, f, s.Consume(out1, v, rest1[0]), rest1[1..]);
        assert FlatMap(f, rest1) == f(rest1[0]) + FlatMap(f, rest1[1..]);
      }
    }
  }

  lemma ClosingPreserves<X>(s: RuleSet, f: Token -> seq<X>, out: seq<Token>)
    requires s.Valid() && Harmless(s, f)
    ensures FlatMap(f, out + s.Closing(out)) == FlatMap(f, out)
  {
    var v := s.Look(out, []);
    MatchComesFromRules(s, 0, v);
    FlatMapNothing(f, s.Closing(out));
    FlatMapConcat(f, out, s.Closing(out));
  }

  /** What a lawful, harmless rule set does to a whole stream. */
  lemma RunPreserves(s: Lawful, ts: seq<Token>)
    requires Harmless(s, Items)
    ensures Essence(s.Run(ts)) == Essence(ts)
    ensures Skeleton(s.Run(ts)) == Skeleton(ts)
  {
    RewritePreserves(s, Items, [], ts);
    BonesAreKept(s);
    RewritePreserves(s, Bone, [], ts);
    assert Essence(ts) == [] + Essence(ts) && Skeleton(ts) == [] + Skeleton(ts);
  }

  /** A text token is an item, and lawful rules leave Begin and End alone. */
  lemma BonesAreKept(s: Lawful)
    requires Harmless(s, Items)
    ensures Harmless(s, Bone)
  {
    forall i, j | 0 <= i < |s.rules| && s.rules[i].action.Insert? && 0 <= j < |s.rules[i].action.tokens|
      ensures Bone(s.rules[i].action.tokens[j]) == []
    {
      assert Items(s.rules[i].action.tokens[j]) == [];
    }
    forall i, v: View | 0 <= i < |s.rules| && s.rules[i].action.Drop? && s.rules[i].cond(v)
      ensures Bone(v.Tok(1)) == []
    {
      assert Items(v.Tok(1)) == [];
    }
  }
}
