/** Where the level is raised and lowered, as a table over the tokens around a place. */
module LevelTables {
  import opened Tokens
  import opened Processors
  import opened RuleSets
  import opened RuleTables
  import opened Levels

  predicate Innermost(inside: seq<Kind>, k: Kind) { inside != [] && inside[|inside| - 1] == k }

  /** `last` opens a block that the next token is in; the End of another section comes first. */
  predicate Rises(b: Block, inside: seq<Kind>, last: Token, next: Token) {
    match b
    case Body => Innermost(inside, RuleDecl) && last == Punctuation("{")
    case Sections =>
      && last == Punctuation(":")
      && (|| Innermost(inside, ConditionBlk)
          || (Innermost(inside, MetaBlk) && next != End(ConditionBlk))
          || (Innermost(inside, PatternsBlk) && next != End(ConditionBlk) && next != End(MetaBlk)))
    case Hex => HexPattern in inside && last == Punctuation("{")
    case Parens => BooleanExpr in inside && last == LGrouping("(")
    case With => Innermost(inside, WithExpr) && last == Keyword("with")
  }

  /** `next` closes a block. */
  predicate Falls(b: Block, inside: seq<Kind>, next: Token) {
    match b
    case Body => Innermost(inside, RuleDecl) && next == Punctuation("}")
    case Sections => next in {End(MetaBlk), End(PatternsBlk), End(ConditionBlk)}
    case Hex => HexPattern in inside && next == Punctuation("}")
    case Parens => BooleanExpr in inside && next == RGrouping(")")
    case With => next == End(WithExpr)
  }

  /** The level rises behind an opener and falls before a closer, unless it has just fallen. */
  function LevelTable(b: Block): Table {
    (p: RuleTables.Place) =>
      var rises := Rises(b, p.inside, p.Back(1), p.Ahead(1));
      var falls := Falls(b, p.inside, p.Ahead(1)) && (rises || p.Back(1) != Indentation(-1));
      Edit((if rises then [Indentation(1)] else []) + (if falls then [Indentation(-1)] else []), true)
  }

  /** The open rules that conditions consider. */
  function OpenAt(v: View): seq<Kind> {
    if v.next != [] && v.next[0].End? && v.stack != [] then v.stack[..|v.stack| - 1] else v.stack
  }

  lemma Opened(v: View, k: Kind)
    ensures v.InRule(k, false) <==> Innermost(OpenAt(v), k)
    ensures v.InRule(k, true) <==> k in OpenAt(v)
  {}

  lemma TwoRules(s: RuleSet, v: View)
    requires |s.rules| == 2
    ensures s.Match(v) == if s.rules[0].cond(v) then s.rules[0].action
                          else if s.rules[1].cond(v) then s.rules[1].action else Copy
  {
    assert s.MatchFrom(1, v) == if s.rules[1].cond(v) then s.rules[1].action else s.MatchFrom(2, v);
  }

  predicate Lowers(b: Block, v: View) { Falls(b, OpenAt(v), v.Tok(1)) && v.Tok(-1) != DOWN }

  lemma SectionsMatchAlso(v: View)
    ensures IndentSections().Match(v) ==
            if Rises(Sections, OpenAt(v), v.Tok(-1), v.Tok(1)) then Insert([UP])
            else if Lowers(Sections, v) then Insert([DOWN]) else Copy
  {
    SectionsMatch(v);
    Opened(v, MetaBlk);
    Opened(v, PatternsBlk);
    Opened(v, ConditionBlk);
    hide RuleSet.Match, View.InRule, OpenAt, Innermost;
  }

  lemma RulesMatch(b: Block, v: View)
    ensures b.Rules().Match(v) ==
            if Rises(b, OpenAt(v), v.Tok(-1), v.Tok(1)) then Insert([UP]) else if Lowers(b,
                v) then Insert([DOWN]) else Copy
  {
    match b
    case Sections => SectionsMatchAlso(v);
    case Body => Opened(v, RuleDecl); TwoRules(b.Rules(), v);
    case Hex => Opened(v, HexPattern); TwoRules(b.Rules(), v);
    case Parens => Opened(v, BooleanExpr); TwoRules(b.Rules(), v);
    case With => Opened(v, WithExpr); TwoRules(b.Rules(), v);
  }

  lemma AfterLevel(s: RuleSet, v: View, level: Token)
    ensures var w := s.After(v, [level]);
      w.Tok(-1) == level && w.Tok(1) == v.Tok(1) && w.next == v.next && OpenAt(w) == OpenAt(v)
  {
    AfterOne(s, v, level);
  }

  lemma NoLevelAgain(b: Block, w: View)
    requires w.Tok(-1) == DOWN
    ensures b.Rules().Match(w) == Copy
  {
    RulesMatch(b, w);
    hide RuleSet.Match, Block.Rules, Innermost;
  }

  lemma AfterRise(b: Block, w: View)
    requires w.Tok(-1) == UP
    ensures b.Rules().Match(w) == if Falls(b, OpenAt(w), w.Tok(1)) then Insert([DOWN]) else Copy
  {
    RulesMatch(b, w);
    hide RuleSet.Match, Block.Rules, Innermost, Falls;
  }

  lemma PlaceSees(b: Block, v: View, p: RuleTables.Place)
    requires Shows(v, p)
    ensures v.Tok(-1) == p.Back(1) && v.Tok(1) == p.Ahead(1) && OpenAt(v) == p.inside
    ensures v.next == [] ==> !Falls(b, p.inside, p.Ahead(1))
  {}

  lemma LevelsExplained(b: Block, v: View, p: RuleTables.Place)
    requires Shows(v, p)
    ensures Explains(b.Rules(), LevelTable(b)(p), v)
  {
    hide Explains, Shows, Block.Rules, RuleSet.Match, OpenAt, Rises, Falls, Place.Back, Place.Ahead;
    PlaceSees(b, v, p);
    var s, rises, falls := b.Rules(), Rises(b, p.inside, p.Back(1), p.Ahead(1)), Falls(b, p.inside, p.Ahead(1));
    RulesMatch(b, v);
    if rises {
      var w := s.After(v, [UP]);
      AfterLevel(s, v, UP);
      AfterRise(b, w);
      if falls {
        AfterLevel(s, w, DOWN);
        NoLevelAgain(b, s.After(w, [DOWN]));
        TwoInsertions(s, v, [UP], [DOWN]);
      } else {
        assert [UP] + [] == [UP];
        OneInsertion(s, v, [UP]);
      }
    } else if Lowers(b, v) {
      AfterLevel(s, v, DOWN);
      NoLevelAgain(b, s.After(v, [DOWN]));
      OneInsertion(s, v, [DOWN]);
      assert [] + [DOWN] == [DOWN];
    } else {
      NoInsertion(s, v);
      var none: seq<Token> := [];
      assert none + none == none;
    }
  }

  /** Each rule set for indentation is editing by its table. */
  lemma LevelsExactly(b: Block, ts: seq<Token>)
    ensures b.Rules().Valid() && b.Rules().Run(ts) == Edited(COMMENT, LevelTable(b), [], ts)
  {
    RulesFit(b);
    hide Explains, LevelTable, Block.Rules;
    forall v, p | Shows(v, p) ensures Explains(b.Rules(), LevelTable(b)(p), v) {
      LevelsExplained(b, v, p);
    }
    RunIsEdited(b.Rules(), LevelTable(b), ts);
  }
}
