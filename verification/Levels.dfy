/**
 What the rule sets for indentation do to the level. Each of them raises it
 behind the openers of one kind of block and lowers it before the closers. They
 run one after the other and see the tokens of each other; still, each token of
 the program ends up at a level that is the number of blocks around it.
 */
module Levels {
  import opened Seqs
  import opened Tokens
  import opened Processors
  import opened Preservation
  import opened RuleSets
  import opened RuleEffects
  import opened AddingIndentation
  import PipelineColumns

  datatype Block = Body | Sections | Hex | Parens | With {
    function Rules(): RuleSet {
      match this
      case Body => IndentBody()
      case Sections => IndentSections()
      case Hex => IndentHexPatterns()
      case Parens => IndentParenthesized()
      case With => IndentWith()
    }

    /** The level is raised behind this token, inside of such a block. */
    function Opener(): Token {
      match this
      case Body => LBRACE
      case Sections => COLON
      case Hex => LBRACE
      case Parens => LPAREN
      case With => Keyword("with")
    }

    predicate Inside(stack: seq<Kind>) {
      var top := if stack == [] then SourceFile else stack[|stack| - 1];
      match this
      case Body => top == RuleDecl
      case Sections => top == ConditionBlk || top == MetaBlk || top == PatternsBlk
      case Hex => HexPattern in stack
      case Parens => BooleanExpr in stack
      case With => top == WithExpr
    }

    /** The level is lowered before this token. */
    predicate Closes(stack: seq<Kind>, t: Token) {
      match this
      case Body => t == RBRACE && Inside(stack)
      case Sections => t == End(ConditionBlk) || t == End(MetaBlk) || t == End(PatternsBlk)
      case Hex => t == RBRACE && Inside(stack)
      case Parens => t == RPAREN && Inside(stack)
      case With => t == End(WithExpr)
    }
  }

  const UP := Indentation(1)
  const DOWN := Indentation(-1)

  predicate IsOpener(t: Token) { t == LBRACE || t == COLON || t == LPAREN || t == Keyword("with") }

  // ----- Places in a stream

  /** The last token that is no comment, the open grammar rules, and whether the last text or rule is an opener. */
  datatype Spot = Spot(last: Token, stack: seq<Kind>, open: bool)

  const START := Spot(NoToken, [], false)

  function Move(s: Spot, t: Token): Spot {
    Spot(if Is(t, COMMENT) then s.last else t, OpenOne(s.stack, t), if Bone(t) == [] then s.open else IsOpener(t))
  }

  function Reach(s: Spot, ts: seq<Token>): Spot
    decreases |ts|
  {
    if ts == [] then s else Reach(Move(s, ts[0]), ts[1..])
  }

  predicate Known(s: Spot) { IsOpener(s.last) ==> s.open }

  /** Nothing ends right behind an opener, and no brace closes both a rule and a hex pattern. */
  predicate Sane(s: Spot, ts: seq<Token>)
    decreases |ts|
  {
    ts == [] || (
      && (s.open ==> !ts[0].End?)
      && !(Body.Closes(s.stack, ts[0]) && Hex.Closes(s.stack, ts[0]))
      && Sane(Move(s, ts[0]), ts[1..])
    )
  }

  predicate Opens(b: Block, stack: seq<Kind>, t: Token) { t == b.Opener() && b.Inside(stack) }

  /** How many of the blocks `t` opens. */
  function Opened(bs: seq<Block>, stack: seq<Kind>, t: Token): nat {
    if bs == [] then 0 else (if Opens(bs[0], stack, t) then 1 else 0) + Opened(bs[1..], stack, t)
  }

  /** How many of the blocks `t` closes. */
  function Closed(bs: seq<Block>, stack: seq<Kind>, t: Token): nat {
    if bs == [] then 0 else (if bs[0].Closes(stack, t) then 1 else 0) + Closed(bs[1..], stack, t)
  }

  /** The blocks that are open after `ts`: openers less closers. */
  function Depth(bs: seq<Block>, stack: seq<Kind>, ts: seq<Token>): int
    decreases |ts|
  {
    if ts == [] then 0
    else Opened(bs, stack, ts[0]) - Closed(bs, stack, ts[0]) + Depth(bs, OpenOne(stack, ts[0]), ts[1..])
  }

  function Delta(t: Token): int { if t.Indentation? then t.delta else 0 }

  /** The level less the depth behind `t`, when it is `d` before. */
  function Passed(bs: seq<Block>, d: int, stack: seq<Kind>, t: Token): int {
    d + Delta(t) - Opened(bs, stack, t) + Closed(bs, stack, t)
  }

  /** The level less the depth behind `ts`. */
  function Ends(bs: seq<Block>, d: int, stack: seq<Kind>, ts: seq<Token>): int {
    d + Level(ts) - Depth(bs, stack, ts)
  }

  predicate Stands(bs: seq<Block>, d: int, stack: seq<Kind>, t: Token) {
    Bone(t) != [] ==> d + Closed(bs, stack, t) == 0
  }

  /**
   Text and ends of grammar rules stand at the level of the blocks around them,
   where `d` is the level less the depth before `ts`. A closer stands outside of
   its block.
   */
  predicate Leveled(bs: seq<Block>, d: int, stack: seq<Kind>, ts: seq<Token>)
    decreases |ts|
  {
    ts == [] || (
      && Stands(bs, d, stack, ts[0])
      && Leveled(bs, Passed(bs, d, stack, ts[0]), OpenOne(stack, ts[0]), ts[1..])
    )
  }

  /** An opener whose level has not been raised yet. */
  function Pending(b: Block, s: Spot): nat {
    if Opens(b, s.stack, s.last) then 1 else 0
  }

  predicate ClosesOne(bs: seq<Block>, stack: seq<Kind>, t: Token) {
    exists i :: 0 <= i < |bs| && bs[i].Closes(stack, t)
  }

  /** Each lowering of the level is followed by a closer of one of the blocks. */
  predicate Lowered(bs: seq<Block>, s: Spot, ts: seq<Token>)
    decreases |ts|
  {
    ts == [] || (
      && (s.last == DOWN && !Is(ts[0], COMMENT) ==> ClosesOne(bs, s.stack, ts[0]))
      && Lowered(bs, Move(s, ts[0]), ts[1..])
    )
  }

  // ----- Concatenation

  lemma {:induction false} ReachConcat(s: Spot, a: seq<Token>, b: seq<Token>)
    ensures Reach(s, a + b) == Reach(Reach(s, a), b)
    decreases |a|
  {
    if a == [] {
      assert a + b == b;
    } else {
      assert (a + b)[0] == a[0] && (a + b)[1..] == a[1..] + b;
      ReachConcat(Move(s, a[0]), a[1..], b);
    }
  }

  lemma {:induction false} SaneConcat(s: Spot, a: seq<Token>, b: seq<Token>)
    ensures Sane(s, a + b) <==> Sane(s, a) && Sane(Reach(s, a), b)
    decreases |a|
  {
    if a == [] {
      assert a + b == b;
    } else {
      assert (a + b)[0] == a[0] && (a + b)[1..] == a[1..] + b;
      SaneConcat(Move(s, a[0]), a[1..], b);
    }
  }

  lemma {:induction false} DepthConcat(bs: seq<Block>, stack: seq<Kind>, a: seq<Token>, b: seq<Token>)
    ensures Depth(bs, stack, a + b) == Depth(bs, stack, a) + Depth(bs, Open(stack, a), b)
    decreases |a|
  {
    if a == [] {
      assert a + b == b;
    } else {
      assert (a + b)[0] == a[0] && (a + b)[1..] == a[1..] + b;
      hide Opened, Closed, OpenOne;
      DepthConcat(bs, OpenOne(stack, a[0]), a[1..], b);
    }
  }

  lemma EndsConcat(bs: seq<Block>, d: int, stack: seq<Kind>, a: seq<Token>, b: seq<Token>)
    ensures Ends(bs, d, stack, a + b) == Ends(bs, Ends(bs, d, stack, a), Open(stack, a), b)
  {
    hide Level, Depth, Open;
    LevelConcat(a, b);
    DepthConcat(bs, stack, a, b);
  }

  lemma EndsCons(bs: seq<Block>, d: int, stack: seq<Kind>, ts: seq<Token>)
    requires ts != []
    ensures Ends(bs, d, stack, ts) == Ends(bs, Passed(bs, d, stack, ts[0]), OpenOne(stack, ts[0]), ts[1..])
  {
    hide Opened, Closed, OpenOne;
  }

  lemma {:induction false} LeveledConcat(bs: seq<Block>, d: int, stack: seq<Kind>, a: seq<Token>, b: seq<Token>)
    ensures Leveled(bs, d, stack, a + b) <==>
            Leveled(bs, d, stack, a) && Leveled(bs, Ends(bs, d, stack, a), Open(stack, a), b)
    decreases |a|
  {
    if a == [] {
      assert a + b == b;
    } else {
      assert (a + b)[0] == a[0] && (a + b)[1..] == a[1..] + b;
      EndsCons(bs, d, stack, a);
      hide Passed, OpenOne, Stands, Ends;
      LeveledConcat(bs, Passed(bs, d, stack, a[0]), OpenOne(stack, a[0]), a[1..], b);
    }
  }

  /** Blocks count for themselves. */
  lemma {:induction false} OneMoreBlock(bs: seq<Block>, b: Block, stack: seq<Kind>, t: Token)
    ensures Opened(bs + [b], stack, t) == Opened(bs, stack, t) + if Opens(b, stack, t) then 1 else 0
    ensures Closed(bs + [b], stack, t) == Closed(bs, stack, t) + if b.Closes(stack, t) then 1 else 0
    decreases |bs|
  {
    hide Opens, Block.Closes;
    if bs == [] {
      assert bs + [b] == [b] && [b][1..] == [];
    } else {
      assert (bs + [b])[0] == bs[0] && (bs + [b])[1..] == bs[1..] + [b];
      OneMoreBlock(bs[1..], b, stack, t);
    }
  }

  /** Other tokens open and close nothing. */
  lemma {:induction false} NothingOpened(bs: seq<Block>, stack: seq<Kind>, t: Token)
    requires Bone(t) == []
    ensures Opened(bs, stack, t) == Closed(bs, stack, t) == 0 && OpenOne(stack, t) == stack
  {
    if bs != [] {
      NeitherOpensNorCloses(bs[0], stack, t);
      hide Opens, Block.Closes, Bone;
      NothingOpened(bs[1..], stack, t);
    }
  }

  lemma NeitherOpensNorCloses(b: Block, stack: seq<Kind>, t: Token)
    requires Bone(t) == []
    ensures !Opens(b, stack, t) && !b.Closes(stack, t)
  {}

  lemma {:induction false} LoweredConcat(bs: seq<Block>, s: Spot, a: seq<Token>, b: seq<Token>)
    ensures Lowered(bs, s, a + b) <==> Lowered(bs, s, a) && Lowered(bs, Reach(s, a), b)
    decreases |a|
  {
    if a == [] {
      assert a + b == b;
    } else {
      assert (a + b)[0] == a[0] && (a + b)[1..] == a[1..] + b;
      hide ClosesOne;
      LoweredConcat(bs, Move(s, a[0]), a[1..], b);
    }
  }

  lemma {:induction false} LevelConcat(a: seq<Token>, b: seq<Token>)
    ensures Level(a + b) == Level(a) + Level(b)
    decreases |a|
  {
    if a == [] {
      assert a + b == b;
    } else {
      assert (a + b)[0] == a[0] && (a + b)[1..] == a[1..] + b;
      LevelConcat(a[1..], b);
    }
  }

  lemma {:induction false} KnownReach(s: Spot, ts: seq<Token>)
    requires Known(s)
    ensures Known(Reach(s, ts))
    decreases |ts|
  {
    if ts != [] {
      KnownReach(Move(s, ts[0]), ts[1..]);
    }
  }

  lemma {:induction false} StackReached(s: Spot, ts: seq<Token>)
    ensures Reach(s, ts).stack == Open(s.stack, ts)
    decreases |ts|
  {
    if ts != [] {
      StackReached(Move(s, ts[0]), ts[1..]);
    }
  }

  // ----- Comments do not matter

  lemma {:induction false} CommentsDoNotMatter(bs: seq<Block>, d: int, s: Spot, ts: seq<Token>)
    requires forall i :: 0 <= i < |ts| ==> Is(ts[i], COMMENT)
    ensures Reach(s, ts) == s && Open(s.stack, ts) == s.stack && Ends(bs, d, s.stack, ts) == d
    ensures Lowered(bs, s, ts) && Leveled(bs, d, s.stack, ts)
    decreases |ts|
  {
    if ts != [] {
      assert Is(ts[0], COMMENT);
      CommentIsNothing(s, ts[0]);
      NothingOpened(bs, s.stack, ts[0]);
      hide ClosesOne, Move;
      CommentsDoNotMatter(bs, d, s, ts[1..]);
    }
  }

  lemma CommentIsNothing(s: Spot, t: Token)
    requires Is(t, COMMENT)
    ensures Move(s, t) == s && Bone(t) == [] && !t.Indentation?
  {}

  // ----- What one rule set does at a view

  /** The rule for raising the level applies. */
  predicate Raises(b: Block, s: Spot, t: Token) {
    s.last == b.Opener() && b.Inside(if t.End? && s.stack != [] then s.stack[..|s.stack| - 1] else s.stack)
  }

  /** What rules see at a spot. */
  ghost predicate Sees(v: View, s: Spot, t: Token) {
    && v.Tok(-1) == s.last && v.stack == s.stack && v.Tok(1) == t
    && (v.next == [] <==> t == NoToken) && (v.next != [] ==> v.next[0] == t)
  }

  function Acts(b: Block, s: Spot, t: Token): Action {
    if Raises(b, s, t) then Insert([UP])
    else if b.Closes(s.stack, t) && s.last != DOWN then Insert([DOWN])
    else Copy
  }

  lemma BodyActs(v: View, s: Spot, t: Token)
    requires Sees(v, s, t) && (IsOpener(s.last) ==> !t.End?)
    ensures IndentBody().Match(v) == Acts(Body, s, t)
  {
    var r := IndentBody();
    assert r.Match(v) == if r.rules[0].cond(v) then r.rules[0].action else r.MatchFrom(1, v);
    assert r.MatchFrom(1, v) == if r.rules[1].cond(v) then r.rules[1].action else Copy;
  }

  lemma HexActs(v: View, s: Spot, t: Token)
    requires Sees(v, s, t) && (IsOpener(s.last) ==> !t.End?)
    ensures IndentHexPatterns().Match(v) == Acts(Hex, s, t)
  {
    var r := IndentHexPatterns();
    assert r.Match(v) == if r.rules[0].cond(v) then r.rules[0].action else r.MatchFrom(1, v);
    assert r.MatchFrom(1, v) == if r.rules[1].cond(v) then r.rules[1].action else Copy;
  }

  lemma ParensAct(v: View, s: Spot, t: Token)
    requires Sees(v, s, t) && (IsOpener(s.last) ==> !t.End?)
    ensures IndentParenthesized().Match(v) == Acts(Parens, s, t)
  {
    var r := IndentParenthesized();
    assert r.Match(v) == if r.rules[0].cond(v) then r.rules[0].action else r.MatchFrom(1, v);
    assert r.MatchFrom(1, v) == if r.rules[1].cond(v) then r.rules[1].action else Copy;
  }

  lemma WithActs(v: View, s: Spot, t: Token)
    requires Sees(v, s, t) && (IsOpener(s.last) ==> !t.End?)
    ensures IndentWith().Match(v) == Acts(With, s, t)
  {
    var r := IndentWith();
    assert r.Match(v) == if r.rules[0].cond(v) then r.rules[0].action else r.MatchFrom(1, v);
    assert r.MatchFrom(1, v) == if r.rules[1].cond(v) then r.rules[1].action else Copy;
  }

  lemma SectionsAct(v: View, s: Spot, t: Token)
    requires Sees(v, s, t) && (IsOpener(s.last) ==> !t.End?)
    ensures IndentSections().Match(v) == Acts(Sections, s, t)
  {
    var r := IndentSections();
    SectionsMatch(v);
    var opens := s.last == COLON;
    assert r.rules[0].cond(v) <==> opens && v.InRule(ConditionBlk, false);
    assert r.rules[2].cond(v) <==> opens && v.InRule(MetaBlk, false);
    assert r.rules[4].cond(v) <==> opens && v.InRule(PatternsBlk, false);
    assert r.rules[1].cond(v) <==> t == End(ConditionBlk) && s.last != DOWN;
    assert r.rules[3].cond(v) <==> t == End(MetaBlk) && s.last != DOWN;
    assert r.rules[5].cond(v) <==> t == End(PatternsBlk) && s.last != DOWN;
  }

  lemma SectionsMatch(v: View)
    ensures
      var r := IndentSections().rules;
      IndentSections().Match(v) ==
      if r[0].cond(v) then Insert([UP]) else if r[1].cond(v) then Insert([DOWN])
      else if r[2].cond(v) then Insert([UP]) else if r[3].cond(v) then Insert([DOWN])
      else if r[4].cond(v) then Insert([UP]) else if r[5].cond(v) then Insert([DOWN]) else Copy
  {
    hide View.InRule, Unlowered;
    var s := IndentSections();
    assert s.MatchFrom(5, v) == if s.rules[5].cond(v) then Insert([DOWN]) else Copy;
    assert s.MatchFrom(4, v) == if s.rules[4].cond(v) then Insert([UP]) else s.MatchFrom(5, v);
    assert s.MatchFrom(3, v) == if s.rules[3].cond(v) then Insert([DOWN]) else s.MatchFrom(4, v);
    assert s.MatchFrom(2, v) == if s.rules[2].cond(v) then Insert([UP]) else s.MatchFrom(3, v);
    assert s.MatchFrom(1, v) == if s.rules[1].cond(v) then Insert([DOWN]) else s.MatchFrom(2, v);
  }

  lemma RulesAct(b: Block, v: View, s: Spot, t: Token)
    requires Sees(v, s, t) && (IsOpener(s.last) ==> !t.End?)
    ensures b.Rules().Match(v) == Acts(b, s, t)
  {
    hide Sees, Acts;
    match b
    case Body => BodyActs(v, s, t);
    case Sections => SectionsAct(v, s, t);
    case Hex => HexActs(v, s, t);
    case Parens => ParensAct(v, s, t);
    case With => WithActs(v, s, t);
  }

  lemma RulesFit(b: Block)
    ensures Fit(b.Rules(), IsPlain) && b.Rules().pass == COMMENT
  {
    IndentBodyFit();
    IndentSectionsFit();
    IndentHexPatternsFit();
    IndentParenthesizedFit();
    IndentWithFit();
    hide Fit;
  }

  /** What is inserted before the next token. */
  function Levels(b: Block, s: Spot, t: Token): seq<Token> {
    (if Raises(b, s, t) then [UP] else [])
    + if b.Closes(s.stack, t) && (Raises(b, s, t) || s.last != DOWN) then [DOWN] else []
  }

  lemma LevelsSettle(b: Block, v: View, s: Spot, t: Token)
    requires Sees(v, s, t) && (IsOpener(s.last) ==> !t.End?)
    ensures b.Rules().Settles(v, MAX_INSERTIONS) && !b.Rules().Drops(v, MAX_INSERTIONS)
    ensures b.Rules().Inserted(v, MAX_INSERTIONS) == Levels(b, s, t)
  {
    hide Block.Rules, Sees, IsOpener, Raises, Block.Closes, RuleSet.Settles, RuleSet.Drops, RuleSet.Inserted;
    if Raises(b, s, t) {
      RulesAct(b, v, s, t);
      var u := s.(last := UP);
      SeesAfter(b.Rules(), v, s, t, UP);
      NoOpener(b, u, t);
      DownSettles(b, b.Rules().After(v, [UP]), u, t, MAX_INSERTIONS - 1);
      InsertHere(b.Rules(), v, UP, MAX_INSERTIONS);
    } else {
      DownSettles(b, v, s, t, MAX_INSERTIONS);
    }
  }

  lemma DownSettles(b: Block, v: View, s: Spot, t: Token, n: nat)
    requires Sees(v, s, t) && (IsOpener(s.last) ==> !t.End?) && !Raises(b, s, t) && n > 0
    ensures b.Rules().Settles(v, n) && !b.Rules().Drops(v, n)
    ensures b.Rules().Inserted(v, n) == if b.Closes(s.stack, t) && s.last != DOWN then [DOWN] else []
  {
    hide Block.Rules, Sees, IsOpener, Raises, Block.Closes, RuleSet.Settles, RuleSet.Drops, RuleSet.Inserted;
    RulesAct(b, v, s, t);
    if b.Closes(s.stack, t) && s.last != DOWN {
      var u := s.(last := DOWN);
      SeesAfter(b.Rules(), v, s, t, DOWN);
      NoOpener(b, u, t);
      RulesAct(b, b.Rules().After(v, [DOWN]), u, t);
      CopyHere(b.Rules(), b.Rules().After(v, [DOWN]), n - 1);
      InsertHere(b.Rules(), v, DOWN, n);
    } else {
      CopyHere(b.Rules(), v, n);
    }
  }

  lemma CopyHere(r: RuleSet, v: View, n: nat)
    requires r.Match(v) == Copy
    ensures r.Settles(v, n) && !r.Drops(v, n) && r.Inserted(v, n) == []
  {
    hide RuleSet.Match;
  }

  lemma InsertHere(r: RuleSet, v: View, t: Token, n: nat)
    requires r.Match(v) == Insert([t]) && n > 0 && r.Settles(r.After(v, [t]), n - 1)
    ensures r.Settles(v, n) && (r.Drops(v, n) <==> r.Drops(r.After(v, [t]), n - 1))
    ensures r.Inserted(v, n) == [t] + r.Inserted(r.After(v, [t]), n - 1)
  {
    hide RuleSet.Match, RuleSet.After;
  }

  lemma NoOpener(b: Block, s: Spot, t: Token)
    requires s.last.Indentation?
    ensures !Raises(b, s, t) && !IsOpener(s.last)
  {}

  lemma SeesAfter(r: RuleSet, v: View, s: Spot, t: Token, level: Token)
    requires Sees(v, s, t)
    ensures Sees(r.After(v, [level]), s.(last := level), t)
  {
    AfterOne(r, v, level);
  }

  // ----- One step of the rewriting

  /** A rule does not end right behind an opener, so an opener raises the level at the next token. */
  lemma RaisesIsPending(b: Block, s: Spot, t: Token)
    requires Known(s) && (s.open ==> !t.End?)
    ensures Pending(b, s) == if Raises(b, s, t) then 1 else 0
    ensures IsOpener(s.last) ==> !t.End?
  {}

  lemma NoClash(b: Block, bs: seq<Block>, stack: seq<Kind>, t: Token)
    requires b !in bs && b.Closes(stack, t) && !(Body.Closes(stack, t) && Hex.Closes(stack, t))
    ensures !ClosesOne(bs, stack, t)
  {
    if i :| 0 <= i < |bs| && bs[i].Closes(stack, t) {
      TwoClose(b, bs[i], stack, t);
    }
  }

  lemma TwoClose(b: Block, c: Block, stack: seq<Kind>, t: Token)
    requires b.Closes(stack, t) && c.Closes(stack, t) && !(Body.Closes(stack, t) && Hex.Closes(stack, t))
    ensures b == c
  {}

  /** The level that one step adds. */
  lemma LevelsChange(b: Block, bs: seq<Block>, s: Spot, t: Token)
    requires b !in bs && Known(s) && !Is(t, COMMENT)
    requires (s.open ==> !t.End?) && !(Body.Closes(s.stack, t) && Hex.Closes(s.stack, t))
    requires s.last == DOWN ==> ClosesOne(bs, s.stack, t)
    ensures Level(Levels(b, s, t)) == Pending(b, s) - if b.Closes(s.stack, t) then 1 else 0
    ensures Pending(b, Move(s, t)) == if Opens(b, s.stack, t) then 1 else 0
  {
    RaisesIsPending(b, s, t);
    if b.Closes(s.stack, t) {
      NoClash(b, bs, s.stack, t);
    }
    hide ClosesOne;
    LevelOf(Raises(b, s, t), b.Closes(s.stack, t));
    OpenerStays(b, s, t);
  }

  lemma LevelOf(up: bool, down: bool)
    ensures
      Level((if up then [UP] else []) + if down then [DOWN] else []) == (if up then 1 else 0) - if down then 1 else 0
  {
    LevelConcat(if up then [UP] else [], if down then [DOWN] else []);
    assert [UP][1..] == [] && [DOWN][1..] == [];
  }

  lemma OpenerStays(b: Block, s: Spot, t: Token)
    requires !Is(t, COMMENT)
    ensures Pending(b, Move(s, t)) == if Opens(b, s.stack, t) then 1 else 0
  {}

  lemma MoveLevels(b: Block, s: Spot, t: Token)
    requires !Is(t, COMMENT)
    ensures Reach(s, Levels(b, s, t) + [t]) == Move(s, t)
  {
    hide Raises, Block.Closes, Reach;
    var up := if Raises(b, s, t) then [UP] else [];
    var down := if b.Closes(s.stack, t) && (Raises(b, s, t) || s.last != DOWN) then [DOWN] else [];
    assert Levels(b, s, t) == up + down;
    Assoc(up, down, [t]);
    LevelsMoved(s, up);
    LevelsMoved(s.(last := Reach(s, up).last), down);
    ReachConcat(s, up, down + [t]);
    ReachConcat(Reach(s, up), down, [t]);
    MoveForgets(Reach(Reach(s, up), down), s, t);
    ReachOne(Reach(Reach(s, up), down), t);
  }

  lemma ReachOne(s: Spot, t: Token)
    ensures Reach(s, [t]) == Move(s, t)
  {
    hide Move;
    assert Reach(s, [t]) == Reach(Move(s, t), [t][1..]);
  }

  lemma LevelsMoved(s: Spot, ts: seq<Token>)
    requires ts == [] || ts == [UP] || ts == [DOWN]
    ensures Reach(s, ts) == s.(last := Reach(s, ts).last)
  {
    if ts != [] { ReachOne(s, ts[0]); }
  }

  lemma MoveForgets(s: Spot, u: Spot, t: Token)
    requires !Is(t, COMMENT) && s == u.(last := s.last)
    ensures Move(s, t) == Move(u, t)
  {}

  /** What is known of the next token, and of the level at which it stands. */
  ghost predicate Fitting(bs: seq<Block>, d: int, s: Spot, t: Token) {
    && (s.open ==> !t.End?) && !(Body.Closes(s.stack, t) && Hex.Closes(s.stack, t))
    && (s.last == DOWN && !Is(t, COMMENT) ==> ClosesOne(bs, s.stack, t)) && Stands(bs, d, s.stack, t)
  }

  lemma LoweredAgain(b: Block, bs: seq<Block>, d: int, s: Spot, t: Token)
    requires !Is(t, COMMENT) && Known(s) && Fitting(bs, d, s, t)
    ensures Lowered(bs + [b], s, Levels(b, s, t) + [t])
  {
    var more, ins := bs + [b], Levels(b, s, t);
    RaisesIsPending(b, s, t);
    assert s.last == DOWN ==> ClosesOne(more, s.stack, t) by {
      if i :| s.last == DOWN && 0 <= i < |bs| && bs[i].Closes(s.stack, t) { assert more[i] == bs[i]; }
    }
    assert b.Closes(s.stack, t) ==> ClosesOne(more, s.stack, t) by { assert more[|bs|] == b; }
    hide ClosesOne;
    var closes := b.Closes(s.stack, t);
    var up: seq<Token>, down: seq<Token> := if Raises(b, s, t) then [UP] else [], [];
    if closes && (Raises(b, s, t) || s.last != DOWN) { down := [DOWN]; }
    assert ins == up + down;
    LoweredIns(more, s, t, Raises(b, s, t), down != []);
  }

  lemma LoweredIns(bs: seq<Block>, s: Spot, t: Token, up: bool, down: bool)
    requires (up || down) ==> s.last != DOWN
    requires down || s.last == DOWN ==> ClosesOne(bs, s.stack, t)
    ensures Lowered(bs, s, (if up then [UP] else []) + (if down then [DOWN] else []) + [t])
  {
    hide ClosesOne, Move, Reach, Lowered;
    var a: seq<Token>, z: seq<Token> := if up then [UP] else [], if down then [DOWN] else [];
    var u := Reach(s, a);
    LevelsMoved(s, a);
    LevelsMoved(u, z);
    Nothing(bs, s);
    Nothing(bs, u);
    MoveUp(s);
    if up { ReachOne(s, UP); LoweredOne(bs, s, UP); }
    if down { ReachOne(u, DOWN); LoweredOne(bs, u, DOWN); }
    LoweredOne(bs, Reach(u, z), t);
    LoweredConcat(bs, u, z, [t]);
    LoweredConcat(bs, s, a, z + [t]);
    Assoc(a, z, [t]);
  }

  lemma MoveUp(s: Spot)
    ensures Move(s, UP).last == UP
  {}

  lemma Nothing(bs: seq<Block>, s: Spot)
    ensures Reach(s, []) == s && Lowered(bs, s, [])
  {}

  lemma LoweredOne(bs: seq<Block>, s: Spot, t: Token)
    requires s.last == DOWN && !Is(t, COMMENT) ==> ClosesOne(bs, s.stack, t)
    ensures Lowered(bs, s, [t])
  {
    hide ClosesOne, Move;
    Nothing(bs, Move(s, t));
    assert [t][1..] == [];
  }

  lemma {:induction false} IndentationsOnly(bs: seq<Block>, d: int, stack: seq<Kind>, ts: seq<Token>)
    requires forall i :: 0 <= i < |ts| ==> ts[i].Indentation?
    ensures Leveled(bs, d, stack, ts) && Depth(bs, stack, ts) == 0 && Open(stack, ts) == stack
    decreases |ts|
  {
    if ts != [] {
      assert ts[0].Indentation?;
      NothingOpened(bs, stack, ts[0]);
      IndentationsOnly(bs, d + ts[0].delta, stack, ts[1..]);
    }
  }

  lemma LevelsAreIndentations(b: Block, s: Spot, t: Token)
    ensures forall i :: 0 <= i < |Levels(b, s, t)| ==> Levels(b, s, t)[i].Indentation?
  {
    hide Raises, Block.Closes;
  }

  lemma LevelsLeveled(b: Block, bs: seq<Block>, d: int, s: Spot, t: Token)
    ensures
      var ins := Levels(b, s, t);
      && Leveled(bs, d, s.stack, ins) && Open(s.stack, ins) == s.stack
      && Ends(bs, d, s.stack, ins) == d + Level(ins)
  {
    LevelsAreIndentations(b, s, t);
    IndentationsOnly(bs, d, s.stack, Levels(b, s, t));
  }

  lemma LeveledOne(bs: seq<Block>, d: int, stack: seq<Kind>, t: Token)
    requires Stands(bs, d, stack, t)
    ensures Leveled(bs, d, stack, [t]) && Ends(bs, d, stack, [t]) == Passed(bs, d, stack, t)
  {
    hide Opened, Closed, Stands, Passed;
    EndsCons(bs, d, stack, [t]);
    assert [t][1..] == [];
  }

  /** The levels before `t` lift it to where it stands. */
  lemma LiftedStands(b: Block, bs: seq<Block>, d: int, s: Spot, t: Token)
    requires b !in bs && Known(s) && !Is(t, COMMENT) && Fitting(bs, d, s, t)
    ensures
      var e := d - Pending(b, s) + Level(Levels(b, s, t));
      && Stands(bs + [b], e, s.stack, t)
      && Passed(bs + [b], e, s.stack, t) == Passed(bs, d, s.stack, t) - Pending(b, Move(s, t))
  {
    hide Pending, Levels, Level, Opened, Closed, Opens, Block.Closes, Move, Bone, ClosesOne, Known, Is;
    LevelsChange(b, bs, s, t);
    OneMoreBlock(bs, b, s.stack, t);
    if Bone(t) == [] {
      NothingOpened(bs, s.stack, t);
    }
  }

  /** A token with the levels before it: `d` is the level less the depth without `b`. */
  lemma LeveledAgain(b: Block, bs: seq<Block>, d: int, s: Spot, t: Token)
    requires b !in bs && Known(s) && !Is(t, COMMENT) && Fitting(bs, d, s, t)
    ensures
      var ts := Levels(b, s, t) + [t];
      && Leveled(bs + [b], d - Pending(b, s), s.stack, ts)
      && Ends(bs + [b], d - Pending(b, s), s.stack, ts) == Passed(bs, d, s.stack, t) - Pending(b, Move(s, t))
  {
    hide *;
    var more, ins, low := bs + [b], Levels(b, s, t), d - Pending(b, s);
    LiftedStands(b, bs, d, s, t);
    LevelsLeveled(b, more, low, s, t);
    LeveledOne(more, low + Level(ins), s.stack, t);
    LeveledConcat(more, low, s.stack, ins, [t]);
    EndsConcat(more, low, s.stack, ins, [t]);
  }

  // ----- The whole rewriting

  /** `out` has the levels of `b` as well; `d` is the level less the depth behind it, without `b`. */
  ghost predicate Written(b: Block, bs: seq<Block>, d: int, out: seq<Token>) {
    && Lowered(bs + [b], START, out) && Leveled(bs + [b], 0, [], out)
    && Ends(bs + [b], 0, [], out) == d - Pending(b, Reach(START, out))
  }

  /** What is still to come has the levels of `bs` only. */
  ghost predicate Coming(bs: seq<Block>, d: int, s: Spot, rest: seq<Token>) {
    && Sane(s, rest) && Reach(s, rest).stack == [] && PipelineColumns.NoHoles(rest)
    && Lowered(bs, s, rest) && Leveled(bs, d, s.stack, rest)
  }

  ghost predicate Halfway(b: Block, bs: seq<Block>, d: int, out: seq<Token>, rest: seq<Token>) {
    b !in bs && Written(b, bs, d, out) && Coming(bs, d, Reach(START, out), rest)
  }

  /** All is at its level, and `d` is what is left at the end. */
  ghost predicate Finished(bs: seq<Block>, d: int, all: seq<Token>) {
    Lowered(bs, START, all) && Leveled(bs, 0, [], all) && Ends(bs, 0, [], all) == d
  }

  lemma KnownStart(out: seq<Token>)
    ensures Known(Reach(START, out)) && Reach(START, out).stack == Open([], out)
  {
    KnownReach(START, out);
    StackReached(START, out);
  }

  /** Views show spots. */
  lemma LookSees(b: Block, out: seq<Token>, rest: seq<Token>)
    requires rest != [] ==> !Is(rest[0], COMMENT) && !rest[0].NoToken?
    ensures Sees(b.Rules().Look(out, rest), Reach(START, out), if rest == [] then NoToken else rest[0])
  {
    RulesFit(b);
    var r := b.Rules();
    StackReached(START, out);
    LastReached(r, out);
    if rest != [] {
      assert r.Visible(rest)[0] == rest[0];
    }
  }

  lemma {:induction false} LastReached(r: RuleSet, out: seq<Token>)
    requires r.pass == COMMENT
    ensures Reach(START, out).last == if r.Recent(out) == [] then NoToken else r.Recent(out)[0]
    decreases |out|
  {
    if out != [] {
      var init, t := out[..|out| - 1], out[|out| - 1];
      assert out == init + [t];
      LastReached(r, init);
      ReachConcat(START, init, [t]);
      assert [t][1..] == [];
      RecentSnoc(r, init, t);
    }
  }

  lemma {:induction false} RewriteLevels(b: Block, bs: seq<Block>, d: int, out: seq<Token>, rest: seq<Token>)
    requires b.Rules().Valid() && Halfway(b, bs, d, out, rest)
    ensures Finished(bs + [b], Ends(bs, d, Open([], out), rest), b.Rules().Rewrite(out, rest))
    decreases |rest|
  {
    hide *;
    var r := b.Rules();
    if rest == [] {
      NothingLeft(b, bs, d, out, rest);
    } else {
      RulesFit(b);
      var (out1, rest1) := r.Skip(out, rest);
      SkipComments(b, bs, d, out, rest);
      RewriteAfterSkip(r, out, rest);
      if rest1 == [] {
        NothingClosed(b, bs, d, out1, rest1);
      } else {
        var e, out2 := OneMoved(b, bs, d, out1, rest1);
        RewriteLevels(b, bs, e, out2, rest1[1..]);
      }
    }
  }

  lemma NothingLeft(b: Block, bs: seq<Block>, d: int, out: seq<Token>, rest: seq<Token>)
    requires b.Rules().Valid() && Halfway(b, bs, d, out, rest) && rest == []
    ensures Finished(bs + [b], Ends(bs, d, Open([], out), rest), b.Rules().Rewrite(out, rest))
  {
    hide Block.Rules, Finished, Halfway, Ends, RuleSet.Closing;
    NothingClosed(b, bs, d, out, rest);
  }

  /** Without more tokens nothing is inserted. */
  lemma NothingClosed(b: Block, bs: seq<Block>, d: int, out: seq<Token>, rest: seq<Token>)
    requires b.Rules().Valid() && Halfway(b, bs, d, out, rest) && rest == []
    ensures out + b.Rules().Closing(out) == out
    ensures Finished(bs + [b], Ends(bs, d, Open([], out), rest), out)
  {
    hide Block.Rules, RuleSet.Look, RuleSet.Closing, Lowered, Leveled;
    var s := Reach(START, out);
    assert s.stack == [] && Ends(bs, d, Open([], out), rest) == d;
    NoClosing(b, out);
    assert out + [] == out;
  }

  lemma NoClosing(b: Block, out: seq<Token>)
    requires Reach(START, out).stack == []
    ensures b.Rules().Closing(out) == [] && Pending(b, Reach(START, out)) == 0
  {
    LookSees(b, out, []);
    hide Block.Rules, RuleSet.Look;
    RulesAct(b, b.Rules().Look(out, []), Reach(START, out), NoToken);
    assert Acts(b, Reach(START, out), NoToken) == Copy;
  }

  /** Comments before the next token. */
  lemma SkipComments(b: Block, bs: seq<Block>, d: int, out: seq<Token>, rest: seq<Token>)
    requires Halfway(b, bs, d, out, rest) && b.Rules().pass == COMMENT
    ensures
      var (out1, rest1) := b.Rules().Skip(out, rest);
      && Halfway(b, bs, d, out1, rest1) && |rest1| <= |rest| && (rest1 != [] ==> !Is(rest1[0], COMMENT))
      && Ends(bs, d, Open([], out1), rest1) == Ends(bs, d, Open([], out), rest)
  {
    hide Block.Rules, Written, Coming, Ends, Is, Open, Reach;
    var n := b.Rules().Leading(rest);
    var a, z := rest[..n], rest[n..];
    assert rest == a + z;
    CommentsWritten(b, bs, d, out, a);
    CommentsPassed(bs, d, Reach(START, out), a, z);
    KnownStart(out);
  }

  lemma CommentsWritten(b: Block, bs: seq<Block>, d: int, out: seq<Token>, a: seq<Token>)
    requires Written(b, bs, d, out) && forall i :: 0 <= i < |a| ==> Is(a[i], COMMENT)
    ensures Written(b, bs, d, out + a) && Reach(START, out + a) == Reach(START, out)
    ensures Open([], out + a) == Open([], out)
  {
    var more, s, e := bs + [b], Reach(START, out), Ends(bs + [b], 0, [], out);
    CommentsDoNotMatter(more, e, s, a);
    KnownStart(out);
    hide Lowered, Leveled, Ends, Open, Reach, Pending, Is;
    ReachConcat(START, out, a);
    OpenConcat([], out, a);
    LoweredConcat(more, START, out, a);
    LeveledConcat(more, 0, [], out, a);
    EndsConcat(more, 0, [], out, a);
  }

  lemma CommentsPassed(bs: seq<Block>, d: int, s: Spot, a: seq<Token>, z: seq<Token>)
    requires Coming(bs, d, s, a + z) && forall i :: 0 <= i < |a| ==> Is(a[i], COMMENT)
    ensures Coming(bs, d, s, z) && Ends(bs, d, s.stack, z) == Ends(bs, d, s.stack, a + z)
  {
    hide Sane, Lowered, Leveled, Ends, Open, Reach, Is;
    CommentsDoNotMatter(bs, d, s, a);
    ReachConcat(s, a, z);
    SaneConcat(s, a, z);
    LoweredConcat(bs, s, a, z);
    LeveledConcat(bs, d, s.stack, a, z);
    EndsConcat(bs, d, s.stack, a, z);
    forall i | 0 <= i < |z| ensures z[i] == (a + z)[|a| + i] {}
  }

  /** One token that is no comment is written, with the levels before it. */
  lemma OneMoved(b: Block, bs: seq<Block>, d: int, out: seq<Token>, rest: seq<Token>)
    returns (e: int, next: seq<Token>)
    requires b.Rules().Valid() && Halfway(b, bs, d, out, rest)
    requires rest != [] && !Is(rest[0], COMMENT)
    ensures b.Rules().Rewrite(out, rest) == b.Rules().Rewrite(next, rest[1..])
    ensures Halfway(b, bs, e, next, rest[1..])
    ensures Ends(bs, e, Open([], next), rest[1..]) == Ends(bs, d, Open([], out), rest)
  {
    var s, t := Reach(START, out), rest[0];
    next := out + (Levels(b, s, t) + [t]);
    e := Passed(bs, d, s.stack, t);
    KnownStart(out);
    KnownStart(next);
    hide Written, Coming, Ends, Open, Reach, Is, Levels, Passed, Block.Rules, RuleSet.Rewrite, RuleSet.Valid, Move;
    OneComing(bs, d, s, rest);
    StepIs(b, s, out, rest);
    OneWritten(b, bs, d, out, t);
    StackMoved(s, t);
  }

  lemma StackMoved(s: Spot, t: Token)
    ensures Move(s, t).stack == OpenOne(s.stack, t)
  {}

  /** The next token is passed. */
  lemma OneComing(bs: seq<Block>, d: int, s: Spot, rest: seq<Token>)
    requires Coming(bs, d, s, rest) && rest != []
    ensures !rest[0].NoToken? && Fitting(bs, d, s, rest[0])
    ensures
      var z, e := Move(s, rest[0]), Passed(bs, d, s.stack, rest[0]);
      Coming(bs, e, z, rest[1..]) && Ends(bs, e, z.stack, rest[1..]) == Ends(bs, d, s.stack, rest)
  {
    EndsCons(bs, d, s.stack, rest);
    hide ClosesOne, Block.Closes, OpenOne, Stands, Passed, Ends;
  }

  lemma OneWritten(b: Block, bs: seq<Block>, d: int, out: seq<Token>, t: Token)
    requires
      var s := Reach(START, out);
      b !in bs && Written(b, bs, d, out) && !Is(t, COMMENT) && Known(s) && Fitting(bs, d, s, t)
    ensures
      var s := Reach(START, out);
      var next := out + (Levels(b, s, t) + [t]);
      Written(b, bs, Passed(bs, d, s.stack, t), next) && Reach(START, next) == Move(s, t)
  {
    var s, more := Reach(START, out), bs + [b];
    var ts := Levels(b, s, t) + [t];
    KnownStart(out);
    hide Lowered, Leveled, Ends, Open, Reach, Is, Levels, Passed, Move, Known, Fitting, Pending;
    MoveLevels(b, s, t);
    ReachConcat(START, out, ts);
    LoweredAgain(b, bs, d, s, t);
    LoweredConcat(more, START, out, ts);
    LeveledAgain(b, bs, d, s, t);
    LeveledConcat(more, 0, [], out, ts);
    EndsConcat(more, 0, [], out, ts);
  }

  lemma StepIs(b: Block, s: Spot, out: seq<Token>, rest: seq<Token>)
    requires b.Rules().Valid() && rest != [] && !Is(rest[0], COMMENT) && !rest[0].NoToken? && s == Reach(START, out)
    requires IsOpener(s.last) ==> !rest[0].End?
    ensures b.Rules().Rewrite(out, rest) == b.Rules().Rewrite(out + (Levels(b, s, rest[0]) + [rest[0]]), rest[1..])
  {
    var r, t := b.Rules(), rest[0];
    LookSees(b, out, rest);
    RulesFit(b);
    hide Block.Rules, Sees, IsOpener, Levels, Reach, Fit, RuleSet.Rewrite, RuleSet.Settles, RuleSet.Drops,
      RuleSet.Inserted, RuleSet.Look, RuleSet.Valid;
    LevelsSettle(b, r.Look(out, rest), s, t);
    RewriteVisible(r, out, rest);
    Assoc(out, Levels(b, s, t), [t]);
  }

  /** A rule set gives the level of its blocks to all that is in them. */
  lemma RunLevels(b: Block, bs: seq<Block>, ts: seq<Token>)
    requires b.Rules().Valid() && b !in bs && Sane(START, ts) && Open([], ts) == [] && PipelineColumns.NoHoles(ts)
    requires Finished(bs, 0, ts)
    ensures Finished(bs + [b], 0, b.Rules().Run(ts))
  {
    StackReached(START, ts);
    assert Coming(bs, 0, START, ts) && Ends(bs, 0, [], ts) == 0;
    NothingWritten(b, bs);
    hide Block.Rules, RuleSet.Rewrite, Coming, Written, Finished, Sane;
    assert Reach(START, []) == START && Open([], []) == [];
    assert Halfway(b, bs, 0, [], ts);
    RewriteLevels(b, bs, 0, [], ts);
  }

  lemma NothingWritten(b: Block, bs: seq<Block>)
    ensures Written(b, bs, 0, [])
  {
    assert Reach(START, []) == START && Pending(b, START) == 0;
  }
}
