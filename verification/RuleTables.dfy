/**
 What each rule set changes, as a table over the tokens around a place: which
 layout goes before the next token, and whether that token stays. A stream that
 is rewritten by the rules is one that is edited by the table, place by place.
 The tables name tokens and grammar rules directly and share nothing with the
 conditions of the rules.
 */
module RuleTables {
  import opened Seqs
  import opened Tokens
  import opened Processors
  import opened RuleSets

  // ----- Editing by a table

  /**
   A place in a stream: the tokens written so far and the tokens to come, hidden
   ones left out, and the grammar rules around it. An End that comes next has
   closed its rule already.
   */
  datatype Place = Place(before: seq<Token>, after: seq<Token>, inside: seq<Kind>) {
    /** The k-th token before the place. */
    function Back(k: nat): Token {
      if 1 <= k <= |before| then before[|before| - k] else NoToken
    }

    /** The k-th token behind the place. */
    function Ahead(k: nat): Token {
      if 1 <= k <= |after| then after[k - 1] else NoToken
    }

    /** The innermost grammar rule. */
    predicate In(k: Kind) { inside != [] && inside[|inside| - 1] == k }
  }

  /** The layout before the next token, and whether that token stays. */
  datatype Edit = Edit(layout: seq<Token>, stays: bool)

  type Table = Place -> Edit

  function Seen(pass: Category, ts: seq<Token>): seq<Token> {
    if ts == [] then [] else (if CategoryOf(ts[0]) in pass then [] else [ts[0]]) + Seen(pass, ts[1..])
  }

  function Around(out: seq<Token>, after: seq<Token>): seq<Kind> {
    var open := Open([], out);
    if after != [] && after[0].End? && open != [] then open[..|open| - 1] else open
  }

  function PlaceOf(pass: Category, out: seq<Token>, rest: seq<Token>): Place {
    Place(Seen(pass, out), Seen(pass, rest), Around(out, Seen(pass, rest)))
  }

  function Written(out: seq<Token>, e: Edit, t: Token): seq<Token> {
    out + e.layout + if e.stays then [t] else []
  }

  /** Hidden tokens go through. At the end layout can be added only behind some of them. */
  function Edited(pass: Category, table: Table, out: seq<Token>, rest: seq<Token>): seq<Token>
    decreases |rest|
  {
    if rest == [] then out
    else if Seen(pass, rest) == [] then out + rest + table(PlaceOf(pass, out + rest, [])).layout
    else if CategoryOf(rest[0]) in pass then Edited(pass, table, out + [rest[0]], rest[1..])
    else Edited(pass, table, Written(out, table(PlaceOf(pass, out, rest)), rest[0]), rest[1..])
  }

  // ----- Rules and tables

  /** The view shows what is at the place. */
  ghost predicate Shows(v: View, p: Place) {
    && (forall k :: 1 <= k <= 3 ==> v.Tok(-k) == p.Back(k) && v.Tok(k) == p.Ahead(k))
    && (v.next == [] <==> p.after == [])
    && p.inside == if v.next != [] && v.next[0].End? && v.stack != [] then v.stack[..|v.stack| - 1] else v.stack
  }

  ghost predicate Explains(s: RuleSet, e: Edit, v: View) {
    if v.next == [] then e.layout == match s.Match(v) case Insert(ts) => ts case _ => []
    else s.Settles(v, MAX_INSERTIONS) && s.Inserted(v, MAX_INSERTIONS) == e.layout
         && (s.Drops(v, MAX_INSERTIONS) <==> !e.stays)
  }

  ghost predicate Describes(table: Table, s: RuleSet) {
    forall v, p :: Shows(v, p) ==> Explains(s, table(p), v)
  }

  lemma {:induction false} SeenIsVisible(s: RuleSet, ts: seq<Token>)
    ensures Seen(s.pass, ts) == s.Visible(ts)
  {
    if ts != [] {
      SeenIsVisible(s, ts[1..]);
      assert [] + s.Visible(ts[1..]) == s.Visible(ts[1..]);
    }
  }

  lemma {:induction false} SeenSnoc(pass: Category, ts: seq<Token>, t: Token)
    ensures Seen(pass, ts + [t]) == Seen(pass, ts) + if CategoryOf(t) in pass then [] else [t]
    decreases |ts|
  {
    if ts == [] {
      assert ts + [t] == [t] && [t][1..] == [];
    } else {
      assert (ts + [t])[0] == ts[0] && (ts + [t])[1..] == ts[1..] + [t];
      SeenSnoc(pass, ts[1..], t);
    }
  }

  /** The last three tokens, or all if there are fewer, the last one first. */
  predicate LastOf(seen: seq<Token>, recent: seq<Token>) {
    && |recent| == (if |seen| < 3 then |seen| else 3)
    && forall k :: 0 <= k < |recent| ==> recent[k] == seen[|seen| - 1 - k]
  }

  lemma Remembered(s: RuleSet, seen: seq<Token>, recent: seq<Token>, t: Token)
    requires LastOf(seen, recent)
    ensures LastOf(seen + [t], s.Remember(recent, t))
  {}

  /** The window holds the last three tokens that were seen. */
  lemma {:induction false} RecentIsLast(s: RuleSet, out: seq<Token>)
    ensures LastOf(Seen(s.pass, out), s.Recent(out))
    decreases |out|
  {
    hide LastOf, RuleSet.Recent, RuleSet.Remember, Seen;
    if out == [] {
      NothingRecent(s);
    } else {
      var init, t := out[..|out| - 1], out[|out| - 1];
      assert out == init + [t];
      RecentIsLast(s, init);
      SeenSnoc(s.pass, init, t);
      RecentSnoc(s, init, t);
      Remembered(s, Seen(s.pass, init), s.Recent(init), t);
      assert Seen(s.pass, init) + [] == Seen(s.pass, init);
    }
  }

  lemma NothingRecent(s: RuleSet)
    ensures LastOf(Seen(s.pass, []), s.Recent([]))
  {}

  lemma LookShows(s: RuleSet, out: seq<Token>, rest: seq<Token>)
    ensures Shows(s.Look(out, rest), PlaceOf(s.pass, out, rest))
  {
    RecentIsLast(s, out);
    SeenIsVisible(s, rest);
  }

  lemma {:induction false} NothingSeen(s: RuleSet, rest: seq<Token>)
    ensures Seen(s.pass, rest) == [] <==> s.Leading(rest) == |rest|
  {
    if rest != [] {
      NothingSeen(s, rest[1..]);
    }
  }

  /** Rewriting by the rules is editing by the table. */
  lemma {:induction false} RewriteIsEdited(s: RuleSet, table: Table, out: seq<Token>, rest: seq<Token>)
    requires s.Valid() && Describes(table, s)
    ensures s.Rewrite(out, rest) == Edited(s.pass, table, out, rest)
    decreases |rest|
  {
    if rest != [] {
      NothingSeen(s, rest);
      hide RuleSet.Look, RuleSet.Valid, Describes, PlaceOf, RuleSet.Closing, RuleSet.Rewrite, Seen;
      if Seen(s.pass, rest) == [] {
        EndIsEdited(s, table, out, rest);
      } else if CategoryOf(rest[0]) in s.pass {
        HiddenGoesThrough(s, out, rest);
        RewriteIsEdited(s, table, out + [rest[0]], rest[1..]);
      } else {
        OneIsEdited(s, table, out, rest);
        RewriteIsEdited(s, table, Written(out, table(PlaceOf(s.pass, out, rest)), rest[0]), rest[1..]);
      }
    }
  }

  lemma EndIsEdited(s: RuleSet, table: Table, out: seq<Token>, rest: seq<Token>)
    requires s.Valid() && Describes(table, s) && rest != [] && s.Leading(rest) == |rest|
    ensures s.Rewrite(out, rest) == out + rest + table(PlaceOf(s.pass, out + rest, [])).layout
  {
    LookShows(s, out + rest, []);
    assert Explains(s, table(PlaceOf(s.pass, out + rest, [])), s.Look(out + rest, []));
    hide RuleSet.Look, RuleSet.Valid, Describes, PlaceOf;
    assert rest[..|rest|] == rest && rest[|rest|..] == [];
    RewriteAfterSkip(s, out, rest);
  }

  lemma HiddenGoesThrough(s: RuleSet, out: seq<Token>, rest: seq<Token>)
    requires s.Valid() && rest != [] && s.Hidden(rest[0]) && s.Leading(rest) < |rest|
    ensures s.Rewrite(out, rest) == s.Rewrite(out + [rest[0]], rest[1..])
  {
    hide RuleSet.Look, RuleSet.Valid, RuleSet.Consume, RuleSet.Settles;
    var n, t, tail := s.Leading(rest), rest[0], rest[1..];
    assert out + rest[..n] == out + [t] + tail[..n - 1] by { assert rest[..n] == [t] + tail[..n - 1]; }
    assert rest[n..] == tail[n - 1..];
    RewriteAfterSkip(s, out, rest);
    RewriteAfterSkip(s, out + [t], tail);
  }

  lemma OneIsEdited(s: RuleSet, table: Table, out: seq<Token>, rest: seq<Token>)
    requires s.Valid() && Describes(table, s) && rest != [] && !s.Hidden(rest[0])
    ensures
      s.Rewrite(out, rest) == s.Rewrite(Written(out, table(PlaceOf(s.pass, out, rest)), rest[0]), rest[1..])
  {
    LookShows(s, out, rest);
    assert s.Visible(rest) != [];
    var v, p := s.Look(out, rest), PlaceOf(s.pass, out, rest);
    assert Explains(s, table(p), v) && v.next != [];
    hide RuleSet.Look, RuleSet.Valid, Describes, PlaceOf;
    RewriteVisible(s, out, rest);
  }

  lemma RunIsEdited(s: RuleSet, table: Table, ts: seq<Token>)
    requires s.Valid() && Describes(table, s)
    ensures s.Run(ts) == Edited(s.pass, table, [], ts)
  {
    hide Describes;
    RewriteIsEdited(s, table, [], ts);
  }

  // ----- Tables from conditions

  const NOTHING := Edit([], true)
  const DROPPED := Edit([], false)
  const LINE := Edit([Newline], true)
  const EMPTY_LINE := Edit([Newline, Newline], true)

  predicate IsText(t: Token) {
    t.Identifier? || t.Keyword? || t.Punctuation? || t.Literal? || t.LGrouping? || t.RGrouping?
  }

  predicate IsComment(t: Token) {
    t.Comment? || t.BlockComment? || t.HeadComment? || t.TailComment? || t.InlineComment?
  }

  predicate IsBlockHeader(t: Token) { t in {Keyword("meta"), Keyword("strings"), Keyword("condition")} }

  lemma Categories(t: Token)
    ensures Is(t, TEXT) <==> IsText(t)
    ensures Is(t, COMMENT) <==> IsComment(t)
    ensures Is(t, NEWLINE) <==> t == Newline
    ensures Is(t, NONE) <==> t == NoToken
    ensures Is(t, {CWhitespace}) <==> t == Whitespace || t == Tab
    ensures IsHeader(t) <==> IsBlockHeader(t)
  {}

  /** Nothing is inserted. */
  lemma NoInsertion(s: RuleSet, v: View)
    requires !s.Match(v).Insert?
    ensures Explains(s, Edit([], !s.Match(v).Drop?), v)
  {
    hide RuleSet.Match;
  }

  /** One insertion, and then the token is copied. */
  lemma OneInsertion(s: RuleSet, v: View, ts: seq<Token>)
    requires s.Match(v) == Insert(ts) && s.Match(s.After(v, ts)) == Copy
    ensures Explains(s, Edit(ts, true), v)
  {
    hide RuleSet.Match, RuleSet.After;
    var w := s.After(v, ts);
    assert s.Settles(w, 1) && s.Inserted(w, 1) == [] && !s.Drops(w, 1);
    assert ts + [] == ts;
  }

  /** Two insertions, and then the token is copied. */
  lemma TwoInsertions(s: RuleSet, v: View, ts: seq<Token>, us: seq<Token>)
    requires v.next != [] && s.Match(v) == Insert(ts) && s.Match(s.After(v, ts)) == Insert(us)
    requires s.Match(s.After(s.After(v, ts), us)) == Copy
    ensures Explains(s, Edit(ts + us, true), v)
  {
    hide RuleSet.Match, RuleSet.After;
    var w := s.After(v, ts);
    var x := s.After(w, us);
    assert s.Settles(x, 0) && s.Inserted(x, 0) == [] && !s.Drops(x, 0);
    assert s.Settles(w, 1) && s.Inserted(w, 1) == us + [] && !s.Drops(w, 1);
    assert us + [] == us;
  }

  // ----- Statements and layout of the source

  /** Imports, includes and rules get a newline, unless they are first or have one. */
  function StatementTable(p: Place): Edit {
    if p.Ahead(1) in {Begin(ImportStmt), Begin(IncludeStmt), Begin(RuleDecl)}
       && p.Back(1) != Begin(SourceFile) && p.Back(1) != Newline
    then LINE else NOTHING
  }

  /** Blanks go. */
  function BlankTable(p: Place): Edit {
    if p.Ahead(1) == Whitespace || p.Ahead(1) == Tab then DROPPED else NOTHING
  }

  /** Newlines go at the start of the file, among and after tags and modifiers, and where there are too many. */
  function NewlineTable(p: Place): Edit {
    var wanted := p.Back(1) != NoToken
                  && !(p.Ahead(2) == p.Ahead(3) == Newline)
                  && !(p.Back(1) == Newline && p.Ahead(2) == NoToken)
                  && ((p.In(RuleMods) || p.In(RuleTags)) ==> IsComment(p.Back(1)))
                  && p.Back(1) != End(RuleMods) && p.Back(1) != End(RuleTags);
    if p.Ahead(1) == Newline && !wanted then DROPPED else NOTHING
  }

  function BraceOnOwnLineTable(p: Place): Edit {
    if p.In(RuleDecl) && p.Ahead(1) == Punctuation("{") && p.Back(1) != Newline then LINE else NOTHING
  }

  function BraceOnSameLineTable(p: Place): Edit {
    if p.In(RuleDecl) && p.Ahead(1) == Newline
       && (p.Ahead(2) == Punctuation("{") || (p.Ahead(2) == Newline && p.Ahead(3) == Punctuation("{")))
    then DROPPED else NOTHING
  }

  // ----- Empty lines

  /** A rule on a new line gets an empty line, unless there is one or a comment before. */
  function RuleTable(p: Place): Edit {
    if p.Ahead(1) == Begin(RuleDecl) && p.Back(1) == Newline && p.Back(2) != Newline && !IsComment(p.Back(2))
    then LINE else NOTHING
  }

  function HeaderApartTable(p: Place): Edit {
    if !IsBlockHeader(p.Ahead(1)) then NOTHING
    else if p.Back(1) != Newline then EMPTY_LINE
    else if p.Back(2) != Newline then LINE
    else NOTHING
  }

  function HeaderTable(p: Place): Edit {
    if IsBlockHeader(p.Ahead(1)) && p.Back(1) != Newline then LINE
    else if p.Ahead(1) == Newline && IsBlockHeader(p.Ahead(2)) && p.Back(1) == Newline then DROPPED
    else NOTHING
  }

  function FirstHeaderTable(p: Place): Edit {
    if p.Back(2) == Punctuation("{") && p.Back(1) == Newline && p.Ahead(1) == Newline && IsBlockHeader(p.Ahead(2))
    then DROPPED else NOTHING
  }

  function EmptyLineAfterHeaderTable(p: Place): Edit {
    if !(IsBlockHeader(p.Back(2)) && p.Back(1) == Punctuation(":")) then NOTHING
    else if p.Ahead(1) != Newline then EMPTY_LINE
    else if p.Ahead(2) != Newline then LINE
    else NOTHING
  }

  function NewlineAfterHeaderTable(p: Place): Edit {
    if !(IsBlockHeader(p.Back(2)) && p.Back(1) == Punctuation(":")) then NOTHING
    else if p.Ahead(1) != Newline then LINE
    else if p.Ahead(2) == Newline then DROPPED
    else NOTHING
  }

  /** Items, the closing brace of a rule and the end of the file. */
  function ItemTable(p: Place): Edit {
    var item := (p.In(MetaDef) || p.In(PatternDef) || p.In(WithDecl)) && p.Ahead(1).Identifier?;
    if (item || (p.In(RuleDecl) && p.Ahead(1) == Punctuation("}")) || p.Ahead(1) == NoToken) && p.Back(1) != Newline
    then LINE else NOTHING
  }

  /** Newlines behind comments that end a line. */
  function CommentTable(p: Place): Edit {
    if (p.Back(1).HeadComment? || p.Back(1).TailComment? || p.Back(1).BlockComment?) && p.Ahead(1) != Newline
    then LINE else NOTHING
  }

  // ----- Spaces

  /** No space between text tokens. */
  predicate Tight(p: Place, a: Token, b: Token) {
    || b in {Punctuation(":"), Punctuation(","), Punctuation(".")} || a == Punctuation(".") || a == Punctuation("-")
    || a.LGrouping? || b.RGrouping?
    || (a.Identifier? && (b.LGrouping? || b == Punctuation("*")))
    || (p.In(PatternMod) && (b.LGrouping? || b == Punctuation("-")))
    || (p.In(HexJump) && b == Punctuation("-"))
  }

  function SpaceTable(p: Place): Edit {
    var a, b := p.Back(1), p.Ahead(1);
    if a.InlineComment? then Edit([Whitespace], true)
    else if IsText(a) && IsComment(b) then Edit([Whitespace, Whitespace], true)
    else if IsText(a) && IsText(b) && !Tight(p, a, b) then Edit([Whitespace], true)
    else NOTHING
  }

  lemma StatementLinesExplained(v: View, p: Place)
    requires Shows(v, p)
    ensures Explains(StatementLines(), StatementTable(p), v)
  {
    var s, e := StatementLines(), StatementTable(p);
    Categories(v.Tok(-1));
    hide Is, IsComment, IsText, IsBlockHeader, IsHeader, Explains;
    if e.layout == [] { NoInsertion(s, v); } else { OneInsertion(s, v, e.layout); }
  }

  lemma NoWhitespaceExplained(v: View, p: Place)
    requires Shows(v, p)
    ensures Explains(NoWhitespace(), BlankTable(p), v)
  {
    var s, e := NoWhitespace(), BlankTable(p);
    Categories(v.Tok(1));
    hide Is, IsComment, IsText, IsBlockHeader, IsHeader, Explains;
    NoInsertion(s, v);
  }

  lemma BraceOnOwnLineExplained(v: View, p: Place)
    requires Shows(v, p)
    ensures Explains(BraceOnOwnLine(), BraceOnOwnLineTable(p), v)
  {
    var s, e := BraceOnOwnLine(), BraceOnOwnLineTable(p);
    Categories(v.Tok(-1));
    hide Is, IsComment, IsText, IsBlockHeader, IsHeader, Explains;
    if e.layout == [] { NoInsertion(s, v); } else { OneInsertion(s, v, e.layout); }
  }

  lemma BraceOnSameLineExplained(v: View, p: Place)
    requires Shows(v, p)
    ensures Explains(BraceOnSameLine(), BraceOnSameLineTable(p), v)
  {
    var s, e := BraceOnSameLine(), BraceOnSameLineTable(p);
    Categories(v.Tok(1));
    Categories(v.Tok(2));
    hide Is, IsComment, IsText, IsBlockHeader, IsHeader, Explains;
    NoInsertion(s, v);
  }

  lemma EmptyLineBeforeRuleExplained(v: View, p: Place)
    requires Shows(v, p)
    ensures Explains(EmptyLineBeforeRule(), RuleTable(p), v)
  {
    var s, e := EmptyLineBeforeRule(), RuleTable(p);
    Categories(v.Tok(-1));
    Categories(v.Tok(-2));
    hide Is, IsComment, IsText, IsBlockHeader, IsHeader, Explains;
    if e.layout == [] { NoInsertion(s, v); } else { OneInsertion(s, v, e.layout); }
  }

  lemma EmptyLineBeforeHeaderExplained(v: View, p: Place)
    requires Shows(v, p)
    ensures Explains(EmptyLineBeforeHeader(), HeaderApartTable(p), v)
  {
    var s, e := EmptyLineBeforeHeader(), HeaderApartTable(p);
    Categories(v.Tok(-1));
    Categories(v.Tok(-2));
    Categories(v.Tok(1));
    hide Is, IsComment, IsText, IsBlockHeader, IsHeader, Explains;
    if e.layout == [] { NoInsertion(s, v); } else { OneInsertion(s, v, e.layout); }
  }

  lemma NewlineBeforeHeaderExplained(v: View, p: Place)
    requires Shows(v, p)
    ensures Explains(NewlineBeforeHeader(), HeaderTable(p), v)
  {
    var s, e := NewlineBeforeHeader(), HeaderTable(p);
    Categories(v.Tok(-1));
    Categories(v.Tok(1));
    Categories(v.Tok(2));
    hide Is, IsComment, IsText, IsBlockHeader, IsHeader, Explains;
    if e.layout == [] { NoInsertion(s, v); } else { OneInsertion(s, v, e.layout); }
  }

  lemma NoEmptyLineBeforeFirstHeaderExplained(v: View, p: Place)
    requires Shows(v, p)
    ensures Explains(NoEmptyLineBeforeFirstHeader(), FirstHeaderTable(p), v)
  {
    var s, e := NoEmptyLineBeforeFirstHeader(), FirstHeaderTable(p);
    Categories(v.Tok(-1));
    Categories(v.Tok(1));
    Categories(v.Tok(2));
    hide Is, IsComment, IsText, IsBlockHeader, IsHeader, Explains;
    NoInsertion(s, v);
  }

  lemma EmptyLineAfterHeaderExplained(v: View, p: Place)
    requires Shows(v, p)
    ensures Explains(EmptyLineAfterHeader(), EmptyLineAfterHeaderTable(p), v)
  {
    var s, e := EmptyLineAfterHeader(), EmptyLineAfterHeaderTable(p);
    Categories(v.Tok(-2));
    Categories(v.Tok(1));
    Categories(v.Tok(2));
    hide Is, IsComment, IsText, IsBlockHeader, IsHeader, Explains;
    if e.layout == [] { NoInsertion(s, v); } else { OneInsertion(s, v, e.layout); }
  }

  lemma NewlineAfterHeaderExplained(v: View, p: Place)
    requires Shows(v, p)
    ensures Explains(NewlineAfterHeader(), NewlineAfterHeaderTable(p), v)
  {
    var s, e := NewlineAfterHeader(), NewlineAfterHeaderTable(p);
    Categories(v.Tok(-2));
    Categories(v.Tok(1));
    Categories(v.Tok(2));
    hide Is, IsComment, IsText, IsBlockHeader, IsHeader, Explains;
    if e.layout == [] { NoInsertion(s, v); } else { OneInsertion(s, v, e.layout); }
  }

  lemma NewlineAfterCommentsExplained(v: View, p: Place)
    requires Shows(v, p)
    ensures Explains(NewlineAfterComments(), CommentTable(p), v)
  {
    var s, e := NewlineAfterComments(), CommentTable(p);
    Categories(v.Tok(1));
    hide Is, IsComment, IsText, IsBlockHeader, IsHeader, Explains;
    if e.layout == [] { NoInsertion(s, v); } else { OneInsertion(s, v, e.layout); }
  }

  lemma FewerNewlinesMatch(v: View)
    ensures
      var r := FewerNewlines().rules;
      FewerNewlines().Match(v) ==
      if r[0].cond(v) || r[1].cond(v) || r[2].cond(v) || r[3].cond(v) || r[4].cond(v) || r[5].cond(v)
      then Drop else Copy
  {
    hide AtNewline, AfterNewline, BetweenTagsOrModifiers, Is;
    var s := FewerNewlines();
    assert s.MatchFrom(5, v) == if s.rules[5].cond(v) then Drop else Copy;
    assert s.MatchFrom(4, v) == if s.rules[4].cond(v) then Drop else s.MatchFrom(5, v);
    assert s.MatchFrom(3, v) == if s.rules[3].cond(v) then Drop else s.MatchFrom(4, v);
    assert s.MatchFrom(2, v) == if s.rules[2].cond(v) then Drop else s.MatchFrom(3, v);
    assert s.MatchFrom(1, v) == if s.rules[1].cond(v) then Drop else s.MatchFrom(2, v);
  }

  lemma FewerNewlinesExplained(v: View, p: Place)
    requires Shows(v, p)
    ensures Explains(FewerNewlines(), NewlineTable(p), v)
  {
    hide RuleSet.Match, Is, IsComment, Explains;
    FewerNewlinesMatch(v);
    Categories(v.Tok(-1));
    Categories(v.Tok(1));
    Categories(v.Tok(2));
    Categories(v.Tok(3));
    Inside(v, p, RuleMods);
    Inside(v, p, RuleTags);
    NoInsertion(FewerNewlines(), v);
  }

  lemma Inside(v: View, p: Place, k: Kind)
    requires Shows(v, p)
    ensures v.InRule(k, false) <==> p.In(k)
  {}

  lemma RequiredNewlinesMatch(v: View)
    ensures
      var r := RequiredNewlines().rules;
      RequiredNewlines().Match(v) ==
      if r[0].cond(v) || r[1].cond(v) || r[2].cond(v) || r[3].cond(v) || r[4].cond(v) then Insert([Newline]) else Copy
  {
    hide AfterNewline, IdentifierIn, Is;
    var s := RequiredNewlines();
    assert s.MatchFrom(4, v) == if s.rules[4].cond(v) then Insert([Newline]) else Copy;
    assert s.MatchFrom(3, v) == if s.rules[3].cond(v) then Insert([Newline]) else s.MatchFrom(4, v);
    assert s.MatchFrom(2, v) == if s.rules[2].cond(v) then Insert([Newline]) else s.MatchFrom(3, v);
    assert s.MatchFrom(1, v) == if s.rules[1].cond(v) then Insert([Newline]) else s.MatchFrom(2, v);
  }

  lemma ItemNeedsLine(v: View, p: Place)
    requires Shows(v, p)
    ensures RequiredNewlines().Match(v) == if ItemTable(p) == LINE then Insert([Newline]) else Copy
  {
    RequiredNewlinesMatch(v);
    Inside(v, p, MetaDef);
    Inside(v, p, PatternDef);
    Inside(v, p, WithDecl);
    Inside(v, p, RuleDecl);
    var a, b := p.Back(1), p.Ahead(1);
    assert v.Tok(-1) == a && v.Tok(1) == b;
    hide RuleSet.Match, View.InRule, Shows, Place.In, Place.Back, Place.Ahead, IsComment, IsText, IsHeader, Is;
    Categories(a);
    Categories(b);
    Spaceable(b, b);
  }

  lemma RequiredNewlinesExplained(v: View, p: Place)
    requires Shows(v, p)
    ensures Explains(RequiredNewlines(), ItemTable(p), v)
  {
    hide RuleSet.Match, Explains, RequiredNewlines;
    ItemNeedsLine(v, p);
    var s := RequiredNewlines();
    if ItemTable(p) == LINE {
      NoItemAfterNewline(s.After(v, [Newline])) by { AfterOne(s, v, Newline); }
      OneInsertion(s, v, [Newline]);
    } else {
      NoInsertion(s, v);
    }
  }

  lemma NoItemAfterNewline(v: View)
    requires v.Tok(-1) == Newline
    ensures RequiredNewlines().Match(v) == Copy
  {
    RequiredNewlinesMatch(v);
    hide RuleSet.Match, View.InRule;
  }

  lemma SpacingMatch(v: View)
    ensures
      var r := Spacing().rules;
      Spacing().Match(v) ==
      if r[0].cond(v) then Insert([Whitespace]) else if r[1].cond(v) then Insert([Whitespace])
      else if r[2].cond(v) then Insert([Whitespace, Whitespace]) else Copy
  {
    hide NeedsSpace, Is;
    var s := Spacing();
    assert s.MatchFrom(2, v) == if s.rules[2].cond(v) then s.rules[2].action else Copy;
    assert s.MatchFrom(1, v) == if s.rules[1].cond(v) then s.rules[1].action else s.MatchFrom(2, v);
  }

  lemma Spaceable(a: Token, b: Token)
    ensures Is(a, TEXT - {CLGrouping}) && Is(b, TEXT - {CRGrouping}) <==>
            IsText(a) && IsText(b) && !a.LGrouping? && !b.RGrouping?
    ensures Is(a, {CIdentifier}) <==> a.Identifier?
    ensures Is(b, {CLGrouping}) <==> b.LGrouping?
  {}

  lemma SpaceIsNeeded(v: View, p: Place)
    requires Shows(v, p)
    ensures
      var a, b := p.Back(1), p.Ahead(1);
      NeedsSpace(v) <==> IsText(a) && IsText(b) && !Tight(p, a, b)
  {
    Inside(v, p, PatternMod);
    Inside(v, p, HexJump);
    var a, b := p.Back(1), p.Ahead(1);
    assert v.Tok(-1) == a && v.Tok(1) == b;
    hide View.InRule, Shows, Place.In, Place.Back, Place.Ahead, IsText, Is;
    Spaceable(a, b);
  }

  lemma SpacingExplained(v: View, p: Place)
    requires Shows(v, p)
    ensures Explains(Spacing(), SpaceTable(p), v)
  {
    SpacingMatch(v);
    SpaceIsNeeded(v, p);
    Categories(v.Tok(-1));
    Categories(v.Tok(1));
    hide RuleSet.Match, Explains, NeedsSpace, Tight, Is;
    var s, e := Spacing(), SpaceTable(p);
    if e.layout == [] {
      NoInsertion(s, v);
    } else {
      SpaceIsLast(s, v, e.layout);
      OneInsertion(s, v, e.layout);
    }
  }

  lemma SpaceIsLast(s: RuleSet, v: View, ts: seq<Token>)
    requires s == Spacing() && (ts == [Whitespace] || ts == [Whitespace, Whitespace])
    ensures s.Match(s.After(v, ts)) == Copy
  {
    if |ts| == 1 { AfterOne(s, v, Whitespace); } else { AfterTwo(s, v, Whitespace, Whitespace); }
    SpacingMatch(s.After(v, ts));
    hide RuleSet.Match, RuleSet.After;
  }

  // ----- What the rule sets do to whole streams

  lemma StatementLinesExactly(ts: seq<Token>)
    ensures StatementLines().Valid() && StatementLines().Run(ts) == Edited(NONE, StatementTable, [], ts)
  {
    StatementLinesFit();
    hide Fit, Explains, StatementLines, StatementTable;
    forall v, p | Shows(v, p) ensures Explains(StatementLines(), StatementTable(p), v) {
      StatementLinesExplained(v, p);
    }
    assert StatementLines().Valid() && StatementLines().pass == NONE by { StatementLinesPasses(); }
    RunIsEdited(StatementLines(), StatementTable, ts);
  }

  lemma StatementLinesPasses()
    ensures StatementLines().Valid() && StatementLines().pass == NONE
  {
    StatementLinesFit();
  }

  lemma NoWhitespaceExactly(ts: seq<Token>)
    ensures NoWhitespace().Valid() && NoWhitespace().Run(ts) == Edited(NONE, BlankTable, [], ts)
  {
    NoWhitespaceFit();
    hide Fit, Explains, NoWhitespace, BlankTable;
    forall v, p | Shows(v, p) ensures Explains(NoWhitespace(), BlankTable(p), v) {
      NoWhitespaceExplained(v, p);
    }
    assert NoWhitespace().Valid() && NoWhitespace().pass == NONE by { NoWhitespacePasses(); }
    RunIsEdited(NoWhitespace(), BlankTable, ts);
  }

  lemma NoWhitespacePasses()
    ensures NoWhitespace().Valid() && NoWhitespace().pass == NONE
  {
    NoWhitespaceFit();
  }

  lemma FewerNewlinesExactly(ts: seq<Token>)
    ensures FewerNewlines().Valid() && FewerNewlines().Run(ts) == Edited(NONE, NewlineTable, [], ts)
  {
    FewerNewlinesFit();
    hide Fit, Explains, FewerNewlines, NewlineTable;
    forall v, p | Shows(v, p) ensures Explains(FewerNewlines(), NewlineTable(p), v) {
      FewerNewlinesExplained(v, p);
    }
    assert FewerNewlines().Valid() && FewerNewlines().pass == NONE by { FewerNewlinesPasses(); }
    RunIsEdited(FewerNewlines(), NewlineTable, ts);
  }

  lemma FewerNewlinesPasses()
    ensures FewerNewlines().Valid() && FewerNewlines().pass == NONE
  {
    FewerNewlinesFit();
  }

  lemma BraceOnOwnLineExactly(ts: seq<Token>)
    ensures BraceOnOwnLine().Valid() && BraceOnOwnLine().Run(ts) == Edited(NONE, BraceOnOwnLineTable, [], ts)
  {
    BraceOnOwnLineFit();
    hide Fit, Explains, BraceOnOwnLine, BraceOnOwnLineTable;
    forall v, p | Shows(v, p) ensures Explains(BraceOnOwnLine(), BraceOnOwnLineTable(p), v) {
      BraceOnOwnLineExplained(v, p);
    }
    assert BraceOnOwnLine().Valid() && BraceOnOwnLine().pass == NONE by { BraceOnOwnLinePasses(); }
    RunIsEdited(BraceOnOwnLine(), BraceOnOwnLineTable, ts);
  }

  lemma BraceOnOwnLinePasses()
    ensures BraceOnOwnLine().Valid() && BraceOnOwnLine().pass == NONE
  {
    BraceOnOwnLineFit();
  }

  lemma BraceOnSameLineExactly(ts: seq<Token>)
    ensures BraceOnSameLine().Valid() && BraceOnSameLine().Run(ts) == Edited(NONE, BraceOnSameLineTable, [], ts)
  {
    BraceOnSameLineFit();
    hide Fit, Explains, BraceOnSameLine, BraceOnSameLineTable;
    forall v, p | Shows(v, p) ensures Explains(BraceOnSameLine(), BraceOnSameLineTable(p), v) {
      BraceOnSameLineExplained(v, p);
    }
    assert BraceOnSameLine().Valid() && BraceOnSameLine().pass == NONE by { BraceOnSameLinePasses(); }
    RunIsEdited(BraceOnSameLine(), BraceOnSameLineTable, ts);
  }

  lemma BraceOnSameLinePasses()
    ensures BraceOnSameLine().Valid() && BraceOnSameLine().pass == NONE
  {
    BraceOnSameLineFit();
  }

  lemma EmptyLineBeforeRuleExactly(ts: seq<Token>)
    ensures EmptyLineBeforeRule().Valid() && EmptyLineBeforeRule().Run(ts) == Edited(NONE, RuleTable, [], ts)
  {
    EmptyLineBeforeRuleFit();
    hide Fit, Explains, EmptyLineBeforeRule, RuleTable;
    forall v, p | Shows(v, p) ensures Explains(EmptyLineBeforeRule(), RuleTable(p), v) {
      EmptyLineBeforeRuleExplained(v, p);
    }
    assert EmptyLineBeforeRule().Valid() && EmptyLineBeforeRule().pass == NONE by { EmptyLineBeforeRulePasses(); }
    RunIsEdited(EmptyLineBeforeRule(), RuleTable, ts);
  }

  lemma EmptyLineBeforeRulePasses()
    ensures EmptyLineBeforeRule().Valid() && EmptyLineBeforeRule().pass == NONE
  {
    EmptyLineBeforeRuleFit();
  }

  lemma EmptyLineBeforeHeaderExactly(ts: seq<Token>)
    ensures EmptyLineBeforeHeader().Valid() &&
        EmptyLineBeforeHeader().Run(ts) == Edited(CONTROL, HeaderApartTable, [], ts)
  {
    EmptyLineBeforeHeaderFit();
    hide Fit, Explains, EmptyLineBeforeHeader, HeaderApartTable;
    forall v, p | Shows(v, p) ensures Explains(EmptyLineBeforeHeader(), HeaderApartTable(p), v) {
      EmptyLineBeforeHeaderExplained(v, p);
    }
    assert EmptyLineBeforeHeader().Valid() &&
      EmptyLineBeforeHeader().pass == CONTROL by { EmptyLineBeforeHeaderPasses(); }
    RunIsEdited(EmptyLineBeforeHeader(), HeaderApartTable, ts);
  }

  lemma EmptyLineBeforeHeaderPasses()
    ensures EmptyLineBeforeHeader().Valid() && EmptyLineBeforeHeader().pass == CONTROL
  {
    EmptyLineBeforeHeaderFit();
  }

  lemma NewlineBeforeHeaderExactly(ts: seq<Token>)
    ensures NewlineBeforeHeader().Valid() && NewlineBeforeHeader().Run(ts) == Edited(CONTROL, HeaderTable, [], ts)
  {
    NewlineBeforeHeaderFit();
    hide Fit, Explains, NewlineBeforeHeader, HeaderTable;
    forall v, p | Shows(v, p) ensures Explains(NewlineBeforeHeader(), HeaderTable(p), v) {
      NewlineBeforeHeaderExplained(v, p);
    }
    assert NewlineBeforeHeader().Valid() && NewlineBeforeHeader().pass == CONTROL by { NewlineBeforeHeaderPasses(); }
    RunIsEdited(NewlineBeforeHeader(), HeaderTable, ts);
  }

  lemma NewlineBeforeHeaderPasses()
    ensures NewlineBeforeHeader().Valid() && NewlineBeforeHeader().pass == CONTROL
  {
    NewlineBeforeHeaderFit();
  }

  lemma NoEmptyLineBeforeFirstHeaderExactly(ts: seq<Token>)
    ensures NoEmptyLineBeforeFirstHeader().Valid() &&
        NoEmptyLineBeforeFirstHeader().Run(ts) == Edited(CONTROL, FirstHeaderTable, [], ts)
  {
    NoEmptyLineBeforeFirstHeaderFit();
    hide Fit, Explains, NoEmptyLineBeforeFirstHeader, FirstHeaderTable;
    forall v, p | Shows(v, p) ensures Explains(NoEmptyLineBeforeFirstHeader(), FirstHeaderTable(p), v) {
      NoEmptyLineBeforeFirstHeaderExplained(v, p);
    }
    assert NoEmptyLineBeforeFirstHeader().Valid() &&
      NoEmptyLineBeforeFirstHeader().pass == CONTROL by { NoEmptyLineBeforeFirstHeaderPasses(); }
    RunIsEdited(NoEmptyLineBeforeFirstHeader(), FirstHeaderTable, ts);
  }

  lemma NoEmptyLineBeforeFirstHeaderPasses()
    ensures NoEmptyLineBeforeFirstHeader().Valid() && NoEmptyLineBeforeFirstHeader().pass == CONTROL
  {
    NoEmptyLineBeforeFirstHeaderFit();
  }

  lemma EmptyLineAfterHeaderExactly(ts: seq<Token>)
    ensures EmptyLineAfterHeader().Valid() &&
        EmptyLineAfterHeader().Run(ts) == Edited(NONE, EmptyLineAfterHeaderTable, [], ts)
  {
    EmptyLineAfterHeaderFit();
    hide Fit, Explains, EmptyLineAfterHeader, EmptyLineAfterHeaderTable;
    forall v, p | Shows(v, p) ensures Explains(EmptyLineAfterHeader(), EmptyLineAfterHeaderTable(p), v) {
      EmptyLineAfterHeaderExplained(v, p);
    }
    assert EmptyLineAfterHeader().Valid() && EmptyLineAfterHeader().pass == NONE by { EmptyLineAfterHeaderPasses(); }
    RunIsEdited(EmptyLineAfterHeader(), EmptyLineAfterHeaderTable, ts);
  }

  lemma EmptyLineAfterHeaderPasses()
    ensures EmptyLineAfterHeader().Valid() && EmptyLineAfterHeader().pass == NONE
  {
    EmptyLineAfterHeaderFit();
  }

  lemma NewlineAfterHeaderExactly(ts: seq<Token>)
    ensures NewlineAfterHeader().Valid() &&
        NewlineAfterHeader().Run(ts) == Edited(NONE, NewlineAfterHeaderTable, [], ts)
  {
    NewlineAfterHeaderFit();
    hide Fit, Explains, NewlineAfterHeader, NewlineAfterHeaderTable;
    forall v, p | Shows(v, p) ensures Explains(NewlineAfterHeader(), NewlineAfterHeaderTable(p), v) {
      NewlineAfterHeaderExplained(v, p);
    }
    assert NewlineAfterHeader().Valid() && NewlineAfterHeader().pass == NONE by { NewlineAfterHeaderPasses(); }
    RunIsEdited(NewlineAfterHeader(), NewlineAfterHeaderTable, ts);
  }

  lemma NewlineAfterHeaderPasses()
    ensures NewlineAfterHeader().Valid() && NewlineAfterHeader().pass == NONE
  {
    NewlineAfterHeaderFit();
  }

  lemma RequiredNewlinesExactly(ts: seq<Token>)
    ensures RequiredNewlines().Valid() && RequiredNewlines().Run(ts) == Edited(CONTROL, ItemTable, [], ts)
  {
    RequiredNewlinesFit();
    hide Fit, Explains, RequiredNewlines, ItemTable;
    forall v, p | Shows(v, p) ensures Explains(RequiredNewlines(), ItemTable(p), v) {
      RequiredNewlinesExplained(v, p);
    }
    assert RequiredNewlines().Valid() && RequiredNewlines().pass == CONTROL by { RequiredNewlinesPasses(); }
    RunIsEdited(RequiredNewlines(), ItemTable, ts);
  }

  lemma RequiredNewlinesPasses()
    ensures RequiredNewlines().Valid() && RequiredNewlines().pass == CONTROL
  {
    RequiredNewlinesFit();
  }

  lemma NewlineAfterCommentsExactly(ts: seq<Token>)
    ensures NewlineAfterComments().Valid() && NewlineAfterComments().Run(ts) == Edited(CONTROL, CommentTable, [], ts)
  {
    NewlineAfterCommentsFit();
    hide Fit, Explains, NewlineAfterComments, CommentTable;
    forall v, p | Shows(v, p) ensures Explains(NewlineAfterComments(), CommentTable(p), v) {
      NewlineAfterCommentsExplained(v, p);
    }
    assert NewlineAfterComments().Valid() && NewlineAfterComments().pass == CONTROL by { NewlineAfterCommentsPasses(); }
    RunIsEdited(NewlineAfterComments(), CommentTable, ts);
  }

  lemma NewlineAfterCommentsPasses()
    ensures NewlineAfterComments().Valid() && NewlineAfterComments().pass == CONTROL
  {
    NewlineAfterCommentsFit();
  }

  lemma SpacingExactly(ts: seq<Token>)
    ensures Spacing().Valid() && Spacing().Run(ts) == Edited(CONTROL, SpaceTable, [], ts)
  {
    SpacingFit();
    hide Fit, Explains, Spacing, SpaceTable;
    forall v, p | Shows(v, p) ensures Explains(Spacing(), SpaceTable(p), v) {
      SpacingExplained(v, p);
    }
    assert Spacing().Valid() && Spacing().pass == CONTROL by { SpacingPasses(); }
    RunIsEdited(Spacing(), SpaceTable, ts);
  }

  lemma SpacingPasses()
    ensures Spacing().Valid() && Spacing().pass == CONTROL
  {
    SpacingFit();
  }

  /** The tokens that most rule sets do not see. */
  lemma ControlTokens(t: Token)
    ensures CategoryOf(t) in CONTROL <==>
            t.Begin? || t.End? || t.Indentation? || t.BlockBegin? || t.BlockEnd?
            || t.AlignmentBlockBegin? || t.AlignmentBlockEnd?
    ensures CategoryOf(t) in NONE <==> t == NoToken
  {}
}
