/**
 The blanks of the formatted program: how many there are between neighbouring
 tokens of a line. No blank comes from the source.
 */
module TextSpacing {
  import opened Seqs
  import opened Tokens
  import opened Processors
  import opened Preservation
  import opened RuleSets
  import opened RuleTables
  import opened MarkTables
  import Alignment
  import AlignedTrace
  import BlockMarkers

  // ----- Blanks between neighbours

  /** The last token that is neither blank nor control, and the blanks since. */
  datatype Gap = Gap(prev: Token, blanks: nat)

  const START := Gap(NoToken, 0)

  predicate IsSilent(t: Token) {
    t.Begin? || t.End? || t.Indentation? || t.BlockBegin? || t.BlockEnd?
    || t.AlignmentBlockBegin? || t.AlignmentBlockEnd? || t.AlignmentMarker?
  }

  predicate IsSpace(t: Token) { t == Whitespace || t == Tab }

  function Next(g: Gap, t: Token): Gap {
    if IsSpace(t) then Gap(g.prev, g.blanks + 1) else if IsSilent(t) then g else Gap(t, 0)
  }

  function Reach(g: Gap, ts: seq<Token>): Gap
    decreases |ts|
  {
    if ts == [] then g else Reach(Next(g, ts[0]), ts[1..])
  }

  /**
   The blanks between neighbours on a line: two before a comment behind text, one
   behind an inline comment, and one or none between text tokens.
   */
  function Wanted(stack: seq<Kind>, prev: Token, t: Token): Option<nat> {
    if t == Newline || t == NoToken then None
    else if prev.InlineComment? then Some(1)
    else if IsText(prev) && IsComment(t) then Some(2)
    else if IsText(prev) && IsText(t) then Some(if Tight(Place([], [], stack), prev, t) then 0 else 1)
    else None
  }

  /** Alignment can put more blanks before such tokens; `items` are the grammar rules whose equal signs it aligns. */
  predicate Aligned(items: set<Kind>, stack: seq<Kind>, t: Token) {
    || (t == Punctuation("=") && stack != [] && stack[|stack| - 1] in items)
    || (t.TailComment? && HexPattern in stack)
  }

  predicate Right(items: set<Kind>, stack: seq<Kind>, g: Gap, t: Token) {
    IsSpace(t) || IsSilent(t) ||
    match Wanted(stack, g.prev, t)
    case None => true
    case Some(n) => if Aligned(items, stack, t) then g.blanks >= n else g.blanks == n
  }

  predicate Spaced(items: set<Kind>, stack: seq<Kind>, g: Gap, ts: seq<Token>)
    decreases |ts|
  {
    ts == [] || (Right(items, stack, g, ts[0]) && Spaced(items, OpenOne(stack, ts[0]), Next(g, ts[0]), ts[1..]))
  }

  lemma {:induction false} SpacedConcat(items: set<Kind>, stack: seq<Kind>, g: Gap, a: seq<Token>, b: seq<Token>)
    ensures Spaced(items, stack, g, a + b) <==>
        Spaced(items, stack, g, a) && Spaced(items, Open(stack, a), Reach(g, a), b)
    ensures Reach(g, a + b) == Reach(Reach(g, a), b)
    decreases |a|
  {
    if a == [] {
      assert a + b == b;
    } else {
      assert (a + b)[0] == a[0] && (a + b)[1..] == a[1..] + b;
      hide Right, Next, OpenOne;
      SpacedConcat(items, OpenOne(stack, a[0]), Next(g, a[0]), a[1..], b);
    }
  }

  // ----- The spacing rules

  lemma {:induction false} Blanks(items: set<Kind>, stack: seq<Kind>, g: Gap, ts: seq<Token>)
    requires forall i :: 0 <= i < |ts| ==> ts[i] == Whitespace
    ensures Spaced(items, stack, g, ts) && Open(stack, ts) == stack && Reach(g, ts) == Gap(g.prev, g.blanks + |ts|)
    decreases |ts|
  {
    if ts != [] {
      assert ts[0] == Whitespace;
      Blanks(items, stack, Next(g, ts[0]), ts[1..]);
    }
  }

  lemma SpacedOne(items: set<Kind>, stack: seq<Kind>, g: Gap, t: Token)
    ensures Spaced(items, stack, g, [t]) <==> Right(items, stack, g, t)
    ensures Reach(g, [t]) == Next(g, t) && Open(stack, [t]) == OpenOne(stack, t)
  {
    hide Right, Next, OpenOne;
    assert [t][1..] == [];
  }

  /** Neither blanks nor marks. */
  predicate IsBare(t: Token) { !IsSpace(t) && !t.AlignmentMarker? && t != NoToken }

  predicate Bare(ts: seq<Token>) { forall i :: 0 <= i < |ts| ==> IsBare(ts[i]) }

  predicate NoMarker(ts: seq<Token>) { forall i :: 0 <= i < |ts| ==> !ts[i].AlignmentMarker? }

  /** When no blank was written last, the rules see the last token that is not silent. */
  lemma {:induction false} LastSeen(out: seq<Token>)
    requires Reach(START, out).blanks == 0 && NoMarker(out)
    ensures
      var seen := Seen(CONTROL, out);
      Reach(START, out).prev == if |seen| == 0 then NoToken else seen[|seen| - 1]
    decreases |out|
  {
    if out != [] {
      var init, t := out[..|out| - 1], out[|out| - 1];
      assert out == init + [t] && !t.AlignmentMarker?;
      ReachSnoc(START, init, t);
      SeenSnoc(CONTROL, init, t);
      hide Reach, Seen;
      NextSeen(Reach(START, init), t);
      if CategoryOf(t) in CONTROL {
        LastSeen(init);
        assert Seen(CONTROL, init) + [] == Seen(CONTROL, init);
      }
    }
  }

  lemma ReachSnoc(g: Gap, init: seq<Token>, t: Token)
    ensures Reach(g, init + [t]) == Next(Reach(g, init), t)
  {
    SpacedConcat({}, [], g, init, [t]);
    SpacedOne({}, [], Reach(g, init), t);
  }

  lemma NextSeen(g: Gap, t: Token)
    requires !t.AlignmentMarker? && Next(g, t).blanks == 0
    ensures Next(g, t) == if CategoryOf(t) in CONTROL then g else Gap(t, 0)
  {}

  /** Halfway through the spacing. */
  ghost predicate Done(items: set<Kind>, out: seq<Token>) {
    Spaced(items, [], START, out) && Reach(START, out).blanks == 0 && NoMarker(out)
  }

  lemma DoneConcat(items: set<Kind>, out: seq<Token>, more: seq<Token>)
    requires Done(items, out) && NoMarker(more) && Spaced(items, Open([], out), Reach(START, out), more)
    requires Reach(Reach(START, out), more).blanks == 0
    ensures Done(items, out + more)
  {
    SpacedConcat(items, [], START, out, more);
  }

  lemma HiddenIsSilent(t: Token)
    requires CategoryOf(t) in CONTROL
    ensures IsSilent(t) && IsBare(t)
  {}

  lemma SilentGoesThrough(items: set<Kind>, out: seq<Token>, t: Token)
    requires Done(items, out) && CategoryOf(t) in CONTROL
    ensures Done(items, out + [t])
  {
    HiddenIsSilent(t);
    SpacedOne(items, Open([], out), Reach(START, out), t);
    hide Spaced, Reach, Open;
    DoneConcat(items, out, [t]);
  }

  /** The layout that the table gives is what is wanted. */
  lemma LayoutIsWanted(items: set<Kind>, p: Place, stack: seq<Kind>, g: Gap, t: Token)
    requires p.Ahead(1) == t && p.Back(1) == g.prev && (!t.End? ==> p.inside == stack)
    requires IsBare(t) && CategoryOf(t) !in CONTROL && g.blanks == 0
    ensures
      var e := SpaceTable(p);
      && e.stays && (forall i :: 0 <= i < |e.layout| ==> e.layout[i] == Whitespace)
      && Right(items, stack, Gap(g.prev, |e.layout|), t)
  {
    assert Tight(p, g.prev, t) <==> Tight(Place([], [], stack), g.prev, t);
  }

  lemma OneIsSpaced(items: set<Kind>, out: seq<Token>, rest: seq<Token>)
    requires Done(items, out) && Bare(rest) && rest != [] && CategoryOf(rest[0]) !in CONTROL
    ensures Done(items, RuleTables.Written(out, SpaceTable(PlaceOf(CONTROL, out, rest)), rest[0]))
  {
    var p, t, stack, g := PlaceOf(CONTROL, out, rest), rest[0], Open([], out), Reach(START, out);
    LastSeen(out);
    assert Seen(CONTROL, rest)[0] == t && IsBare(t);
    assert p.Ahead(1) == t && p.Back(1) == g.prev && (!t.End? ==> p.inside == stack);
    hide PlaceOf, Spaced, Reach, Open;
    LayoutIsWanted(items, p, stack, g, t);
    hide SpaceTable, Right;
    var layout := SpaceTable(p).layout;
    Blanks(items, stack, g, layout);
    SpacedOne(items, stack, Gap(g.prev, |layout|), t);
    SpacedConcat(items, stack, g, layout, [t]);
    BareIsSeen(t, Gap(g.prev, |layout|));
    DoneConcat(items, out, layout + [t]);
    Assoc(out, layout, [t]);
  }

  lemma BareIsSeen(t: Token, g: Gap)
    requires IsBare(t) && CategoryOf(t) !in CONTROL
    ensures Next(g, t).blanks == 0
  {}

  lemma {:induction false} SpacesAreRight(items: set<Kind>, out: seq<Token>, rest: seq<Token>)
    requires Done(items, out) && Bare(rest)
    ensures Spaced(items, [], START, Edited(CONTROL, SpaceTable, out, rest))
    decreases |rest|
  {
    hide Done, PlaceOf, Spaced, RuleTables.Written, CategoryOf;
    if rest == [] {
      DoneIsSpaced(items, out);
    } else if Seen(CONTROL, rest) == [] {
      EndIsSpaced(items, out, rest);
    } else if CategoryOf(rest[0]) in CONTROL {
      SilentGoesThrough(items, out, rest[0]);
      SpacesAreRight(items, out + [rest[0]], rest[1..]);
    } else {
      OneIsSpaced(items, out, rest);
      SpacesAreRight(items, RuleTables.Written(out, SpaceTable(PlaceOf(CONTROL, out, rest)), rest[0]), rest[1..]);
    }
  }

  lemma DoneIsSpaced(items: set<Kind>, out: seq<Token>)
    requires Done(items, out)
    ensures Spaced(items, [], START, out)
  {}

  lemma {:induction false} SilentTail(items: set<Kind>, out: seq<Token>, rest: seq<Token>)
    requires Done(items, out) && Seen(CONTROL, rest) == []
    ensures Done(items, out + rest)
    decreases |rest|
  {
    if rest == [] {
      assert out + rest == out;
    } else {
      hide Done;
      SilentGoesThrough(items, out, rest[0]);
      SilentTail(items, out + [rest[0]], rest[1..]);
      assert out + [rest[0]] + rest[1..] == out + rest;
    }
  }

  lemma EndIsSpaced(items: set<Kind>, out: seq<Token>, rest: seq<Token>)
    requires Done(items, out) && Seen(CONTROL, rest) == []
    ensures Spaced(items, [], START, out + rest + SpaceTable(PlaceOf(CONTROL, out + rest, [])).layout)
  {
    SilentTail(items, out, rest);
    var all, layout := out + rest, SpaceTable(PlaceOf(CONTROL, out + rest, [])).layout;
    Blanks(items, Open([], all), Reach(START, all), layout);
    SpacedConcat(items, [], START, all, layout);
  }

  /** After the spacing rules the blanks are right, if there were none before. */
  lemma SpacingIsRight(items: set<Kind>, ts: seq<Token>)
    requires Bare(ts)
    ensures Spacing().Valid() && Spaced(items, [], START, Spacing().Run(ts))
  {
    SpacingExactly(ts);
    SpacesAreRight(items, [], ts);
  }
}
