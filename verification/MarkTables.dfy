/** Where alignment marks go, as tables over the tokens around a place. */
module MarkTables {
  import opened Seqs
  import opened Tokens
  import opened Processors
  import opened RuleSets
  import opened RuleTables
  import BlockMarkers

  const BEGINNING: seq<Token> := [AlignmentBlockBegin]
  const ENDING: seq<Token> := [AlignmentBlockEnd]
  const MARKED: seq<Token> := [AlignmentMarker]

  /** The block of a hex pattern lies between its Begin and End; its tail comments are marked. */
  function HexTable(p: Place): Edit {
    var starts := p.Back(1) == Begin(HexPattern);
    var ends := p.Ahead(1) == End(HexPattern) && p.Back(1) != AlignmentBlockEnd;
    var marks := HexPattern in p.inside && p.Ahead(1).TailComment? && p.Back(1) != AlignmentMarker;
    Edit((if starts then BEGINNING else []) + (if ends then ENDING else if marks then MARKED else []), true)
  }

  /** Empty lines separate the blocks of a section; the equal signs of its items are marked. */
  function SectionTable(block: Kind, item: Kind, p: Place): Edit {
    var starts := p.Back(1) == Begin(block);
    var ends := p.Ahead(1) == End(block) && p.Back(1) != AlignmentBlockEnd;
    var splits := !ends && p.In(block) && p.Back(2) == p.Back(1) == Newline;
    var marks := p.In(item) && p.Ahead(1) == Punctuation("=") && p.Back(1) != AlignmentMarker;
    Edit((if starts then BEGINNING else if splits then ENDING + BEGINNING else [])
         + (if ends then ENDING else if marks then MARKED else []), true)
  }

  function MarkTable(k: BlockMarkers.Marking): Table {
    if k.HexComments? then HexTable else (p: Place) => SectionTable(k.block, k.item, p)
  }

  /** What the rules see of a place, in literal terms. */
  lemma MarkingSees(k: BlockMarkers.Marking, v: View, p: Place)
    requires Shows(v, p)
    ensures BlockOpened(v, k.Block()) <==> p.Back(1) == Begin(k.Block())
    ensures BlockCloses(v, k.Block()) <==> p.Ahead(1) == End(k.Block()) && p.Back(1) != AlignmentBlockEnd
    ensures k.Splits(v) <==> k.EqualSigns? && p.In(k.block) && p.Back(2) == p.Back(1) == Newline
    ensures k.Marks(v) <==>
            p.Back(1) != AlignmentMarker &&
            if k.HexComments? then HexPattern in p.inside && p.Ahead(1).TailComment?
            else p.In(k.item) && p.Ahead(1) == EQUAL
  {}

  lemma BehindInsertion(s: RuleSet, v: View, ts: seq<Token>)
    requires 1 <= |ts| <= 2
    ensures
      var w := s.After(v, ts);
      && w.Tok(-1) == ts[|ts| - 1] && w.Tok(1) == v.Tok(1) && w.next == v.next && w.stack == v.stack
      && w.Tok(-2) == if |ts| == 1 then v.Tok(-1) else ts[0]
  {
    if |ts| == 1 {
      assert ts == [ts[0]];
      AfterOne(s, v, ts[0]);
    } else {
      assert ts == [ts[0], ts[1]];
      AfterTwo(s, v, ts[0], ts[1]);
    }
  }

  /** What comes after the first insertion, or instead of it. */
  function Last(k: BlockMarkers.Marking, v: View): seq<Token> {
    if BlockCloses(v, k.Block()) then ENDING else if k.Marks(v) then MARKED else []
  }

  /** No block begins here. */
  predicate Settled(k: BlockMarkers.Marking, v: View) {
    !BlockOpened(v, k.Block()) && (k.Splits(v) ==> BlockCloses(v, k.Block()))
  }

  lemma MarkIsSettled(k: BlockMarkers.Marking, v: View)
    requires v.Tok(-1) in {AlignmentBlockBegin, AlignmentBlockEnd, AlignmentMarker}
    ensures Settled(k, v)
  {}

  /** At most one more mark comes where no block begins. */
  lemma LastMark(k: BlockMarkers.Marking, v: View)
    requires Settled(k, v)
    ensures k.Rules().Match(v) == if Last(k, v) == [] then Copy else Insert(Last(k, v))
    ensures Last(k, v) != [] ==> k.Rules().Match(k.Rules().After(v, Last(k, v))) == Copy
  {
    BlockMarkers.MatchOfMarking(k, v);
    var ts := Last(k, v);
    if ts != [] {
      var w := k.Rules().After(v, ts);
      BehindInsertion(k.Rules(), v, ts);
      MarkIsSettled(k, w);
      NoMarkAgain(k, v, w);
      BlockMarkers.MatchOfMarking(k, w);
    }
  }

  lemma NoMarkAgain(k: BlockMarkers.Marking, v: View, w: View)
    requires Last(k, v) != [] && w.Tok(-1) == Last(k, v)[0] && w.Tok(1) == v.Tok(1)
    ensures Last(k, w) == []
  {}

  /** What opens a block here. */
  function First(k: BlockMarkers.Marking, v: View): seq<Token> {
    if BlockOpened(v, k.Block()) then BEGINNING
    else if k.Splits(v) && !BlockCloses(v, k.Block()) then ENDING + BEGINNING
    else []
  }

  lemma FirstMark(k: BlockMarkers.Marking, v: View)
    requires First(k, v) != []
    ensures k.Rules().Match(v) == Insert(First(k, v))
    ensures var w := k.Rules().After(v, First(k, v)); Settled(k, w) && Last(k, w) == Last(k, v)
    ensures v.next == [] ==> Last(k, v) == []
  {
    BlockMarkers.MatchOfMarking(k, v);
    var w := k.Rules().After(v, First(k, v));
    BehindInsertion(k.Rules(), v, First(k, v));
    MarkIsSettled(k, w);
    SameLast(k, v, w);
  }

  lemma SameLast(k: BlockMarkers.Marking, v: View, w: View)
    requires First(k, v) != [] && w.Tok(-1) == AlignmentBlockBegin
    requires w.Tok(1) == v.Tok(1) && w.next == v.next && w.stack == v.stack
    ensures Last(k, w) == Last(k, v) && (v.next == [] ==> Last(k, v) == [])
  {}

  lemma MarksExplained(k: BlockMarkers.Marking, v: View, p: Place)
    requires Shows(v, p)
    ensures Explains(k.Rules(), MarkTable(k)(p), v)
  {
    MarkingSees(k, v, p);
    hide Explains, BlockOpened, BlockCloses, BlockMarkers.Marking.Splits, BlockMarkers.Marking.Marks, Settled, Shows;
    var s, first, last := k.Rules(), First(k, v), Last(k, v);
    assert MarkTable(k)(p).layout == first + last;
    hide BlockMarkers.Marking.Rules;
    if first != [] {
      FirstMark(k, v);
      LastMark(k, s.After(v, first));
      if last == [] {
        assert first + last == first;
        OneInsertion(s, v, first);
      } else {
        TwoInsertions(s, v, first, last);
      }
    } else {
      assert first + last == last;
      NotFirst(k, v);
      LastMark(k, v);
      if last == [] { NoInsertion(s, v); } else { OneInsertion(s, v, last); }
    }
  }

  lemma NotFirst(k: BlockMarkers.Marking, v: View)
    requires First(k, v) == []
    ensures Settled(k, v)
  {}

  /** Marking is editing by these tables. */
  lemma MarkingExactly(k: BlockMarkers.Marking, ts: seq<Token>)
    ensures k.Rules().Valid() && k.Rules().pass == NONE
    ensures k.Rules().Run(ts) == Edited(NONE, MarkTable(k), [], ts)
  {
    BlockMarkers.RulesFit(k);
    hide Explains, MarkTable;
    forall v, p | Shows(v, p) ensures Explains(k.Rules(), MarkTable(k)(p), v) {
      MarksExplained(k, v, p);
    }
    RunIsEdited(k.Rules(), MarkTable(k), ts);
  }
}
