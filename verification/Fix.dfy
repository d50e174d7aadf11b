/** Applying the patches that warnings suggest to the files they are about. */
module Fixes {
  import opened Bytes
  import opened Seqs

  type Origin = string

  datatype RawPatch = Patch(origin: Origin, start: nat, end: nat, replacement: seq<Byte>)

  /** A span never ends before it starts. */
  type Patch = p: RawPatch | p.start <= p.end witness Patch("", 0, 0, [])

  // ----- Sorting by position

  /** Puts a patch after those that do not start later. */
  function Insert(p: Patch, ps: seq<Patch>): seq<Patch> {
    if ps == [] || p.start < ps[0].start then [p] + ps else [ps[0]] + Insert(p, ps[1..])
  }

  /** Stable sorting by the start of the span. */
  function Sort(ps: seq<Patch>): seq<Patch> {
    if ps == [] then [] else Insert(ps[|ps| - 1], Sort(ps[..|ps| - 1]))
  }

  predicate Sorted(ps: seq<Patch>) {
    forall i, j :: 0 <= i < j < |ps| ==> ps[i].start <= ps[j].start
  }

  function Of(origin: Origin, ps: seq<Patch>): seq<Patch> {
    if ps == [] then []
    else if ps[|ps| - 1].origin == origin then Of(origin, ps[..|ps| - 1]) + [ps[|ps| - 1]]
    else Of(origin, ps[..|ps| - 1])
  }

  /** The patches that start at `k`. */
  function At(k: nat, ps: seq<Patch>): seq<Patch> {
    if ps == [] then [] else (if ps[0].start == k then [ps[0]] else []) + At(k, ps[1..])
  }

  lemma {:induction false} InsertKeeps(p: Patch, ps: seq<Patch>)
    ensures multiset(Insert(p, ps)) == multiset(ps) + multiset{p}
    decreases |ps|
  {
    if ps == [] || p.start < ps[0].start {
      assert multiset([p] + ps) == multiset{p} + multiset(ps);
    } else {
      InsertKeeps(p, ps[1..]);
      assert ps == [ps[0]] + ps[1..];
    }
  }

  lemma {:induction false} InsertSorts(p: Patch, ps: seq<Patch>)
    requires Sorted(ps)
    ensures Sorted(Insert(p, ps))
    decreases |ps|
  {
    if ps != [] && ps[0].start <= p.start {
      InsertSorts(p, ps[1..]);
      InsertKeeps(p, ps[1..]);
      var r := Insert(p, ps[1..]);
      forall j | 0 <= j < |r| ensures ps[0].start <= r[j].start {
        assert r[j] in multiset(r);
        StartsLater(ps, p, r[j]);
      }
    }
  }

  lemma StartsLater(ps: seq<Patch>, p: Patch, x: Patch)
    requires Sorted(ps) && ps != [] && ps[0].start <= p.start && x in multiset(ps[1..]) + multiset{p}
    ensures ps[0].start <= x.start
  {
    if x != p {
      var k := IndexOf(ps[1..], x);
      assert ps[k + 1] == x;
    }
  }

  /** Sorting gives the same patches in ascending order. */
  lemma {:induction false} SortSorts(ps: seq<Patch>)
    ensures Sorted(Sort(ps)) && multiset(Sort(ps)) == multiset(ps)
    decreases |ps|
  {
    if ps != [] {
      var init, last := ps[..|ps| - 1], ps[|ps| - 1];
      SortSorts(init);
      InsertKeeps(last, Sort(init));
      InsertSorts(last, Sort(init));
      assert ps == init + [last];
    }
  }

  lemma {:induction false} AtConcat(k: nat, a: seq<Patch>, b: seq<Patch>)
    ensures At(k, a + b) == At(k, a) + At(k, b)
    decreases |a|
  {
    if a == [] {
      assert a + b == b;
    } else {
      AtConcat(k, a[1..], b);
      assert (a + b)[1..] == a[1..] + b;
    }
  }

  lemma {:induction false} NoneAt(k: nat, ps: seq<Patch>)
    requires forall i :: 0 <= i < |ps| ==> ps[i].start != k
    ensures At(k, ps) == []
    decreases |ps|
  {
    if ps != [] {
      NoneAt(k, ps[1..]);
    }
  }

  lemma InsertFirstIsStable(k: nat, p: Patch, ps: seq<Patch>)
    requires Sorted(ps) && ps != [] && p.start < ps[0].start
    ensures At(k, [p] + ps) == At(k, ps) + At(k, [p])
  {
    assert p.start == k ==> forall i :: 0 <= i < |ps| ==> ps[i].start != k;
    hide At, Sorted;
    AtConcat(k, [p], ps);
    if p.start == k { NoneAt(k, ps); } else { NoneAt(k, [p]); }
    assert [] + At(k, [p]) == At(k, [p]) + [] && At(k, ps) + [] == [] + At(k, ps);
  }

  lemma {:induction false} InsertIsStable(k: nat, p: Patch, ps: seq<Patch>)
    requires Sorted(ps)
    ensures At(k, Insert(p, ps)) == At(k, ps) + At(k, [p])
    decreases |ps|
  {
    if ps == [] {
      assert [p] + [] == [p] && At(k, []) == [];
    } else if p.start < ps[0].start {
      InsertFirstIsStable(k, p, ps);
    } else {
      var rest := ps[1..];
      InsertIsStable(k, p, rest);
      assert Insert(p, ps) == [ps[0]] + Insert(p, rest) && ps == [ps[0]] + rest;
      hide *;
      AtConcat(k, [ps[0]], Insert(p, rest));
      AtConcat(k, [ps[0]], rest);
      Assoc(At(k, [ps[0]]), At(k, rest), At(k, [p]));
    }
  }

  /** Patches with the same start keep their order. */
  lemma {:induction false} SortIsStable(k: nat, ps: seq<Patch>)
    ensures At(k, Sort(ps)) == At(k, ps)
    decreases |ps|
  {
    if ps != [] {
      var init, last := ps[..|ps| - 1], ps[|ps| - 1];
      SortSorts(init);
      SortIsStable(k, init);
      InsertIsStable(k, last, Sort(init));
      AtConcat(k, init, [last]);
      assert ps == init + [last];
    }
  }

  lemma {:induction false} InsertLast(p: Patch, ps: seq<Patch>)
    requires forall i :: 0 <= i < |ps| ==> ps[i].start <= p.start
    ensures Insert(p, ps) == ps + [p]
    decreases |ps|
  {
    if ps != [] {
      InsertLast(p, ps[1..]);
      assert ps == [ps[0]] + ps[1..];
    }
  }

  lemma {:induction false} SortOfSorted(ps: seq<Patch>)
    requires Sorted(ps)
    ensures Sort(ps) == ps
    decreases |ps|
  {
    if ps != [] {
      var init, last := ps[..|ps| - 1], ps[|ps| - 1];
      SortOfSorted(init);
      InsertLast(last, init);
      assert ps == init + [last];
    }
  }

  /** Sorting again after every new patch is sorting once at the end. */
  lemma SortAsTheyCome(ps: seq<Patch>, p: Patch)
    ensures Sort(Sort(ps) + [p]) == Sort(ps + [p])
  {
    SortSorts(ps);
    SortOfSorted(Sort(ps));
    assert (Sort(ps) + [p])[..|Sort(ps)|] == Sort(ps);
    assert (ps + [p])[..|ps|] == ps;
  }

  // ----- Collecting

  /** The patches of each origin, sorted. */
  ghost predicate Collected(m: map<Origin, seq<Patch>>, ps: seq<Patch>) {
    forall o ::
      && (o in m <==> Of(o, ps) != [])
      && (o in m ==> m[o] == Sort(Of(o, ps)))
  }

  lemma CollectedOneMore(m: map<Origin, seq<Patch>>, ps: seq<Patch>, p: Patch)
    requires Collected(m, ps)
    ensures Collected(m[p.origin := if p.origin in m then Sort(m[p.origin] + [p]) else [p]], ps + [p])
  {
    var n := m[p.origin := if p.origin in m then Sort(m[p.origin] + [p]) else [p]];
    assert (ps + [p])[..|ps|] == ps;
    forall o
      ensures (o in n <==> Of(o, ps + [p]) != []) && (o in n ==> n[o] == Sort(Of(o, ps + [p])))
    {
      if o == p.origin {
        if o in m {
          SortAsTheyCome(Of(o, ps), p);
        } else {
          assert Of(o, ps + [p]) == [p];
          SortOfSorted([p]);
        }
      }
    }
  }

  /** A file is fixed exactly if some patch is for it. */
  lemma FilesWithPatches(warnings: seq<seq<Patch>>, perOrigin: map<Origin, seq<Patch>>, o: Origin)
    requires Collected(perOrigin, Flatten(warnings))
    ensures o in perOrigin <==> exists i :: 0 <= i < |Flatten(warnings)| && Flatten(warnings)[i].origin == o
  {
    var all := Flatten(warnings);
    assert o in perOrigin <==> Of(o, all) != [];
    hide *;
    OfIsEmpty(o, all);
  }

  lemma {:induction false} OfIsEmpty(o: Origin, ps: seq<Patch>)
    ensures Of(o, ps) == [] <==> forall i :: 0 <= i < |ps| ==> ps[i].origin != o
    decreases |ps|
  {
    if ps != [] {
      var init, last := ps[..|ps| - 1], ps[|ps| - 1];
      OfIsEmpty(o, init);
      assert forall i :: 0 <= i < |init| ==> init[i] == ps[i];
    }
  }

  lemma NothingCollected()
    ensures Collected(map[], [])
  {}

  method Collect(warnings: seq<seq<Patch>>) returns (perOrigin: map<Origin, seq<Patch>>)
    ensures Collected(perOrigin, Flatten(warnings))
  {
    hide Sort, Of, Collected;
    perOrigin := map[];
    NothingCollected();
    ghost var seen: seq<Patch> := [];
    for i := 0 to |warnings|
      invariant Collected(perOrigin, seen)
      invariant seen + Flatten(warnings[i..]) == Flatten(warnings)
    {
      ghost var before := seen;
      for j := 0 to |warnings[i]|
        invariant Collected(perOrigin, seen)
        invariant seen == before + warnings[i][..j]
      {
        var p := warnings[i][j];
        CollectedOneMore(perOrigin, seen, p);
        if p.origin in perOrigin {
          perOrigin := perOrigin[p.origin := Sort(perOrigin[p.origin] + [p])];
        } else {
          perOrigin := perOrigin[p.origin := [p]];
        }
        seen := seen + [p];
        assert warnings[i][..j + 1] == warnings[i][..j] + [p];
      }
      assert warnings[i][..|warnings[i]|] == warnings[i];
      assert warnings[i..][1..] == warnings[i + 1..];
      assert before + (warnings[i] + Flatten(warnings[i + 1..])) == before + warnings[i] + Flatten(warnings[i + 1..]);
    }
    assert seen + [] == seen;
  }

  // ----- Splicing

  /** What is written from position `pos` of the input on; `None` stands for a slice out of range. */
  function SpliceFrom(input: seq<Byte>, pos: nat, ps: seq<Patch>): Option<seq<Byte>>
    decreases |ps|
  {
    if ps == [] then if pos <= |input| then Some(input[pos..]) else None
    else
      var p := ps[0];
      if !(pos <= p.start <= |input|) then None
      else
        var rest := SpliceFrom(input, p.end, ps[1..]);
        if rest.None? then None else Some(input[pos..p.start] + p.replacement + rest.value)
  }

  method Splice(input: seq<Byte>, ps: seq<Patch>) returns (output: Option<seq<Byte>>)
    ensures output == SpliceFrom(input, 0, ps)
  {
    var text: seq<Byte> := [];
    var pos: nat := 0;
    for i := 0 to |ps|
      invariant
        var rest, all := SpliceFrom(input, pos, ps[i..]), SpliceFrom(input, 0, ps);
        rest.Some? == all.Some? && (rest.Some? ==> all.value == text + rest.value)
    {
      var p := ps[i];
      if p.start < pos || |input| < p.start {
        return None;
      }
      ghost var rest := SpliceFrom(input, p.end, ps[i + 1..]);
      assert ps[i..][1..] == ps[i + 1..];
      assert rest.Some? ==>
          text + (input[pos..p.start] + p.replacement + rest.value) ==
              text + input[pos..p.start] + p.replacement + rest.value;
      text := text + input[pos..p.start];
      text := text + p.replacement;
      pos := p.end;
    }
    if |input| < pos {
      return None;
    }
    output := Some(text + input[pos..]);
  }

  /** The spans follow one another from `pos` on, and the last one ends inside the input. */
  predicate Fits(n: nat, pos: nat, ps: seq<Patch>)
    decreases |ps|
  {
    if ps == [] then pos <= n else pos <= ps[0].start <= n && Fits(n, ps[0].end, ps[1..])
  }

  /** Replaces the span of one patch. */
  function Apply(text: seq<Byte>, p: Patch): seq<Byte>
    requires p.end <= |text|
  {
    text[..p.start] + p.replacement + text[p.end..]
  }

  /** Applies the patches one by one, the last one first. */
  function ApplyBackwards(text: seq<Byte>, pos: nat, ps: seq<Patch>): (r: seq<Byte>)
    requires Fits(|text|, pos, ps)
    ensures pos <= |r| && r[..pos] == text[..pos]
    decreases |ps|
  {
    if ps == [] then text
    else
      var after := ApplyBackwards(text, ps[0].end, ps[1..]);
      assert after[..ps[0].end][..ps[0].start] == text[..ps[0].end][..ps[0].start];
      assert after[..ps[0].start] == text[..ps[0].start];
      var r := Apply(after, ps[0]);
      assert r[..pos] == after[..ps[0].start][..pos] == text[..pos];
      r
  }

  /**
   The single pass from the front succeeds exactly when the spans do not overlap and
   are in range, and then it is the same as applying the patches from the last to the first.
   */
  lemma {:induction false} SpliceIsApplication(input: seq<Byte>, pos: nat, ps: seq<Patch>)
    requires pos <= |input|
    ensures SpliceFrom(input, pos, ps).Some? <==> Fits(|input|, pos, ps)
    ensures Fits(|input|, pos, ps) ==>
              input[..pos] + SpliceFrom(input, pos, ps).value == ApplyBackwards(input, pos, ps)
    decreases |ps|
  {
    if ps == [] {
      assert input[..pos] + input[pos..] == input;
    } else if pos <= ps[0].start <= |input| && ps[0].end <= |input| {
      var p := ps[0];
      SpliceIsApplication(input, p.end, ps[1..]);
      if Fits(|input|, p.end, ps[1..]) {
        var rest := SpliceFrom(input, p.end, ps[1..]).value;
        var after := ApplyBackwards(input, p.end, ps[1..]);
        assert after == input[..p.end] + rest;
        assert after[..p.start] == input[..p.start] && after[p.end..] == rest;
        assert input[..pos] + (input[pos..p.start] + p.replacement + rest) == input[..p.start] + p.replacement + rest;
      }
    } else {
      EndsLate(input, pos, ps);
    }
  }

  lemma EndsLate(input: seq<Byte>, pos: nat, ps: seq<Patch>)
    requires ps != [] && !(pos <= ps[0].start <= |input| && ps[0].end <= |input|)
    ensures SpliceFrom(input, pos, ps).None? && !Fits(|input|, pos, ps)
  {
    if ps[1..] != [] {
      assert ps[1..][0].start >= ps[0].end ==> ps[0].end <= |input| || ps[1..][0].start > |input|;
    }
  }

  // ----- What is outside the spans stays

  /** By how much the patches that end before `i` move what follows. */
  function Moved(i: nat, ps: seq<Patch>): int {
    if ps == [] then 0
    else (if ps[0].end <= i then |ps[0].replacement| - (ps[0].end - ps[0].start) else 0) + Moved(i, ps[1..])
  }

  predicate Outside(i: nat, ps: seq<Patch>) {
    forall k :: 0 <= k < |ps| ==> i < ps[k].start || ps[k].end <= i
  }

  lemma {:induction false} NotMoved(n: nat, i: nat, pos: nat, ps: seq<Patch>)
    requires Fits(n, pos, ps) && i < pos
    ensures Moved(i, ps) == 0
    decreases |ps|
  {
    if ps != [] {
      NotMoved(n, i, ps[0].end, ps[1..]);
    }
  }

  /** Every byte outside the spans is kept, at the place to which the patches before it move it. */
  lemma {:induction false} OutsideIsKept(input: seq<Byte>, pos: nat, ps: seq<Patch>, i: nat)
    requires Fits(|input|, pos, ps) && pos <= i < |input| && Outside(i, ps)
    ensures SpliceFrom(input, pos, ps).Some?
    ensures
      var out := SpliceFrom(input, pos, ps).value;
      0 <= i - pos + Moved(i, ps) < |out| && out[i - pos + Moved(i, ps)] == input[i]
    decreases |ps|
  {
    if ps != [] {
      var p := ps[0];
      assert p.end <= |input| by { FitsEnds(|input|, p.end, ps[1..]); }
      SpliceIsApplication(input, p.end, ps[1..]);
      var rest := SpliceFrom(input, p.end, ps[1..]).value;
      var head := input[pos..p.start] + p.replacement;
      assert i < p.start || p.end <= i;
      if i < p.start {
        NotMoved(|input|, i, p.end, ps[1..]);
        assert (head + rest)[i - pos] == input[pos..p.start][i - pos];
      } else {
        assert forall k :: 0 <= k < |ps[1..]| ==> ps[1..][k] == ps[k + 1];
        OutsideIsKept(input, p.end, ps[1..], i);
        assert |head| == p.start - pos + |p.replacement|;
        var j := i - p.end + Moved(i, ps[1..]);
        assert (head + rest)[|head| + j] == rest[j];
      }
    }
  }

  lemma {:induction false} FitsEnds(n: nat, pos: nat, ps: seq<Patch>)
    requires Fits(n, pos, ps)
    ensures pos <= n
    decreases |ps|
  {}

  /** A file gets the patches for it, in the order in which they came. */
  lemma {:induction false} OfIsFilter(o: Origin, ps: seq<Patch>)
    ensures Of(o, ps) == Filter((p: Patch) => p.origin == o, ps)
    decreases |ps|
  {
    if ps != [] {
      var init, last := ps[..|ps| - 1], ps[|ps| - 1];
      OfIsFilter(o, init);
      FilterSnoc((p: Patch) => p.origin == o, init, last);
      assert ps == init + [last];
      assert Of(o, init) + [] == Of(o, init);
    }
  }

  function Often(p: Patch, ps: seq<Patch>): nat { multiset(ps)[p] }

  lemma OftenSnoc(p: Patch, init: seq<Patch>, last: Patch)
    ensures Often(p, init + [last]) == Often(p, init) + if p == last then 1 else 0
  {}

  lemma {:induction false} OfCounts(o: Origin, ps: seq<Patch>, p: Patch)
    ensures Often(p, Of(o, ps)) == if p.origin == o then Often(p, ps) else 0
    decreases |ps|
  {
    if ps != [] {
      var init, last := ps[..|ps| - 1], ps[|ps| - 1];
      OfCounts(o, init, p);
      hide Of, Often;
      OfSnoc(o, ps);
      assert ps == init + [last];
      OftenSnoc(p, init, last);
      OftenSnoc(p, Of(o, init), last);
      assert Of(o, init) + [] == Of(o, init);
    }
  }

  lemma OfSnoc(o: Origin, ps: seq<Patch>)
    requires ps != []
    ensures Of(o, ps) == Of(o, ps[..|ps| - 1]) + if ps[|ps| - 1].origin == o then [ps[|ps| - 1]] else []
  {
    var init := Of(o, ps[..|ps| - 1]);
    assert init + [] == init;
  }

  lemma FilterCons<A>(keep: A -> bool, x: A, s: seq<A>)
    ensures Filter(keep, [x] + s) == (if keep(x) then [x] else []) + Filter(keep, s)
  {
    assert ([x] + s)[1..] == s;
  }

  lemma {:induction false} FilterSnoc<A>(keep: A -> bool, s: seq<A>, x: A)
    ensures Filter(keep, s + [x]) == Filter(keep, s) + if keep(x) then [x] else []
    decreases |s|
  {
    var last := if keep(x) then [x] else [];
    if s == [] {
      FilterCons(keep, x, []);
      assert s + [x] == [x] + [] && last + [] == [] + last;
    } else {
      hide Filter;
      FilterSnoc(keep, s[1..], x);
      FilterCons(keep, s[0], s[1..] + [x]);
      FilterCons(keep, s[0], s[1..]);
      assert s + [x] == [s[0]] + (s[1..] + [x]) && s == [s[0]] + s[1..];
      Assoc(if keep(s[0]) then [s[0]] else [], Filter(keep, s[1..]), last);
    }
  }

  /** Of the patches that start at one place, the earlier ones come first. */
  lemma PatchesKeepOrder(warnings: seq<seq<Patch>>, perOrigin: map<Origin, seq<Patch>>, o: Origin, k: nat)
    requires Collected(perOrigin, Flatten(warnings)) && o in perOrigin
    ensures At(k, perOrigin[o]) == At(k, Filter((p: Patch) => p.origin == o, Flatten(warnings)))
  {
    OfIsFilter(o, Flatten(warnings));
    SortIsStable(k, Of(o, Flatten(warnings)));
  }

  /** The text that fixing produces for one file. */
  lemma FilesAreFixed(warnings: seq<seq<Patch>>, perOrigin: map<Origin, seq<Patch>>, o: Origin, input: seq<Byte>)
    requires Collected(perOrigin, Flatten(warnings)) && o in perOrigin
    ensures Sorted(perOrigin[o])
    ensures forall p: Patch :: Often(p, perOrigin[o]) == if p.origin == o then Often(p, Flatten(warnings)) else 0
    ensures SpliceFrom(input, 0, perOrigin[o]).Some? <==> Fits(|input|, 0, perOrigin[o])
    ensures Fits(|input|, 0, perOrigin[o]) ==>
              SpliceFrom(input, 0, perOrigin[o]).value == ApplyBackwards(input, 0, perOrigin[o])
  {
    var all := Flatten(warnings);
    assert perOrigin[o] == Sort(Of(o, all));
    hide Sort, Of, SpliceFrom, ApplyBackwards, Fits, Collected, Sorted;
    SortSorts(Of(o, all));
    forall p: Patch ensures Often(p, perOrigin[o]) == if p.origin == o then Often(p, all) else 0 {
      OfCounts(o, all, p);
    }
    SpliceIsApplication(input, 0, perOrigin[o]);
    if Fits(|input|, 0, perOrigin[o]) {
      assert input[..0] + SpliceFrom(input, 0, perOrigin[o]).value == SpliceFrom(input, 0, perOrigin[o]).value;
    }
  }
}
