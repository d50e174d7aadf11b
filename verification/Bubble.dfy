/**
 Reordering of tokens: "air" ascends over "water", other tokens are barriers.
 */
module Bubbles {
  import opened Seqs
  import opened Tokens

  /** A pair of exclusive classes of tokens. */
  datatype Medium = Medium(air: Token -> bool, water: Token -> bool) {
    ghost predicate Valid() {
      forall t :: !(air(t) && water(t))
    }

    predicate Barrier(t: Token) { !air(t) && !water(t) }

    // ----- The streaming specification: water is held back until a barrier

    function Flow(held: seq<Token>, ts: seq<Token>): seq<Token>
      decreases |ts|
    {
      if ts == [] then held
      else if water(ts[0]) then Flow(held + [ts[0]], ts[1..])
      else if air(ts[0]) then [ts[0]] + Flow(held, ts[1..])
      else held + [ts[0]] + Flow([], ts[1..])
    }

    // ----- The reference: a stable partition of each barrier-free segment

    function SegmentEnd(ts: seq<Token>): (n: nat)
      ensures n <= |ts|
      ensures forall i :: 0 <= i < n ==> !Barrier(ts[i])
      ensures n < |ts| ==> Barrier(ts[n])
    {
      if ts == [] || Barrier(ts[0]) then 0 else 1 + SegmentEnd(ts[1..])
    }

    function Partition(ts: seq<Token>): seq<Token> {
      Filter(air, ts) + Filter(water, ts)
    }

    function Sorted(ts: seq<Token>): seq<Token>
      decreases |ts|
    {
      var n := SegmentEnd(ts);
      Partition(ts[..n]) + if n == |ts| then [] else [ts[n]] + Sorted(ts[n + 1..])
    }
  }

  /** The part of the output that follows a segment. */
  function AfterSegment(m: Medium, ts: seq<Token>): seq<Token> {
    var n := m.SegmentEnd(ts);
    if n == |ts| then [] else [ts[n]] + m.Flow([], ts[n + 1..])
  }

  function Part(m: Medium, p: Token -> bool, ts: seq<Token>): seq<Token> {
    Filter(p, ts[..m.SegmentEnd(ts)])
  }

  lemma SegmentGrows(m: Medium, p: Token -> bool, ts: seq<Token>)
    requires ts != [] && !m.Barrier(ts[0])
    ensures Part(m, p, ts) == (if p(ts[0]) then [ts[0]] else []) + Part(m, p, ts[1..])
    ensures AfterSegment(m, ts) == AfterSegment(m, ts[1..])
  {
    var n := m.SegmentEnd(ts);
    assert n == 1 + m.SegmentEnd(ts[1..]);
    assert ts[..n][0] == ts[0] && ts[..n][1..] == ts[1..][..n - 1];
    if n < |ts| {
      assert ts[n] == ts[1..][n - 1] && ts[n + 1..] == ts[1..][n..];
    }
  }

  /** What is held back comes right before the next barrier, after all the air. */
  lemma {:induction false} FlowHolds(m: Medium, held: seq<Token>, ts: seq<Token>)
    requires m.Valid()
    ensures m.Flow(held, ts) == Part(m, m.air, ts) + held + Part(m, m.water, ts) + AfterSegment(m, ts)
    decreases |ts|
  {
    if ts == [] || m.Barrier(ts[0]) {
      assert m.SegmentEnd(ts) == 0 && ts[..0] == [];
      if ts != [] {
        assert held + [ts[0]] + m.Flow([], ts[1..]) == [] + held + [] + ([ts[0]] + m.Flow([], ts[1..]));
      }
    } else {
      var t, rest := ts[0], ts[1..];
      SegmentGrows(m, m.air, ts);
      SegmentGrows(m, m.water, ts);
      var air, water, tail := Part(m, m.air, rest), Part(m, m.water, rest), AfterSegment(m, rest);
      hide Part, AfterSegment;
      if m.water(t) {
        FlowHolds(m, held + [t], rest);
        assert [] + air == air;
        assert air + (held + [t]) + water + tail == air + held + ([t] + water) + tail;
      } else {
        FlowHolds(m, held, rest);
        assert [] + water == water;
        assert [t] + (air + held + water + tail) == ([t] + air) + held + water + tail;
      }
    }
  }

  /** The streaming reordering is the stable partition of every segment. */
  lemma {:induction false} FlowIsSorted(m: Medium, ts: seq<Token>)
    requires m.Valid()
    ensures m.Flow([], ts) == m.Sorted(ts)
    decreases |ts|
  {
    var n := m.SegmentEnd(ts);
    FlowHolds(m, [], ts);
    assert Part(m, m.air, ts) + [] == Part(m, m.air, ts);
    if n < |ts| {
      FlowIsSorted(m, ts[n + 1..]);
    }
  }

  // ----- What the reordering keeps

  /** A projection that ignores water, or one that ignores air, is unchanged. */
  lemma {:induction false} FlowPreserves<X>(m: Medium, f: Token -> seq<X>, held: seq<Token>, ts: seq<Token>)
    requires (forall t :: m.water(t) ==> f(t) == []) || (forall t :: m.air(t) ==> f(t) == [])
    requires (forall t :: m.water(t) ==> f(t) == []) ==> FlatMap(f, held) == []
    ensures FlatMap(f, m.Flow(held, ts)) == FlatMap(f, held) + FlatMap(f, ts)
    decreases |ts|
  {
    hide FlatMap;
    assert FlatMap(f, []) == [] by { FlatMapNothing(f, []); }
    if ts == [] {
      assert FlatMap(f, held) + [] == FlatMap(f, held);
    } else {
      var t, rest := ts[0], ts[1..];
      FlatMapOne(f, t);
      FlatMapCons(f, ts);
      Assoc(FlatMap(f, held), f(t), FlatMap(f, rest));
      assert [] + FlatMap(f, rest) == FlatMap(f, rest);
      if m.water(t) {
        FlatMapConcat(f, held, [t]);
        FlowPreserves(m, f, held + [t], rest);
      } else if m.air(t) {
        FlowPreserves(m, f, held, rest);
        FlatMapConcat(f, [t], m.Flow(held, rest));
        if !(forall u :: m.water(u) ==> f(u) == []) {
          assert f(t) == [];
          assert FlatMap(f, held) + [] == FlatMap(f, held) &&
            [] + FlatMap(f, m.Flow(held, rest)) == FlatMap(f, m.Flow(held, rest));
        } else {
          assert [] + f(t) == f(t);
        }
      } else {
        FlowPreserves(m, f, [], rest);
        FlatMapConcat(f, held + [t], m.Flow([], rest));
        FlatMapConcat(f, held, [t]);
      }
    }
  }

  /** The order of all tokens but the water, and of all tokens but the air, is kept. */
  lemma FlowKeepsOrder(m: Medium, ts: seq<Token>)
    requires m.Valid()
    ensures FlatMap(AllBut(m.water), m.Flow([], ts)) == FlatMap(AllBut(m.water), ts)
    ensures FlatMap(AllBut(m.air), m.Flow([], ts)) == FlatMap(AllBut(m.air), ts)
  {
    FlowPreserves(m, AllBut(m.water), [], ts);
    FlowPreserves(m, AllBut(m.air), [], ts);
    assert FlatMap(AllBut(m.water), ts) == [] + FlatMap(AllBut(m.water), ts);
    assert FlatMap(AllBut(m.air), ts) == [] + FlatMap(AllBut(m.air), ts);
  }

  function AllBut(p: Token -> bool): Token -> seq<Token> {
    t => if p(t) then [] else [t]
  }

  lemma {:induction false} FlowPermutes(m: Medium, held: seq<Token>, ts: seq<Token>)
    ensures multiset(m.Flow(held, ts)) == multiset(held) + multiset(ts)
    decreases |ts|
  {
    if ts != [] {
      var t, rest := ts[0], ts[1..];
      assert ts == [t] + rest;
      if m.water(t) {
        FlowPermutes(m, held + [t], rest);
      } else if m.air(t) {
        FlowPermutes(m, held, rest);
      } else {
        FlowPermutes(m, [], rest);
      }
    }
  }

  /** Within a segment no water comes before air. */
  ghost predicate Settled(m: Medium, ts: seq<Token>) {
    forall i, j :: 0 <= i < j < |ts| && m.water(ts[i]) && m.air(ts[j]) ==>
      exists k :: i < k < j && m.Barrier(ts[k])
  }

  lemma {:induction false} FlowSettles(m: Medium, held: seq<Token>, ts: seq<Token>)
    requires m.Valid()
    requires forall i :: 0 <= i < |held| ==> m.water(held[i])
    ensures Settled(m, m.Flow(held, ts))
    decreases |ts|
  {
    if ts != [] {
      var t, rest := ts[0], ts[1..];
      if m.water(t) {
        FlowSettles(m, held + [t], rest);
      } else if m.air(t) {
        FlowSettles(m, held, rest);
        var tail := m.Flow(held, rest);
        forall i, j | 0 <= i < j < |[t] + tail| && m.water(([t] + tail)[i]) && m.air(([t] + tail)[j])
          ensures exists k :: i < k < j && m.Barrier(([t] + tail)[k])
        {
          var k :| i - 1 < k < j - 1 && m.Barrier(tail[k]);
          assert m.Barrier(([t] + tail)[k + 1]);
        }
      } else {
        FlowSettles(m, [], rest);
        BarrierSettles(m, held, t, m.Flow([], rest));
      }
    }
  }

  lemma BarrierSettles(m: Medium, held: seq<Token>, t: Token, tail: seq<Token>)
    requires m.Valid() && m.Barrier(t) && Settled(m, tail)
    requires forall i :: 0 <= i < |held| ==> m.water(held[i])
    ensures Settled(m, held + [t] + tail)
  {
    var all, n := held + [t] + tail, |held| + 1;
    forall i, j | 0 <= i < j < |all| && m.water(all[i]) && m.air(all[j])
      ensures exists k :: i < k < j && m.Barrier(all[k])
    {
      assert j >= n;
      if i < n {
        assert m.Barrier(all[n - 1]);
      } else {
        var k :| i - n < k < j - n && m.Barrier(tail[k]);
        assert m.Barrier(all[k + n]);
      }
    }
  }

  /** A settled stream stays as it is. */
  lemma {:induction false} SettledIsFixed(m: Medium, held: seq<Token>, ts: seq<Token>)
    requires m.Valid() && Settled(m, held + ts)
    requires forall i :: 0 <= i < |held| ==> m.water(held[i])
    ensures m.Flow(held, ts) == held + ts
    decreases |ts|
  {
    if ts != [] {
      var t, rest := ts[0], ts[1..];
      assert held + ts == (held + [t]) + rest;
      if m.water(t) {
        SettledIsFixed(m, held + [t], rest);
      } else if m.air(t) {
        if held != [] { NoAirAfterWater(m, held, ts); }
        assert held + ts == [t] + rest;
        SettledTail(m, [t], rest);
        assert [] + rest == rest;
        SettledIsFixed(m, [], rest);
      } else {
        SettledTail(m, held + [t], rest);
        assert [] + rest == rest;
        SettledIsFixed(m, [], rest);
      }
    }
  }

  lemma NoAirAfterWater(m: Medium, held: seq<Token>, ts: seq<Token>)
    requires Settled(m, held + ts) && held != [] && ts != []
    requires forall i :: 0 <= i < |held| ==> m.water(held[i])
    ensures !m.air(ts[0])
  {
    var all, n := held + ts, |held|;
    assert all[n - 1] == held[n - 1] && all[n] == ts[0];
    assert m.water(all[n - 1]);
  }

  lemma SettledTail(m: Medium, a: seq<Token>, b: seq<Token>)
    requires Settled(m, a + b)
    ensures Settled(m, b)
  {
    var all := a + b;
    forall i, j | 0 <= i < j < |b| && m.water(b[i]) && m.air(b[j])
      ensures exists k :: i < k < j && m.Barrier(b[k])
    {
      assert all[i + |a|] == b[i] && all[j + |a|] == b[j];
      var k :| i + |a| < k < j + |a| && m.Barrier(all[k]);
      assert b[k - |a|] == all[k];
    }
  }

  /** Applying the reordering twice changes nothing. */
  lemma FlowIsIdempotent(m: Medium, ts: seq<Token>)
    requires m.Valid()
    ensures m.Flow([], m.Flow([], ts)) == m.Flow([], ts)
  {
    var out := m.Flow([], ts);
    FlowSettles(m, [], ts);
    assert [] + out == out;
    SettledIsFixed(m, [], out);
  }

  class Bubble {
    const medium: Medium
    var input: seq<Token>
    var inputBuffer: seq<Token>
    var outputBuffer: seq<Token>

    /** Everything that the iterator will still return. */
    ghost function Remaining(): seq<Token>
      reads this
    {
      outputBuffer + medium.Flow(inputBuffer, input)
    }

    constructor (medium: Medium, input: seq<Token>)
      requires medium.Valid()
      ensures this.medium == medium && Remaining() == medium.Flow([], input)
    {
      this.medium := medium;
      this.input := input;
      inputBuffer, outputBuffer := [], [];
    }

    method Next() returns (r: Option<Token>)
      requires medium.Valid()
      modifies this
      ensures r.Some? ==> old(Remaining()) == [r.value] + Remaining()
      ensures r.None? ==> old(Remaining()) == [] && Remaining() == []
    {
      if outputBuffer != [] {
        r := PopOutput();
        return;
      }
      while input != []
        invariant outputBuffer == [] && Remaining() == old(Remaining())
        decreases |input|
      {
        var token := input[0];
        input := input[1..];
        assert !(medium.air(token) && medium.water(token));
        if medium.water(token) {
          inputBuffer := inputBuffer + [token];
        } else if medium.air(token) {
          outputBuffer := outputBuffer + [token];
          r := PopOutput();
          return;
        } else {
          outputBuffer, inputBuffer := outputBuffer + inputBuffer, [];
          outputBuffer := outputBuffer + [token];
          r := PopOutput();
          return;
        }
      }
      outputBuffer, inputBuffer := outputBuffer + inputBuffer, [];
      if outputBuffer == [] {
        return None;
      }
      r := PopOutput();
    }

    method PopOutput() returns (r: Option<Token>)
      requires outputBuffer != []
      modifies this`outputBuffer
      ensures r.Some? && old(Remaining()) == [r.value] + Remaining()
    {
      r := Some(outputBuffer[0]);
      assert outputBuffer == [outputBuffer[0]] + outputBuffer[1..];
      outputBuffer := outputBuffer[1..];
    }
  }
}
