/** Removal of the blanks that precede a newline. */
module TrailingSpaces {
  import opened Seqs
  import opened Tokens

  predicate IsControl(t: Token) { Is(t, CONTROL) }

  // ----- The streaming specification: blanks wait in a buffer

  function Trim(buffer: seq<Token>, ts: seq<Token>): seq<Token>
    decreases |ts|
  {
    if ts == [] then buffer
    else if ts[0].Newline? then Filter(IsControl, buffer) + [ts[0]] + Trim([], ts[1..])
    else if IsBlank(ts[0]) || IsControl(ts[0]) then Trim(buffer + [ts[0]], ts[1..])
    else buffer + [ts[0]] + Trim([], ts[1..])
  }

  // ----- The reference: a blank stays unless its line ends before any other text

  /** Only blanks and control tokens come before the next newline. */
  predicate AtLineEnd(ts: seq<Token>) {
    ts != [] && (ts[0].Newline? || ((IsBlank(ts[0]) || IsControl(ts[0])) && AtLineEnd(ts[1..])))
  }

  function Strip(ts: seq<Token>): seq<Token> {
    if ts == [] then []
    else if IsBlank(ts[0]) && AtLineEnd(ts[1..]) then Strip(ts[1..])
    else [ts[0]] + Strip(ts[1..])
  }

  ghost predicate Waiting(buffer: seq<Token>) {
    forall i :: 0 <= i < |buffer| ==> IsBlank(buffer[i]) || IsControl(buffer[i])
  }

  lemma {:induction false} AtLineEndWaiting(buffer: seq<Token>, rest: seq<Token>)
    requires Waiting(buffer)
    ensures AtLineEnd(buffer + rest) == AtLineEnd(rest)
  {
    if buffer == [] {
      assert buffer + rest == rest;
    } else {
      assert (buffer + rest)[0] == buffer[0] && (buffer + rest)[1..] == buffer[1..] + rest;
      AtLineEndWaiting(buffer[1..], rest);
    }
  }

  /** What is left of a buffer before the rest. */
  function Kept(buffer: seq<Token>, rest: seq<Token>): seq<Token> {
    if AtLineEnd(rest) then Filter(IsControl, buffer) else buffer
  }

  lemma {:induction false} StripWaiting(buffer: seq<Token>, rest: seq<Token>)
    requires Waiting(buffer)
    ensures Strip(buffer + rest) == Kept(buffer, rest) + Strip(rest)
  {
    if buffer == [] {
      assert buffer + rest == rest && Kept(buffer, rest) == [];
    } else {
      var t, others := buffer[0], buffer[1..];
      assert buffer == [t] + others;
      Assoc([t], others, rest);
      StripWaiting(others, rest);
      KeptCons(t, others, rest);
      StripCons(t, others + rest);
      AtLineEndWaiting(others, rest);
      hide Strip, AtLineEnd, Filter, IsControl, Waiting, Kept;
      Assoc([t], Kept(others, rest), Strip(rest));
    }
  }

  lemma KeptCons(t: Token, others: seq<Token>, rest: seq<Token>)
    requires IsBlank(t) || IsControl(t)
    ensures Kept([t] + others, rest) == if IsBlank(t) &&
        AtLineEnd(rest) then Kept(others, rest) else [t] + Kept(others, rest)
  {
    KeepsControl(t, others);
  }

  lemma KeepsControl(t: Token, ts: seq<Token>)
    requires IsBlank(t) || IsControl(t)
    ensures Filter(IsControl, [t] + ts) == if IsBlank(t) then Filter(IsControl, ts) else [t] + Filter(IsControl, ts)
  {
    assert ([t] + ts)[1..] == ts;
    var kept := Filter(IsControl, ts);
    assert [] + kept == kept;
  }

  lemma StripCons(t: Token, ts: seq<Token>)
    ensures Strip([t] + ts) == if IsBlank(t) && AtLineEnd(ts) then Strip(ts) else [t] + Strip(ts)
  {
    assert ([t] + ts)[1..] == ts;
  }

  lemma TrimEmits(buffer: seq<Token>, t: Token, rest: seq<Token>)
    requires Waiting(buffer) && (t.Newline? || !(IsBlank(t) || IsControl(t)))
    ensures Strip(buffer + [t] + rest) == (if t.Newline? then Filter(IsControl, buffer) else buffer) + [t] + Strip(rest)
  {
    StripWaiting(buffer, [t] + rest);
    StripCons(t, rest);
    Assoc(buffer, [t], rest);
    hide Filter, Strip, Waiting;
    Assoc(if t.Newline? then Filter(IsControl, buffer) else buffer, [t], Strip(rest));
  }

  /** Buffering in a single pass removes exactly the trailing blanks. */
  lemma {:induction false} TrimIsStrip(buffer: seq<Token>, ts: seq<Token>)
    requires Waiting(buffer)
    ensures Trim(buffer, ts) == Strip(buffer + ts)
    decreases |ts|
  {
    hide Filter, Strip, AtLineEnd;
    if ts == [] {
      StripWaiting(buffer, []);
      StripNothing();
      assert buffer + [] == buffer;
    } else {
      var t, rest := ts[0], ts[1..];
      assert buffer + ts == buffer + [t] + rest;
      if !t.Newline? && (IsBlank(t) || IsControl(t)) {
        TrimIsStrip(buffer + [t], rest);
      } else {
        TrimIsStrip([], rest);
        assert [] + rest == rest;
        TrimEmits(buffer, t, rest);
      }
    }
  }

  lemma StripNothing()
    ensures Strip([]) == [] && !AtLineEnd([])
  {}

  /** No blank ends a line. */
  predicate Stripped(ts: seq<Token>) {
    ts == [] || ((IsBlank(ts[0]) ==> !AtLineEnd(ts[1..])) && Stripped(ts[1..]))
  }

  lemma {:induction false} StripStrips(ts: seq<Token>)
    ensures Stripped(Strip(ts)) && AtLineEnd(Strip(ts)) == AtLineEnd(ts)
  {
    if ts != [] {
      StripStrips(ts[1..]);
    }
  }

  /** No blank ends a line of the output, and a stream without such blanks stays as it is. */
  lemma {:induction false} TrimStrips(ts: seq<Token>)
    ensures Stripped(Trim([], ts))
    ensures Trim([], ts) == ts <==> Stripped(ts)
  {
    TrimIsStrip([], ts);
    assert [] + ts == ts;
    StripStrips(ts);
    if Stripped(ts) {
      StrippedStays(ts);
    }
  }

  lemma {:induction false} StrippedStays(ts: seq<Token>)
    requires Stripped(ts)
    ensures Strip(ts) == ts
  {
    if ts != [] {
      StrippedStays(ts[1..]);
    }
  }

  /** Nothing but blanks is lost. */
  lemma {:induction false} TrimPreserves<X>(f: Token -> seq<X>, buffer: seq<Token>, ts: seq<Token>)
    requires f(Whitespace) == [] && f(Tab) == []
    requires Waiting(buffer)
    ensures FlatMap(f, Trim(buffer, ts)) == FlatMap(f, buffer) + FlatMap(f, ts)
    decreases |ts|
  {
    hide FlatMap, Filter;
    assert FlatMap(f, []) == [] by { FlatMapNothing(f, []); }
    if ts == [] {
      assert FlatMap(f, buffer) + [] == FlatMap(f, buffer);
    } else {
      var t, rest := ts[0], ts[1..];
      FlatMapOne(f, t);
      FlatMapCons(f, ts);
      Assoc(FlatMap(f, buffer), f(t), FlatMap(f, rest));
      assert [] + FlatMap(f, rest) == FlatMap(f, rest);
      if !t.Newline? && (IsBlank(t) || IsControl(t)) {
        FlatMapConcat(f, buffer, [t]);
        TrimPreserves(f, buffer + [t], rest);
      } else {
        TrimPreserves(f, [], rest);
        FlatMapFilter(f, IsControl, buffer);
        var kept := if t.Newline? then Filter(IsControl, buffer) else buffer;
        FlatMapConcat(f, kept + [t], Trim([], rest));
        FlatMapConcat(f, kept, [t]);
      }
    }
  }

  class RemoveTrailingSpaces {
    var input: seq<Token>
    var outputBuffer: seq<Token>

    /**
     Everything that the iterator will still return. Once a token has been
     returned, the rest of the buffer is returned before more input is read.
     */
    ghost function Remaining(): seq<Token>
      reads this
    {
      outputBuffer + Trim([], input)
    }

    constructor (input: seq<Token>)
      ensures Remaining() == Trim([], input)
    {
      this.input := input;
      outputBuffer := [];
    }

    method Next() returns (r: Option<Token>)
      modifies this
      ensures r.Some? ==> old(Remaining()) == [r.value] + Remaining()
      ensures r.None? ==> old(Remaining()) == [] && Remaining() == []
    {
      if outputBuffer != [] {
        r := PopOutput();
        return;
      }
      while input != []
        invariant Waiting(outputBuffer)
        invariant Trim(outputBuffer, input) == old(Remaining())
        decreases |input|
      {
        var next := input[0];
        input := input[1..];
        if IsBlank(next) {
          outputBuffer := outputBuffer + [next];
        } else if next.Newline? {
          outputBuffer := Filter(IsControl, outputBuffer);
          outputBuffer := outputBuffer + [next];
          r := PopOutput();
          return;
        } else {
          outputBuffer := outputBuffer + [next];
          if !IsControl(next) {
            r := PopOutput();
            return;
          }
        }
      }
      if outputBuffer == [] {
        return None;
      }
      assert outputBuffer + Trim([], input) == outputBuffer;
      r := PopOutput();
    }

    method PopOutput() returns (r: Option<Token>)
      requires outputBuffer != []
      modifies this`outputBuffer
      ensures r.Some? && old(Remaining()) == [r.value] + Remaining()
    {
      r := Some(outputBuffer[0]);
      assert outputBuffer == [outputBuffer[0]] + outputBuffer[1..];
      outputBuffer := outputBuffer[1..];
    }
  }
}
