/**
 The buffers between the formatter and Python streams. A text-mode writer only
 hands over whole UTF-8 characters; a reader returns the bytes of the stream in
 whatever sizes it is asked for.
 */
module PyIo {
  import opened Bytes
  import opened Seqs
  import opened Utf8

  // ----- Writing

  datatype WriteResult = Written(count: nat) | InvalidData

  /** What one write to a text stream does to the buffer and hands over to Python. */
  datatype Effect = Effect(ok: bool, emitted: seq<Byte>, buffer: seq<Byte>)

  function Accept(buffer: seq<Byte>, chunk: seq<Byte>): Effect {
    var all := buffer + chunk;
    match Check(all)
    case Complete => Effect(true, all, [])
    case Truncated(n) => Effect(true, all[..n], all[n..])
    case Invalid(_, _) => Effect(false, [], all)
  }

  /** The effect of a list of writes, which stops at the first error. */
  function AcceptAll(buffer: seq<Byte>, chunks: seq<seq<Byte>>): Effect
    decreases |chunks|
  {
    if chunks == [] then Effect(true, [], buffer)
    else
      var first := Accept(buffer, chunks[0]);
      if !first.ok then first
      else
        var rest := AcceptAll(first.buffer, chunks[1..]);
        Effect(rest.ok, first.emitted + rest.emitted, rest.buffer)
  }

  /** An incomplete character, or nothing. */
  predicate Pending(buffer: seq<Byte>) {
    buffer == [] || Check(buffer) == Truncated(0)
  }

  lemma AcceptKeeps(buffer: seq<Byte>, chunk: seq<Byte>)
    ensures
      var e := Accept(buffer, chunk);
      && e.emitted + e.buffer == buffer + chunk
      && Valid(e.emitted)
      && (e.ok ==> Pending(e.buffer) && |e.buffer| <= 3)
      && (e.ok <==> Extendable(buffer + chunk))
  {
    var all := buffer + chunk;
    CheckPrefix(all);
    CheckIsValid(all);
    InvalidIsHopeless(all);
    assert Valid([]);
    hide Check, Valid, Extendable;
    if Check(all).Truncated? {
      var n := Check(all).validUpTo;
      assert all[..n] + all[n..] == all;
    } else {
      assert all + [] == all && [] + all == all;
    }
  }

  lemma ExtendableAfterValid(e: seq<Byte>, s: seq<Byte>)
    requires Valid(e)
    ensures Extendable(e + s) <==> Extendable(s)
  {
    CheckAfterValid(e, s);
    InvalidIsHopeless(e + s);
    InvalidIsHopeless(s);
  }

  lemma PrefixIsExtendable(s: seq<Byte>, t: seq<Byte>)
    requires Extendable(s + t)
    ensures Extendable(s)
  {
    var u :| Valid(s + t + u);
    assert s + t + u == s + (t + u);
    assert Valid(s + (t + u));
  }

  /**
   For any division of a text into chunks: nothing is lost, only valid UTF-8 is
   handed over, at most three bytes are pending; and the writes succeed exactly
   if the bytes accepted can be continued to valid UTF-8.
   */
  lemma {:induction false} WritesFollowTheText(buffer: seq<Byte>, chunks: seq<seq<Byte>>)
    requires Pending(buffer) && |buffer| <= 3
    ensures
      var e := AcceptAll(buffer, chunks);
      && Valid(e.emitted)
      && (e.ok ==> e.emitted + e.buffer == buffer + Flatten(chunks) && Pending(e.buffer) && |e.buffer| <= 3)
      && (e.ok <==> Extendable(buffer + Flatten(chunks)))
    decreases |chunks|
  {
    hide Valid;
    hide Check;
    hide Accept;
    hide Extendable;
    if chunks == [] {
      NothingIsValid();
      InvalidIsHopeless(buffer);
      assert [] + buffer == buffer && buffer + [] == buffer;
    } else {
      var first, rest := Accept(buffer, chunks[0]), Flatten(chunks[1..]);
      AcceptKeeps(buffer, chunks[0]);
      assert buffer + (chunks[0] + rest) == buffer + chunks[0] + rest;
      if first.ok {
        WritesFollowTheText(first.buffer, chunks[1..]);
        var more := AcceptAll(first.buffer, chunks[1..]);
        assert first.emitted + (first.buffer + rest) == buffer + chunks[0] + rest;
        ExtendableAfterValid(first.emitted, first.buffer + rest);
        ValidConcat(first.emitted, more.emitted);
        assert first.emitted + more.emitted + more.buffer == first.emitted + (more.emitted + more.buffer);
      } else if Extendable(buffer + chunks[0] + rest) {
        PrefixIsExtendable(buffer + chunks[0], rest);
      }
    }
  }

  lemma FailureEmitsNothing(buffer: seq<Byte>, chunk: seq<Byte>)
    ensures !Accept(buffer, chunk).ok ==> Accept(buffer, chunk).emitted == []
  {}

  lemma NothingIsValid()
    ensures Valid([]) && Check([]) == Complete
  {}

  lemma ValidConcat(a: seq<Byte>, b: seq<Byte>)
    requires Valid(a) && Valid(b)
    ensures Valid(a + b)
  {
    CheckAfterValid(a, b);
    CheckIsValid(b);
    CheckIsValid(a + b);
  }

  /** Valid UTF-8 in any chunks goes through without error and leaves nothing behind. */
  lemma ValidTextIsWritten(chunks: seq<seq<Byte>>)
    requires Valid(Flatten(chunks))
    ensures AcceptAll([], chunks) == Effect(true, Flatten(chunks), [])
  {
    var all, e := Flatten(chunks), AcceptAll([], chunks);
    assert [] + all == all && all + [] == all;
    assert Valid(all + []);
    WritesFollowTheText([], chunks);
    CheckAfterValid(e.emitted, e.buffer);
    CheckIsValid(all);
    assert e.buffer == [];
    assert e.emitted + [] == e.emitted;
  }

  class PyWriter {
    const isTextIo: bool
    var buffer: seq<Byte>
    ghost var received: seq<Byte>  // all that the Python object has been given

    constructor (isTextIo: bool)
      ensures this.isTextIo == isTextIo && buffer == [] && received == []
    {
      this.isTextIo := isTextIo;
      buffer, received := [], [];
    }

    /** `count` is what the Python object returns, which matters in binary mode only. */
    method Write(buf: seq<Byte>, count: nat) returns (r: WriteResult)
      modifies this
      ensures !isTextIo ==> r == Written(count) && received == old(received) + buf && buffer == old(buffer)
      ensures isTextIo ==>
                var e := Accept(old(buffer), buf);
                && buffer == e.buffer && received == old(received) + e.emitted
                && r == if e.ok then Written(|buf|) else InvalidData
    {
      if !isTextIo {
        received := received + buf;
        return Written(count);
      }
      buffer := buffer + buf;
      match Check(buffer) {
        case Complete =>
          received := received + buffer;
          buffer := [];
          r := Written(|buf|);
        case Invalid(_, _) =>
          assert received + [] == received;
          r := InvalidData;
        case Truncated(validLen) =>
          if validLen > 0 {
            CheckPrefix(buffer);
            assert Valid(buffer[..validLen]);
            received := received + buffer[..validLen];
            buffer := buffer[validLen..];
          } else {
            assert received + buffer[..0] == received && buffer[0..] == buffer;
          }
          r := Written(|buf|);
      }
    }

    /** Writes a list of chunks, up to the first error. */
    method WriteAll(chunks: seq<seq<Byte>>) returns (ok: bool)
      requires isTextIo && buffer == [] && received == []
      modifies this
      ensures ok <==> Extendable(Flatten(chunks))
      ensures Valid(received)
      ensures ok ==> received + buffer == Flatten(chunks) && |buffer| <= 3
      ensures Valid(Flatten(chunks)) ==> ok && received == Flatten(chunks) && buffer == []
    {
      NothingIsValid();
      hide Valid;
      hide Check;
      hide Accept;
      WritesFollowTheText([], chunks);
      assert [] + Flatten(chunks) == Flatten(chunks);
      if Valid(Flatten(chunks)) { ValidTextIsWritten(chunks); }
      ghost var all := AcceptAll([], chunks);
      for i := 0 to |chunks|
        invariant isTextIo
        invariant
          var rest := AcceptAll(buffer, chunks[i..]);
          all == Effect(rest.ok, received + rest.emitted, rest.buffer)
      {
        ghost var before, beforeBuffer := received, buffer;
        assert chunks[i..][1..] == chunks[i + 1..];
        var r := Write(chunks[i], 0);
        if r == InvalidData {
          FailureEmitsNothing(beforeBuffer, chunks[i]);
          return false;
        }
        ghost var emitted, rest := Accept(beforeBuffer, chunks[i]).emitted, AcceptAll(buffer, chunks[i + 1..]);
        assert before + (emitted + rest.emitted) == received + rest.emitted;
      }
      assert received + [] == received;
      ok := true;
    }
  }

  // ----- Reading

  function Smaller(a: nat, b: nat): (n: nat)
    ensures n <= a && n <= b
  {
    if a < b then a else b
  }

  lemma TakenFirst(bytes: seq<Byte>, n: nat, more: seq<Byte>)
    requires n <= |bytes|
    ensures bytes + more == bytes[..n] + (bytes[n..] + more)
  {}

  lemma FlattenFirst(parts: seq<seq<Byte>>)
    requires parts != []
    ensures Flatten(parts) == parts[0] + Flatten(parts[1..])
  {}

  class PyReader {
    /** What the Python object returns from its next calls of `read`; nothing means the end. */
    var source: seq<seq<Byte>>
    var buffer: seq<Byte>

    /** The bytes that have not been returned yet. */
    function Rest(): seq<Byte>
      reads this
    {
      buffer + Flatten(source)
    }

    constructor (source: seq<seq<Byte>>)
      ensures this.source == source && Rest() == Flatten(source)
    {
      this.source := source;
      buffer := [];
      new;
      assert [] + Flatten(source) == Flatten(source);
    }

    /** What can be returned without another call of `read` than the next one. */
    function Front(): seq<Byte>
      reads this
    {
      if buffer != [] then buffer else if source != [] then source[0] else []
    }

    method Read(size: nat) returns (out: seq<Byte>)
      modifies this
      ensures |out| <= size && old(Rest()) == out + Rest()
      ensures out == old(Front()[..Smaller(size, |Front()|)])
      ensures out == [] ==> size == 0 || (old(buffer) == [] && (old(source) == [] || old(source)[0] == []))
      ensures source == old(source) || (old(source) != [] && source == old(source)[1..])
    {
      hide Flatten;
      if size == 0 {
        return [];
      }
      if buffer != [] {
        var n := if size < |buffer| then size else |buffer|;
        out := buffer[..n];
        TakenFirst(buffer, n, Flatten(source));
        buffer := buffer[n..];
        return;
      }
      if source == [] {
        return [];
      }
      var bytes := source[0];
      FlattenFirst(source);
      source := source[1..];
      if bytes == [] {
        assert [] + Flatten(source) == Flatten(source);
        return [];
      }
      var n := if size < |bytes| then size else |bytes|;
      out := bytes[..n];
      TakenFirst(bytes, n, Flatten(source));
      assert [] + (bytes + Flatten(source)) == bytes + Flatten(source);
      if n < |bytes| {
        assert buffer + bytes[n..] == bytes[n..];
        buffer := buffer + bytes[n..];
      } else {
        assert bytes[n..] == [];
      }
    }

    /** Reading to the end returns the whole stream, whatever the sizes asked for. */
    method ReadToEnd(sizes: nat -> nat) returns (all: seq<Byte>)
      requires buffer == [] && (forall i :: 0 <= i < |source| ==> |source[i]| > 0)
      requires forall i :: sizes(i) > 0
      modifies this
      ensures all == old(Flatten(source))
    {
      all := [];
      var i := 0;
      while true
        invariant all + Rest() == old(Flatten(source))
        invariant forall i :: 0 <= i < |source| ==> |source[i]| > 0
        decreases |Rest()|
      {
        var out := Read(sizes(i));
        if out == [] {
          return;
        }
        all := all + out;
        i := i + 1;
      }
    }
  }
}
