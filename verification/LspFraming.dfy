/**
 The `Content-Length` framing of the Language Server Protocol, as described in
 the section "Base Protocol" of its specification, version 3.17.
 */
module LspFraming {
  import opened Bytes
  import opened Seqs
  import opened Decimal
  import opened CodePoints
  import Utf8

  /** A text as a sequence of code points. */
  type Text = seq<nat>

  const CR := 13
  const LF := 10
  const CRLF2: seq<Byte> := [CR, LF, CR, LF]

  /** The largest `usize` of the target, which is 32-bit WebAssembly. */
  const USIZE_MAX := 0xFFFF_FFFF

  /** "Content-Length" and "content-length". */
  const NAME: seq<Byte> := [67, 111, 110, 116, 101, 110, 116, 45, 76, 101, 110, 103, 116, 104]
  const LOWER_NAME: Text := [99, 111, 110, 116, 101, 110, 116, 45, 108, 101, 110, 103, 116, 104]

  // ----- Making a frame

  function Numeric(d: int): Byte
    requires 0 <= d < 10
  {
    48 + d
  }

  function Numeral(n: nat): (r: seq<Byte>)
    ensures |r| == |Digits(n)|
  {
    seq(|Digits(n)|, i requires 0 <= i < |Digits(n)| => Numeric(Digits(n)[i]))
  }

  function Header(n: nat): seq<Byte> {
    NAME + [58, 32] + Numeral(n)
  }

  function Frame(body: seq<Byte>): (r: seq<Byte>)
    ensures |r| > |body|
  {
    Header(|body|) + CRLF2 + body
  }

  function Frames(bodies: seq<seq<Byte>>): seq<Byte> {
    if bodies == [] then [] else Frame(bodies[0]) + Frames(bodies[1..])
  }

  // ----- Taking a frame apart

  /** The first position, from `i` on, at which the header ends. */
  function HeaderEnd(buf: seq<Byte>, i: nat): (r: Option<nat>)
    ensures r.Some? ==> i <= r.value && r.value + 4 <= |buf|
    decreases |buf| - i
  {
    if i + 4 > |buf| then None
    else if buf[i..i + 4] == CRLF2 then Some(i)
    else HeaderEnd(buf, i + 1)
  }

  /** The position of the first `c`, or the length if there is none. */
  function Find(s: Text, c: nat): (n: nat)
    ensures n <= |s| && (n < |s| ==> s[n] == c)
    ensures c !in s[..n]
  {
    if s == [] || s[0] == c then 0
    else
      var n := Find(s[1..], c);
      assert s[..n + 1] == [s[0]] + s[1..][..n];
      n + 1
  }

  /** White space in the sense of Unicode. */
  predicate IsSpace(c: nat) {
    9 <= c <= 13 || c == 32 || c == 0x85 || c == 0xA0 || c == 0x1680 || 0x2000 <= c <= 0x200A
    || c == 0x2028 || c == 0x2029 || c == 0x202F || c == 0x205F || c == 0x3000
  }

  function TrimStart(s: Text): Text {
    if s != [] && IsSpace(s[0]) then TrimStart(s[1..]) else s
  }

  function TrimEnd(s: Text): Text {
    if s != [] && IsSpace(s[|s| - 1]) then TrimEnd(s[..|s| - 1]) else s
  }

  function Trim(s: Text): Text { TrimEnd(TrimStart(s)) }

  function Lower(c: nat): nat { if 65 <= c <= 90 then c + 32 else c }

  predicate SameIgnoringCase(s: Text, lower: Text) {
    |s| == |lower| && forall i :: 0 <= i < |s| ==> Lower(s[i]) == lower[i]
  }

  /** A decimal numeral, with an optional plus sign, that fits a `usize`. */
  function ParseUsize(s: Text): Option<nat> {
    var ds := if s != [] && s[0] == 43 then s[1..] else s;
    if ds == [] || exists i :: 0 <= i < |ds| && !(48 <= ds[i] <= 57) then None
    else
      var v := Value(seq(|ds|, i requires 0 <= i < |ds| => ds[i] - 48));
      if v > USIZE_MAX then None else Some(v)
  }

  /** A line without its terminator. */
  function WithoutEnd(line: Text): Text {
    if line != [] && line[|line| - 1] == CR then line[..|line| - 1] else line
  }

  /** The declared length; a line without a colon ends the search. */
  function ContentLength(text: Text): Option<nat>
    decreases |text|
  {
    if text == [] then None
    else
      var n := Find(text, LF);
      var line := if n == |text| then text else WithoutEnd(text[..n]);
      var colon := Find(line, 58);
      if colon == |line| then None
      else if SameIgnoringCase(Trim(line[..colon]), LOWER_NAME) then ParseUsize(Trim(line[colon + 1..]))
      else if n == |text| then None
      else ContentLength(text[n + 1..])
  }

  function ParseContentLength(header: seq<Byte>): Option<nat> {
    if Utf8.Valid(header) then ContentLength(Decode(header)) else None
  }

  /** The first message of the buffer and what follows it, if it is complete. */
  function Take(buffer: seq<Byte>): (r: Option<(seq<Byte>, seq<Byte>)>)
    ensures r.Some? ==> |r.value.1| + 4 <= |buffer|
  {
    var end := HeaderEnd(buffer, 0);
    if end.None? then None
    else
      var length := ParseContentLength(buffer[..end.value]);
      if length.None? then None
      else
        var start := end.value + 4;
        var total := start + length.value;
        if |buffer| < total then None else Some((buffer[start..total], buffer[total..]))
  }

  /** All the complete messages of the buffer, and what is left of it. */
  function TakeAll(buffer: seq<Byte>): (seq<seq<Byte>>, seq<Byte>)
    decreases |buffer|
  {
    match Take(buffer)
    case None => ([], buffer)
    case Some((body, rest)) =>
      var (more, left) := TakeAll(rest);
      ([body] + more, left)
  }

  // ----- The way a stream is cut does not matter

  lemma {:induction false} HeaderEndStays(b: seq<Byte>, c: seq<Byte>, i: nat)
    requires HeaderEnd(b, i).Some?
    ensures HeaderEnd(b + c, i) == HeaderEnd(b, i)
    decreases |b| - i
  {
    assert (b + c)[i..i + 4] == b[i..i + 4];
    if b[i..i + 4] != CRLF2 {
      HeaderEndStays(b, c, i + 1);
    }
  }

  /** A message that can be taken is the same whatever follows. */
  lemma TakeStays(b: seq<Byte>, c: seq<Byte>)
    requires Take(b).Some?
    ensures Take(b + c) == Some((Take(b).value.0, Take(b).value.1 + c))
  {
    hide ParseContentLength, HeaderEnd;
    HeaderEndStays(b, c, 0);
    var end := HeaderEnd(b, 0).value;
    assert (b + c)[..end] == b[..end];
    var total := end + 4 + ParseContentLength(b[..end]).value;
    assert (b + c)[end + 4..total] == b[end + 4..total];
    assert (b + c)[total..] == b[total..] + c;
  }

  /** Taking messages in two steps, as data arrive, gives the same as in one. */
  lemma {:induction false} TakeAllInSteps(b: seq<Byte>, c: seq<Byte>)
    ensures
      var (first, left) := TakeAll(b);
      var (second, last) := TakeAll(left + c);
      TakeAll(b + c) == (first + second, last)
    decreases |b|
  {
    hide Take;
    if Take(b).None? {
      var (second, _) := TakeAll(b + c);
      assert [] + second == second;
    } else {
      var (body, rest) := Take(b).value;
      TakeStays(b, c);
      TakeAllInSteps(rest, c);
      var (more, left) := TakeAll(rest);
      var (second, _) := TakeAll(left + c);
      assert [body] + (more + second) == [body] + more + second;
    }
  }

  // ----- What is framed is taken back

  lemma HeaderIsPlain(n: nat)
    ensures CR !in Header(n) && LF !in Header(n)
    ensures forall i :: 0 <= i < |Header(n)| ==> Header(n)[i] < 128
  {}

  lemma {:induction false} HeaderEndsHere(h: seq<Byte>, rest: seq<Byte>, i: nat)
    requires CR !in h && i <= |h|
    ensures HeaderEnd(h + CRLF2 + rest, i) == Some(|h|)
    decreases |h| - i
  {
    var buf := h + CRLF2 + rest;
    if i < |h| {
      assert buf[i..i + 4][0] == h[i];
      HeaderEndsHere(h, rest, i + 1);
    } else {
      assert buf[i..i + 4] == CRLF2;
    }
  }

  lemma {:induction false} DecodeAscii(s: seq<Byte>)
    requires forall i :: 0 <= i < |s| ==> s[i] < 128
    ensures Utf8.Valid(s) && Decode(s) == s
    decreases |s|
  {
    if s != [] {
      DecodeAscii(s[1..]);
      assert Utf8.Good(s, 1) == 1;
    }
  }

  lemma {:induction false} FindFirst(s: Text, c: nat, k: nat)
    requires k <= |s| && c !in s[..k] && (k < |s| ==> s[k] == c)
    ensures Find(s, c) == k
  {
    if k > 0 {
      assert s[0] == s[..k][0];
      assert s[1..][..k - 1] == s[..k][1..];
      FindFirst(s[1..], c, k - 1);
    }
  }

  lemma TrimName()
    ensures Trim(NAME) == NAME && SameIgnoringCase(NAME, LOWER_NAME)
  {}

  lemma TrimNumeral(n: nat)
    ensures Trim([32] + Numeral(n)) == Numeral(n)
  {
    var s: Text := [32] + Numeral(n);
    assert s[1..] == Numeral(n);
    assert TrimStart(s) == TrimStart(s[1..]);
    var digits: Text := Numeral(n);
    assert !IsSpace(digits[0]) && !IsSpace(digits[|digits| - 1]);
  }

  lemma ParseNumeral(n: nat)
    requires n <= USIZE_MAX
    ensures ParseUsize(Numeral(n)) == Some(n)
  {
    var s: Text := Numeral(n);
    ValueOfDigits(n);
    assert s != [] && s[0] != 43;
    assert seq(|s|, i requires 0 <= i < |s| => s[i] - 48) == Digits(n);
  }

  lemma HeaderParses(n: nat)
    requires n <= USIZE_MAX
    ensures ParseContentLength(Header(n)) == Some(n)
  {
    var h := Header(n);
    HeaderIsPlain(n);
    DecodeAscii(h);
    var text: Text := h;
    FindFirst(text, LF, |h|);
    assert text[..14] == NAME && text[14] == 58;
    FindFirst(text, 58, 14);
    assert text[15..] == [32] + Numeral(n);
    TrimName();
    TrimNumeral(n);
    ParseNumeral(n);
  }

  lemma TakeWithHeader(h: seq<Byte>, body: seq<Byte>, tail: seq<Byte>)
    requires CR !in h && ParseContentLength(h) == Some(|body|)
    ensures Take(h + CRLF2 + body + tail) == Some((body, tail))
  {
    hide ParseContentLength;
    var buffer := h + CRLF2 + body + tail;
    HeaderEndsHere(h, body + tail, 0);
    assert buffer == h + CRLF2 + (body + tail);
    assert buffer[..|h|] == h;
    assert buffer[|h| + 4..|h| + 4 + |body|] == body;
    assert buffer[|h| + 4 + |body|..] == tail;
  }

  /** Taking the first of several frames gives its body back. */
  lemma TakeFrame(body: seq<Byte>, tail: seq<Byte>)
    requires |body| <= USIZE_MAX
    ensures Take(Frame(body) + tail) == Some((body, tail))
  {
    hide Take;
    HeaderIsPlain(|body|);
    HeaderParses(|body|);
    hide Header;
    TakeWithHeader(Header(|body|), body, tail);
  }

  predicate Small(bodies: seq<seq<Byte>>) {
    forall i :: 0 <= i < |bodies| ==> |bodies[i]| <= USIZE_MAX
  }

  /** Any list of messages that is framed is taken back, in order and unchanged. */
  lemma {:induction false} TakeAllFrames(bodies: seq<seq<Byte>>, tail: seq<Byte>)
    requires Small(bodies)
    ensures
      var (more, left) := TakeAll(tail);
      TakeAll(Frames(bodies) + tail) == (bodies + more, left)
    decreases |bodies|
  {
    hide Frame;
    hide Take;
    var (more, left) := TakeAll(tail);
    if bodies == [] {
      assert [] + tail == tail && [] + more == more;
    } else {
      var rest := Frames(bodies[1..]) + tail;
      assert Frames(bodies) + tail == Frame(bodies[0]) + rest;
      TakeFrame(bodies[0], rest);
      TakeAllFrames(bodies[1..], tail);
      assert [bodies[0]] + (bodies[1..] + more) == bodies + more;
    }
  }

  // ----- The two ends of the worker

  class WorkerWriter {
    var buffer: seq<Byte>
    ghost var posted: seq<seq<Byte>>

    constructor ()
      ensures buffer == [] && posted == []
    {
      buffer, posted := [], [];
    }

    method TakeMessage() returns (r: Option<seq<Byte>>)
      modifies this`buffer
      ensures
        var taken := Take(old(buffer));
        if taken.None? then r.None? && buffer == old(buffer)
        else r == Some(taken.value.0) && buffer == taken.value.1
    {
      var end := FindHeaderEnd(buffer);
      if end.None? { return None; }
      var length := ParseContentLength(buffer[..end.value]);
      if length.None? { return None; }
      var total := end.value + 4 + length.value;
      if |buffer| < total { return None; }
      r := Some(buffer[end.value + 4..total]);
      buffer := buffer[total..];
    }

    /** Accepts all of `buf` and posts the messages that it completes. */
    method PollWrite(buf: seq<Byte>) returns (n: nat)
      modifies this
      ensures n == |buf|
      ensures
        var (messages, left) := TakeAll(old(buffer) + buf);
        posted == old(posted) + messages && buffer == left
    {
      hide Take;
      buffer := buffer + buf;
      ghost var (messages, left) := TakeAll(buffer);
      while true
        invariant
          var (more, last) := TakeAll(buffer);
          posted + more == old(posted) + messages && last == left
        decreases |buffer|
      {
        ghost var before := posted;
        var message := TakeMessage();
        if message.None? {
          break;
        }
        posted := posted + [message.value];
        ghost var (more, _) := TakeAll(buffer);
        assert posted + more == before + ([message.value] + more);
      }
      n := |buf|;
    }

    /** Any division of a stream into writes posts the messages of the whole stream. */
    method WriteAll(chunks: seq<seq<Byte>>)
      requires buffer == [] && posted == []
      modifies this
      ensures (posted, buffer) == TakeAll(Flatten(chunks))
    {
      hide Take;
      ghost var done: seq<Byte> := [];
      assert TakeAll([]) == ([], []) by { NothingToTake(); }
      for i := 0 to |chunks|
        invariant done + Flatten(chunks[i..]) == Flatten(chunks)
        invariant (posted, buffer) == TakeAll(done)
      {
        TakeAllInSteps(done, chunks[i]);
        assert chunks[i..][1..] == chunks[i + 1..];
        assert done + (chunks[i] + Flatten(chunks[i + 1..])) == done + chunks[i] + Flatten(chunks[i + 1..]);
        done := done + chunks[i];
        var _ := PollWrite(chunks[i]);
      }
      assert done + [] == done;
    }
  }

  lemma NothingToTake()
    ensures Take([]).None?
  {}

  predicate EndsAt(buf: seq<Byte>, i: nat) { i + 4 <= |buf| && buf[i..i + 4] == CRLF2 }

  lemma {:induction false} HeaderEndIsFirst(buf: seq<Byte>, i: nat)
    ensures
      var r := HeaderEnd(buf, i);
      && (r.Some? ==> EndsAt(buf, r.value))
      && (forall k: nat :: i <= k && EndsAt(buf, k) ==> r.Some? && r.value <= k)
    decreases |buf| - i
  {
    if i + 4 <= |buf| && buf[i..i + 4] != CRLF2 {
      HeaderEndIsFirst(buf, i + 1);
    }
  }

  /** The first position of the separator, if there is one. */
  method FindHeaderEnd(buf: seq<Byte>) returns (r: Option<nat>)
    ensures r == HeaderEnd(buf, 0)
    ensures r.Some? ==> EndsAt(buf, r.value)
    ensures forall k: nat :: EndsAt(buf, k) ==> r.Some? && r.value <= k
  {
    HeaderEndIsFirst(buf, 0);
    var i := 0;
    while i + 4 <= |buf|
      invariant HeaderEnd(buf, 0) == HeaderEnd(buf, i)
    {
      if buf[i..i + 4] == CRLF2 {
        return Some(i);
      }
      i := i + 1;
    }
    r := None;
  }

  datatype Poll = Pending | Ready(bytes: seq<Byte>)

  class WorkerReader {
    /** The messages that the channel holds; it may have been closed. */
    var received: seq<seq<Byte>>
    var closed: bool
    var buffer: seq<Byte>

    /** The bytes that are still to be read. */
    function Rest(): seq<Byte>
      reads this
    {
      buffer + Frames(received)
    }

    constructor (received: seq<seq<Byte>>, closed: bool)
      ensures this.received == received && this.closed == closed && buffer == []
    {
      this.received, this.closed, buffer := received, closed, [];
    }

    method PollRead(size: nat) returns (r: Poll)
      modifies this
      ensures closed == old(closed)
      ensures r.Pending? <==> old(buffer) == [] && old(received) == [] && !closed
      ensures r.Pending? ==> Rest() == old(Rest())
      ensures r.Ready? ==> |r.bytes| <= size && old(Rest()) == r.bytes + Rest()
      ensures r == Ready([]) ==> size == 0 || old(Rest()) == []
      ensures
        var front := if old(buffer) != [] then old(buffer)
                     else if old(received) != [] then Frame(old(received)[0]) else [];
        r.Ready? ==> r.bytes == front[..if size < |front| then size else |front|]
    {
      hide Frame;
      if buffer == [] {
        if received != [] {
          buffer := buffer + Frame(received[0]);
          received := received[1..];
        } else if closed {
          return Ready([]);
        } else {
          return Pending;
        }
      }
      var n := if size < |buffer| then size else |buffer|;
      r := Ready(buffer[..n]);
      assert buffer == buffer[..n] + buffer[n..];
      buffer := buffer[n..];
    }

    /** Reads of any sizes give the framed messages in order, and nothing else. */
    method ReadAll(sizes: seq<nat>) returns (pieces: seq<seq<Byte>>)
      modifies this
      ensures closed == old(closed)
      ensures Flatten(pieces) + Rest() == old(Rest())
    {
      pieces := [];
      assert Flatten<Byte>([]) + Rest() == Rest();
      for i := 0 to |sizes|
        invariant closed == old(closed)
        invariant Flatten(pieces) + Rest() == old(Rest())
      {
        hide Flatten;
        ghost var before := Rest();
        var r := PollRead(sizes[i]);
        if r.Ready? {
          FlattenOneMore(pieces, r.bytes);
          Assoc(Flatten(pieces), r.bytes, Rest());
          pieces := pieces + [r.bytes];
        }
      }
    }
  }

  lemma {:induction false} FlattenOneMore(parts: seq<seq<Byte>>, last: seq<Byte>)
    ensures Flatten(parts + [last]) == Flatten(parts) + last
    decreases |parts|
  {
    if parts == [] {
      assert [last][1..] == [] && last + [] == last && [] + last == last;
    } else {
      FlattenOneMore(parts[1..], last);
      assert (parts + [last])[1..] == parts[1..] + [last];
      assert parts[0] + (Flatten(parts[1..]) + last) == parts[0] + Flatten(parts[1..]) + last;
    }
  }

  /** However short the reads are, what was read holds the messages in order. */
  lemma ReadsHoldMessages(pieces: seq<seq<Byte>>, bodies: seq<seq<Byte>>)
    requires Small(bodies) && Flatten(pieces) == Frames(bodies)
    ensures TakeAll(Flatten(pieces)) == (bodies, [])
  {
    TakeAllFrames(bodies, []);
    NothingToTake();
    assert Frames(bodies) + [] == Frames(bodies);
    assert TakeAll([]) == ([], []) && bodies + [] == bodies;
  }
}
