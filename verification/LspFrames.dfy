/**
 The bytes of a frame in literal terms, and frames that other programs write:
 with further header fields and any spelling of `Content-Length` in capitals or
 small letters.
 */
module LspFrames {
  import opened Bytes
  import opened Seqs
  import opened Decimal
  import opened CodePoints
  import opened LspFraming
  import Utf8

  predicate IsDigits(s: seq<Byte>) { s != [] && forall i :: 0 <= i < |s| ==> 48 <= s[i] <= 57 }

  /** The number that decimal digits in ASCII stand for. */
  function NumberOf(s: seq<Byte>): nat
    requires s == [] || IsDigits(s)
  {
    if s == [] then 0 else 10 * NumberOf(s[..|s| - 1]) + (s[|s| - 1] - 48)
  }

  lemma {:induction false} NumberIsValue(s: seq<Byte>, ds: seq<Digit>)
    requires IsDigits(s) && |ds| == |s| && forall i :: 0 <= i < |s| ==> s[i] - 48 == ds[i]
    ensures NumberOf(s) == Value(ds)
    decreases |s|
  {
    var n := |s| - 1;
    if n > 0 {
      NumberIsValue(s[..n], ds[..n]);
    } else {
      assert s[..n] == [] && ds[..n] == [];
    }
  }

  /** "Content-Length: ", the length in decimal without leading zeros, two line ends, the body. */
  lemma FrameBytes(body: seq<Byte>) returns (digits: seq<Byte>)
    ensures IsDigits(digits) && NumberOf(digits) == |body| && (digits[0] == 48 ==> |digits| == 1)
    ensures Frame(body) ==
            [67, 111, 110, 116, 101, 110, 116, 45, 76, 101, 110, 103, 116, 104, 58, 32] + digits
            + [13, 10, 13, 10] + body
  {
    digits := Numeral(|body|);
    NumberIsValue(digits, Digits(|body|));
    ValueOfDigits(|body|);
    assert NAME + [58, 32] == [67, 111, 110, 116, 101, 110, 116, 45, 76, 101, 110, 103, 116, 104, 58, 32];
  }

  // ----- Headers of several lines

  /** Printable ASCII. */
  predicate IsPlain(s: seq<Byte>) { forall i :: 0 <= i < |s| ==> 32 <= s[i] < 127 }

  /** A header field without its line end: a name, a colon, a value. */
  datatype HeaderField = HeaderField(name: seq<Byte>, value: seq<Byte>)

  function Line(f: HeaderField): seq<Byte> { f.name + [58] + f.value }

  predicate IsField(f: HeaderField) { IsPlain(f.name) && IsPlain(f.value) && 58 !in f.name }

  predicate AreFields(fs: seq<HeaderField>) { forall i :: 0 <= i < |fs| ==> IsField(fs[i]) }

  function Lines(fs: seq<HeaderField>): seq<Byte>
  {
    if fs == [] then [] else if |fs| == 1 then Line(fs[0]) else Line(fs[0]) + [13, 10] + Lines(fs[1..])
  }

  predicate Blank(s: seq<Byte>) { forall i :: 0 <= i < |s| ==> s[i] == 32 }

  /** "content-length", each letter in either case. */
  predicate Spelled(s: seq<Byte>) {
    var small: seq<Byte> := [99, 111, 110, 116, 101, 110, 116, 45, 108, 101, 110, 103, 116, 104];
    && |s| == |small|
    && forall i :: 0 <= i < |s| ==> s[i] == small[i] || (small[i] != 45 && s[i] == small[i] - 32)
  }

  predicate NamesLength(name: seq<Byte>) {
    exists a, b :: 0 <= a <= b <= |name| && Blank(name[..a]) && Blank(name[b..]) && Spelled(name[a..b])
  }

  lemma {:induction false} TrimmedStart(s: seq<Byte>) returns (a: nat)
    requires IsPlain(s)
    ensures a <= |s| && Blank(s[..a]) && TrimStart(s) == s[a..] && (a < |s| ==> s[a] != 32)
    decreases |s|
  {
    if s != [] && s[0] == 32 {
      a := TrimmedStart(s[1..]);
      a := a + 1;
      assert s[..a] == [s[0]] + s[1..][..a - 1];
    } else {
      a := 0;
    }
  }

  lemma {:induction false} TrimmedEnd(s: seq<Byte>) returns (b: nat)
    requires IsPlain(s)
    ensures b <= |s| && Blank(s[b..]) && TrimEnd(s) == s[..b] && (0 < b ==> s[b - 1] != 32)
    decreases |s|
  {
    var n := |s| - 1;
    if s != [] && s[n] == 32 {
      b := TrimmedEnd(s[..n]);
      assert s[b..] == s[..n][b..] + [s[n]];
    } else {
      b := |s|;
    }
  }

  lemma {:induction false} BlanksBefore(pre: seq<Byte>, s: seq<Byte>)
    requires Blank(pre) && s != [] && !IsSpace(s[0])
    ensures TrimStart(pre + s) == s
    decreases |pre|
  {
    if pre == [] {
      assert pre + s == s;
    } else {
      assert (pre + s)[0] == 32 && (pre + s)[1..] == pre[1..] + s;
      BlanksBefore(pre[1..], s);
    }
  }

  lemma {:induction false} BlanksAfter(s: seq<Byte>, post: seq<Byte>)
    requires Blank(post) && s != [] && !IsSpace(s[|s| - 1])
    ensures TrimEnd(s + post) == s
    decreases |post|
  {
    if post == [] {
      assert s + post == s;
    } else {
      var n := |s + post| - 1;
      assert (s + post)[n] == 32 && (s + post)[..n] == s + post[..|post| - 1];
      BlanksAfter(s, post[..|post| - 1]);
    }
  }

  /** What is between the blanks. */
  lemma Trimmed(pre: seq<Byte>, s: seq<Byte>, post: seq<Byte>)
    requires Blank(pre) && Blank(post) && s != [] && !IsSpace(s[0]) && !IsSpace(s[|s| - 1])
    ensures Trim(pre + s + post) == s
  {
    assert pre + s + post == pre + (s + post);
    BlanksBefore(pre, s + post);
    BlanksAfter(s, post);
  }

  lemma NameIsFound(name: seq<Byte>)
    requires IsPlain(name)
    ensures SameIgnoringCase(Trim(name), LOWER_NAME) <==> NamesLength(name)
  {
    hide Spelled, Blank, TrimStart, TrimEnd, SameIgnoringCase, IsPlain, IsSpace;
    if NamesLength(name) {
      var i, j :| 0 <= i <= j <= |name| && Blank(name[..i]) && Blank(name[j..]) && Spelled(name[i..j]);
      SpelledIsFound(name[..i], name[i..j], name[j..]);
      assert name == name[..i] + name[i..j] + name[j..];
    }
    if SameIgnoringCase(Trim(name), LOWER_NAME) {
      FoundIsSpelled(name);
    }
  }

  lemma SpelledIsFound(pre: seq<Byte>, s: seq<Byte>, post: seq<Byte>)
    requires Blank(pre) && Blank(post) && Spelled(s)
    ensures SameIgnoringCase(Trim(pre + s + post), LOWER_NAME)
  {
    Trimmed(pre, s, post);
  }

  lemma FoundIsSpelled(name: seq<Byte>)
    requires IsPlain(name) && SameIgnoringCase(Trim(name), LOWER_NAME)
    ensures NamesLength(name)
  {
    var a := TrimmedStart(name);
    var b := TrimmedEnd(name[a..]);
    assert name[a..][..b] == name[a..a + b] && name[a + b..] == name[a..][b..];
    CaseIgnored(name[a..a + b]);
  }

  lemma CaseIgnored(s: seq<Byte>)
    requires IsPlain(s)
    ensures SameIgnoringCase(s, LOWER_NAME) <==> Spelled(s)
  {}

  // ----- Where the header ends

  lemma {:induction false} EndMovesOn(p: seq<Byte>, buf: seq<Byte>, i: nat)
    requires i <= |buf|
    ensures HeaderEnd(p + buf, |p| + i) ==
            match HeaderEnd(buf, i) case None => None case Some(n) => Some(|p| + n)
    decreases |buf| - i
  {
    if i + 4 <= |buf| {
      assert (p + buf)[|p| + i..|p| + i + 4] == buf[i..i + 4];
      EndMovesOn(p, buf, i + 1);
    }
  }

  predicate EndsAt(buf: seq<Byte>, k: nat) { k + 4 <= |buf| && buf[k..k + 4] == CRLF2 }

  lemma {:induction false} NoEndBefore(buf: seq<Byte>, i: nat, n: nat)
    requires i <= n <= |buf| && forall k :: i <= k < n ==> !EndsAt(buf, k)
    ensures HeaderEnd(buf, i) == HeaderEnd(buf, n)
    decreases n - i
  {
    if i < n {
      assert !EndsAt(buf, i);
      NoEndBefore(buf, i + 1, n);
    }
  }

  /** A line end and another character in the place of the second line end. */
  lemma NoEndHere(buf: seq<Byte>, k: nat)
    requires k < |buf| && (buf[k] != 13 || (k + 2 < |buf| && buf[k + 2] != 13))
    ensures !EndsAt(buf, k)
  {
    if k + 4 <= |buf| {
      var four := buf[k..k + 4];
      assert four[0] == buf[k] && four[2] == buf[k + 2];
    }
  }

  lemma NoEndInLine(line: seq<Byte>, more: seq<Byte>, k: nat)
    requires IsPlain(line) && more != [] && more[0] != 13 && k < |line| + 2
    ensures !EndsAt(line + [13, 10] + more, k)
  {
    var buf := line + [13, 10] + more;
    if k < |line| {
      assert buf[k] == line[k];
    } else if k == |line| {
      assert buf[k + 2] == more[0];
    } else {
      assert buf[k] == 10;
    }
    hide EndsAt;
    NoEndHere(buf, k);
  }

  lemma NoEndUpTo(line: seq<Byte>, more: seq<Byte>)
    requires IsPlain(line) && more != [] && more[0] != 13
    ensures var buf := line + [13, 10] + more; HeaderEnd(buf, 0) == HeaderEnd(buf, |line| + 2)
  {
    hide HeaderEnd, EndsAt, IsPlain;
    var buf := line + [13, 10] + more;
    forall k: nat | k < |line| + 2 ensures !EndsAt(buf, k) {
      NoEndInLine(line, more, k);
    }
    NoEndBefore(buf, 0, |line| + 2);
  }

  lemma EndBehindLine(line: seq<Byte>, more: seq<Byte>)
    requires IsPlain(line) && more != [] && more[0] != 13
    ensures HeaderEnd(line + [13, 10] + more, 0) ==
            match HeaderEnd(more, 0) case None => None case Some(n) => Some(|line| + 2 + n)
  {
    hide *;
    NoEndUpTo(line, more);
    EndMovesOn(line + [13, 10], more, 0);
  }

  lemma LineIsPlain(f: HeaderField)
    requires IsField(f)
    ensures IsPlain(Line(f)) && Line(f) != []
  {}

  lemma LinesStartPlain(fs: seq<HeaderField>)
    requires AreFields(fs) && fs != []
    ensures Lines(fs) != [] && Lines(fs)[0] != 13
  {
    LineIsPlain(fs[0]);
  }

  lemma {:induction false} HeaderEndsBehindLines(fs: seq<HeaderField>, rest: seq<Byte>)
    requires AreFields(fs) && fs != []
    ensures HeaderEnd(Lines(fs) + CRLF2 + rest, 0) == Some(|Lines(fs)|)
    decreases |fs|
  {
    LineIsPlain(fs[0]);
    if |fs| == 1 {
      HeaderEndsHere(Line(fs[0]), rest, 0);
    } else {
      var more := Lines(fs[1..]) + CRLF2 + rest;
      HeaderEndsBehindLines(fs[1..], rest);
      LinesStartPlain(fs[1..]);
      EndBehindLine(Line(fs[0]), more);
      assert Lines(fs) + CRLF2 + rest == Line(fs[0]) + [13, 10] + more;
    }
  }

  // ----- The declared length

  lemma FirstField(f: HeaderField, text: Text, rest: Text)
    requires IsField(f) && text == Line(f) + [13, 10] + rest
    ensures Find(text, LF) == |Line(f)| + 1 && WithoutEnd(text[..|Line(f)| + 1]) == Line(f)
    ensures text[|Line(f)| + 2..] == rest
  {
    var line: Text := Line(f);
    LineIsPlain(f);
    var n := |line| + 1;
    assert forall i :: 0 <= i < |line| ==> text[i] == line[i];
    assert text[|line|] == 13 && text[n] == 10;
    assert text[..n] == line + [13];
    FindFirst(text, LF, n);
  }

  lemma NameAndValue(f: HeaderField)
    requires IsField(f)
    ensures var line: Text := Line(f);
      Find(line, 58) == |f.name| && line[..|f.name|] == f.name && line[|f.name| + 1..] == f.value
  {
    var line: Text := Line(f);
    assert line[..|f.name|] == f.name;
    FindFirst(line, 58, |f.name|);
  }

  lemma OtherField(f: HeaderField, text: Text, rest: Text)
    requires IsField(f) && !NamesLength(f.name) && text == Line(f) + [13, 10] + rest
    ensures ContentLength(text) == ContentLength(rest)
  {
    FirstField(f, text, rest);
    NameAndValue(f);
    NameIsFound(f.name);
    hide Find, WithoutEnd, Trim, SameIgnoringCase, NamesLength, Line, IsField;
  }

  /** A name for the length in any case, and its value between blanks. */
  predicate Declares(f: HeaderField, n: nat) {
    IsField(f) && NamesLength(f.name) && ValueIs(f.value, n)
  }

  predicate ValueIs(value: seq<Byte>, n: nat) {
    exists a, b :: 0 <= a < b <= |value| && Blank(value[..a]) && Blank(value[b..]) && IsDigits(value[a..b])
      && NumberOf(value[a..b]) == n
  }

  lemma ValueParses(value: seq<Byte>, n: nat)
    requires ValueIs(value, n) && n <= USIZE_MAX
    ensures ParseUsize(Trim(value)) == Some(n)
  {
    var a, b :| 0 <= a < b <= |value| && Blank(value[..a]) && Blank(value[b..]) && IsDigits(value[a..b])
      && NumberOf(value[a..b]) == n;
    var s := value[a..b];
    Trimmed(value[..a], s, value[b..]);
    assert value == value[..a] + s + value[b..];
    hide Trim;
    DigitsParse(s);
  }

  lemma DigitsParse(s: seq<Byte>)
    requires IsDigits(s)
    ensures ParseUsize(s) == if NumberOf(s) > USIZE_MAX then None else Some(NumberOf(s))
  {
    var t: Text := s;
    assert t[0] != 43;
    NumberIsValue(s, seq(|t|, i requires 0 <= i < |t| => t[i] - 48));
  }

  lemma {:induction false} LengthIsFound(before: seq<HeaderField>, f: HeaderField, after: seq<HeaderField>, n: nat)
    requires AreFields(before) && AreFields(after) && Declares(f, n) && n <= USIZE_MAX
    requires forall i :: 0 <= i < |before| ==> !NamesLength(before[i].name)
    ensures ContentLength(Lines(before + [f] + after)) == Some(n)
    decreases |before|
  {
    var all := before + [f] + after;
    if before == [] {
      DeclaredFirst(f, after, n);
      assert all == [f] + after;
    } else {
      assert all[0] == before[0] && all[1..] == before[1..] + [f] + after;
      LengthIsFound(before[1..], f, after, n);
      OtherField(before[0], Lines(all), Lines(all[1..]));
    }
  }

  lemma FirstOfLines(f: HeaderField, after: seq<HeaderField>)
    requires after != []
    ensures Lines([f] + after) == Line(f) + [13, 10] + Lines(after)
  {
    assert ([f] + after)[1..] == after;
  }

  lemma DeclaresLength(f: HeaderField, text: Text, n: nat, length: nat)
    requires IsField(f) && NamesLength(f.name) && ValueIs(f.value, length) && length <= USIZE_MAX
    requires n <= |text| && text != [] && Find(text, LF) == n
    requires if n == |text| then text == Line(f) else WithoutEnd(text[..n]) == Line(f)
    ensures ContentLength(text) == Some(length)
  {
    NameAndValue(f);
    NameIsFound(f.name);
    ValueParses(f.value, length);
    hide Find, WithoutEnd, Trim, SameIgnoringCase, NamesLength, Line, IsField, ParseUsize, ValueIs;
  }

  lemma OnlyLine(f: HeaderField)
    requires IsField(f)
    ensures var text: Text := Lines([f] + []); text == Line(f) && text != [] && Find(text, LF) == |text|
  {
    LineIsPlain(f);
    assert [f] + [] == [f];
    var text: Text := Line(f);
    FindFirst(text, LF, |text|);
  }

  lemma DeclaredFirst(f: HeaderField, after: seq<HeaderField>, n: nat)
    requires Declares(f, n) && n <= USIZE_MAX
    ensures ContentLength(Lines([f] + after)) == Some(n)
  {
    hide ValueIs, NamesLength, Find, IsPlain, Line, WithoutEnd, ContentLength;
    var text: Text := Lines([f] + after);
    if after == [] {
      OnlyLine(f);
      assert [f] + after == [f] + [];
      DeclaresLength(f, text, |text|, n);
    } else {
      FirstOfLines(f, after);
      FirstField(f, text, Lines(after));
      DeclaresLength(f, text, |Line(f)| + 1, n);
    }
  }

  lemma {:induction false} LinesArePlain(fs: seq<HeaderField>)
    requires AreFields(fs)
    ensures forall i :: 0 <= i < |Lines(fs)| ==> Lines(fs)[i] < 128
    decreases |fs|
  {
    if fs != [] {
      LineIsPlain(fs[0]);
      LinesArePlain(fs[1..]);
    }
  }

  /**
   A message whose header declares its length is taken, whatever other fields
   come before and after and however `Content-Length` is spelled.
   */
  lemma OtherHeadersAreRead(before: seq<HeaderField>, f: HeaderField, after: seq<HeaderField>,
                            body: seq<Byte>, tail: seq<Byte>)
    requires AreFields(before) && AreFields(after) && Declares(f, |body|) && |body| <= USIZE_MAX
    requires forall i :: 0 <= i < |before| ==> !NamesLength(before[i].name)
    ensures Take(Lines(before + [f] + after) + [13, 10, 13, 10] + body + tail) == Some((body, tail))
  {
    hide *;
    var all := before + [f] + after;
    FieldsAround(before, f, after, |body|);
    LengthIsFound(before, f, after, |body|);
    HeaderEndsBehindLines(all, body + tail);
    LinesArePlain(all);
    DecodeAscii(Lines(all));
    TakeBehindHeader(Lines(all), body, tail);
  }

  lemma FieldsAround(before: seq<HeaderField>, f: HeaderField, after: seq<HeaderField>, n: nat)
    requires AreFields(before) && AreFields(after) && Declares(f, n)
    ensures AreFields(before + [f] + after)
  {
    hide IsField;
    assert IsField(f) by { DeclaredIsField(f, n); }
  }

  lemma DeclaredIsField(f: HeaderField, n: nat)
    requires Declares(f, n)
    ensures IsField(f)
  {}

  lemma TakeBehindHeader(h: seq<Byte>, body: seq<Byte>, tail: seq<Byte>)
    requires HeaderEnd(h + CRLF2 + (body + tail), 0) == Some(|h|)
    requires Utf8.Valid(h) && Decode(h) == h && ContentLength(h) == Some(|body|)
    ensures Take(h + [13, 10, 13, 10] + body + tail) == Some((body, tail))
  {
    hide ContentLength, HeaderEnd, Utf8.Valid, Decode;
    var buffer := h + CRLF2 + body + tail;
    assert buffer == h + CRLF2 + (body + tail);
    assert buffer[..|h|] == h;
    assert buffer[|h| + 4..|h| + 4 + |body|] == body;
    assert buffer[|h| + 4 + |body|..] == tail;
  }
}
