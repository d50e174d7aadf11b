/**
 The strings to look for in base64 text in order to find a string of bytes in
 the data that was encoded. Encoding follows section 4 of RFC 4648.
 */
module Base64 {
  import opened Bytes
  import opened Seqs

  type Sextet = v: int | 0 <= v < 64

  // ----- Encoding

  function Sextets(s: seq<Byte>): seq<Sextet> {
    if |s| == 0 then []
    else if |s| == 1 then [s[0] / 4, s[0] % 4 * 16]
    else if |s| == 2 then [s[0] / 4, s[0] % 4 * 16 + s[1] / 16, s[1] % 16 * 4]
    else
      [s[0] / 4, s[0] % 4 * 16 + s[1] / 16, s[1] % 16 * 4 + s[2] / 64, s[2] % 64] + Sextets(s[3..])
  }

  /** The number of characters for `n` bytes, without padding. */
  function EncodedLength(n: nat): nat { (4 * n + 2) / 3 }

  /** 64 characters without repetition. */
  predicate IsAlphabet(a: string) {
    |a| == 64 && forall i, j :: 0 <= i < j < 64 ==> a[i] != a[j]
  }

  function Spell(a: string, vs: seq<Sextet>): (r: string)
    requires IsAlphabet(a)
    ensures |r| == |vs|
  {
    seq(|vs|, i requires 0 <= i < |vs| => a[vs[i]])
  }

  function Encode(a: string, s: seq<Byte>): string
    requires IsAlphabet(a)
  {
    Spell(a, Sextets(s))
  }

  /** With the padding that completes the last group of four characters. */
  function EncodePadded(a: string, s: seq<Byte>): string
    requires IsAlphabet(a)
  {
    Encode(a, s) + if |s| % 3 == 0 then "" else if |s| % 3 == 1 then "==" else "="
  }

  // ----- Bits

  function At(s: seq<Byte>, i: nat): Byte { if i < |s| then s[i] else 0 }

  function ByteBit(b: Byte, k: nat): nat
    requires k < 8
  {
    match k
    case 0 => b / 128
    case 1 => b / 64 % 2
    case 2 => b / 32 % 2
    case 3 => b / 16 % 2
    case 4 => b / 8 % 2
    case 5 => b / 4 % 2
    case 6 => b / 2 % 2
    case _ => b % 2
  }

  function SextetBit(v: Sextet, k: nat): nat
    requires k < 6
  {
    match k
    case 0 => v / 32
    case 1 => v / 16 % 2
    case 2 => v / 8 % 2
    case 3 => v / 4 % 2
    case 4 => v / 2 % 2
    case _ => v % 2
  }

  /** The i-th bit of a string of bytes, the most significant bit of each byte first. */
  function Bit(s: seq<Byte>, i: nat): nat {
    ByteBit(At(s, i / 8), i % 8)
  }

  /** The j-th sextet, from the bytes that overlap it. */
  function SextetAt(s: seq<Byte>, j: nat): Sextet {
    var a, b, c := At(s, j / 4 * 3), At(s, j / 4 * 3 + 1), At(s, j / 4 * 3 + 2);
    match j % 4
    case 0 => a / 4
    case 1 => a % 4 * 16 + b / 16
    case 2 => b % 16 * 4 + c / 64
    case _ => c % 64
  }

  lemma {:induction false} SextetsAt(s: seq<Byte>)
    ensures |Sextets(s)| == EncodedLength(|s|)
    ensures forall j :: 0 <= j < |Sextets(s)| ==> Sextets(s)[j] == SextetAt(s, j)
  {
    if |s| >= 3 {
      SextetsAt(s[3..]);
      forall j | 0 <= j < |Sextets(s)| ensures Sextets(s)[j] == SextetAt(s, j) {
        if j >= 4 {
          assert Sextets(s)[j] == Sextets(s[3..])[j - 4];
          ShiftSextet(s, j);
        }
      }
    }
  }

  lemma ShiftSextet(s: seq<Byte>, j: nat)
    requires |s| >= 3 && j >= 4
    ensures SextetAt(s, j) == SextetAt(s[3..], j - 4)
  {
    var q := j / 4;
    assert (j - 4) / 4 == q - 1 && (j - 4) % 4 == j % 4;
    assert At(s, q * 3) == At(s[3..], (q - 1) * 3);
    assert At(s, q * 3 + 1) == At(s[3..], (q - 1) * 3 + 1);
    assert At(s, q * 3 + 2) == At(s[3..], (q - 1) * 3 + 2);
  }

  /** The bits of the sextets are the bits of the bytes. */
  lemma SextetBits(s: seq<Byte>, j: nat, k: nat)
    requires k < 6
    ensures SextetBit(SextetAt(s, j), k) == Bit(s, 6 * j + k)
  {
    var q, r := j / 4, j % 4;
    var i := 6 * r + k;
    assert 6 * j + k == 24 * q + i;
    assert (24 * q + i) / 8 == 3 * q + i / 8 && (24 * q + i) % 8 == i % 8;
    BitsOfGroup(At(s, 3 * q), At(s, 3 * q + 1), At(s, 3 * q + 2), r, k);
  }

  lemma BitsOfGroup(a: Byte, b: Byte, c: Byte, r: nat, k: nat)
    requires r < 4 && k < 6
    ensures
      var v := if r == 0 then a / 4 else if r == 1 then a % 4 * 16 + b / 16
               else if r == 2 then b % 16 * 4 + c / 64 else c % 64;
      var i := 6 * r + k;
      SextetBit(v, k) == ByteBit(if i / 8 == 0 then a else if i / 8 == 1 then b else c, i % 8)
  {
    if r == 0 {
      HighSix(a);
    } else if r == 1 {
      JoinTwoAndFour(a % 4, b / 16);
      LowFour(a);
      HighBits(b);
    } else if r == 2 {
      JoinFourAndTwo(b % 16, c / 64);
      LowFour(b);
      HighBits(c);
    } else {
      LowBits(c);
    }
  }

  lemma HighSix(a: Byte)
    ensures a / 4 / 32 == a / 128 && a / 4 / 16 == a / 64 && a / 4 / 8 == a / 32
    ensures a / 4 / 4 == a / 16 && a / 4 / 2 == a / 8
  {}

  lemma HighBits(b: Byte)
    ensures b / 16 / 8 == b / 128 && b / 16 / 4 == b / 64 && b / 16 / 2 == b / 32
    ensures b / 64 / 2 == b / 128
  {}

  lemma LowBits(a: Byte)
    ensures a % 64 / 32 == a / 32 % 2 && a % 64 / 16 % 2 == a / 16 % 2 && a % 64 / 8 % 2 == a / 8 % 2
    ensures a % 64 / 4 % 2 == a / 4 % 2 && a % 64 / 2 % 2 == a / 2 % 2 && a % 64 % 2 == a % 2
  {
    var q, r := a / 64, a % 64;
    assert a == 64 * q + r;
    Carry(2 * q, r, 32);
    Carry(4 * q, r, 16);
    Carry(8 * q, r, 8);
    Carry(4 * q, r, 16);
    Carry(16 * q, r, 4);
    Carry(32 * q, r, 2);
    Carry(64 * q, r, 1);
  }

  /** An even number of units of `d` does not change the next lower bit. */
  lemma Carry(n: nat, r: nat, d: nat)
    requires d > 0 && n % 2 == 0
    ensures (n * d + r) / d % 2 == r / d % 2
  {
    var x := r / d;
    assert n * d + r == (n + x) * d + r % d by {
      assert r == x * d + r % d;
      assert (n + x) * d == n * d + x * d;
    }
    Quotient(n + x, r % d, d);
  }

  lemma Quotient(q: nat, r: nat, d: nat)
    requires r < d
    ensures (q * d + r) / d == q
  {
    var v := q * d + r;
    var p := v / d;
    assert v == p * d + v % d;
    if p > q {
      Times(q + 1, p, d);
    } else if p < q {
      Times(p + 1, q, d);
    }
  }

  lemma Times(x: nat, y: nat, d: nat)
    requires x <= y
    ensures x * d <= y * d
  {
    assert y * d == x * d + (y - x) * d;
  }

  lemma LowTwo(a: Byte)
    ensures a % 4 / 2 == a / 2 % 2 && a % 4 % 2 == a % 2
  {
    var q, r := a / 4, a % 4;
    assert a / 2 == 2 * q + r / 2;
  }

  lemma FirstOfFour(a: Byte)
    ensures a % 16 / 8 == a / 8 % 2
  {
    var q, r := a / 16, a % 16;
    assert a / 8 == 2 * q + r / 8;
  }

  lemma SecondOfFour(a: Byte)
    ensures a % 16 / 4 % 2 == a / 4 % 2
  {
    var q, r := a / 16, a % 16;
    assert a / 4 == 4 * q + r / 4;
  }

  lemma ThirdOfFour(a: Byte)
    ensures a % 16 / 2 % 2 == a / 2 % 2
  {
    var q, r := a / 16, a % 16;
    assert a / 2 == 8 * q + r / 2;
  }

  lemma LastOfFour(a: Byte)
    ensures a % 16 % 2 == a % 2
  {
    var q, r := a / 16, a % 16;
    assert a == 2 * (8 * q) + r;
  }

  lemma LowFour(a: Byte)
    ensures a % 4 / 2 == a / 2 % 2 && a % 4 % 2 == a % 2
    ensures a % 16 / 8 == a / 8 % 2 && a % 16 / 4 % 2 == a / 4 % 2
    ensures a % 16 / 2 % 2 == a / 2 % 2 && a % 16 % 2 == a % 2
  {
    LowTwo(a);
    FirstOfFour(a);
    SecondOfFour(a);
    ThirdOfFour(a);
    LastOfFour(a);
  }

  lemma JoinTwoAndFour(x: nat, y: nat)
    requires x < 4 && y < 16
    ensures
      var v := x * 16 + y;
      && v / 32 == x / 2 && v / 16 % 2 == x % 2
      && v / 8 % 2 == y / 8 && v / 4 % 2 == y / 4 % 2 && v / 2 % 2 == y / 2 % 2 && v % 2 == y % 2
  {
    var v := x * 16 + y;
    assert v / 16 == x && v / 8 == 2 * x + y / 8 && v / 4 == 4 * x + y / 4 && v / 2 == 8 * x + y / 2;
  }

  lemma JoinFourAndTwo(x: nat, y: nat)
    requires x < 16 && y < 4
    ensures
      var v := x * 4 + y;
      && v / 32 == x / 8 && v / 16 % 2 == x / 4 % 2 && v / 8 % 2 == x / 2 % 2 && v / 4 % 2 == x % 2
      && v / 2 % 2 == y / 2 && v % 2 == y % 2
  {
    var v := x * 4 + y;
    assert v / 4 == x && v / 8 == x / 2 && v / 16 == x / 4 && v / 2 == 2 * x + y / 2;
  }

  lemma SextetValue(v: Sextet)
    ensures v == 32 * SextetBit(v, 0) + 16 * SextetBit(v, 1) + 8 * SextetBit(v, 2)
                 + 4 * SextetBit(v, 3) + 2 * SextetBit(v, 4) + SextetBit(v, 5)
  {
    assert v / 16 == 2 * (v / 32) + v / 16 % 2;
    assert v / 8 == 2 * (v / 16) + v / 8 % 2;
    assert v / 4 == 2 * (v / 8) + v / 4 % 2;
    assert v / 2 == 2 * (v / 4) + v / 2 % 2;
    assert v == 2 * (v / 2) + v % 2;
  }

  lemma SextetByBits(v: Sextet, w: Sextet)
    requires forall k :: 0 <= k < 6 ==> SextetBit(v, k) == SextetBit(w, k)
    ensures v == w
  {
    SextetValue(v);
    SextetValue(w);
    hide SextetBit;
  }

  lemma ByteValue(v: Byte)
    ensures v == 128 * ByteBit(v, 0) + 64 * ByteBit(v, 1) + 32 * ByteBit(v, 2) + 16 * ByteBit(v, 3)
                 + 8 * ByteBit(v, 4) + 4 * ByteBit(v, 5) + 2 * ByteBit(v, 6) + ByteBit(v, 7)
  {
    assert v / 64 == 2 * (v / 128) + v / 64 % 2;
    assert v / 32 == 2 * (v / 64) + v / 32 % 2;
    assert v / 16 == 2 * (v / 32) + v / 16 % 2;
    assert v / 8 == 2 * (v / 16) + v / 8 % 2;
    assert v / 4 == 2 * (v / 8) + v / 4 % 2;
    assert v / 2 == 2 * (v / 4) + v / 2 % 2;
    assert v == 2 * (v / 2) + v % 2;
  }

  lemma ByteByBits(v: Byte, w: Byte)
    requires forall k :: 0 <= k < 8 ==> ByteBit(v, k) == ByteBit(w, k)
    ensures v == w
  {
    ByteValue(v);
    ByteValue(w);
    hide ByteBit;
  }

  // ----- The patterns

  /** `k` bytes that stand for those before the string. */
  function Pad(k: nat): (r: seq<Byte>)
    ensures |r| == k
  {
    seq(k, _ => 88)
  }

  /** The first character that `k` bytes before the string do not affect. */
  function Low(k: nat): nat { (8 * k + 5) / 6 }

  /** The first character that bytes after the string, which ends at byte `n`, affect. */
  function High(n: nat): nat { 8 * n / 6 }

  /** What encodes only bits of `s` when `k` bytes come before it, modulo 3. */
  function Pattern(k: nat, s: seq<Byte>): seq<Sextet>
    requires k < 3 && |s| > 1
  {
    SextetsAt(Pad(k) + s);
    Sextets(Pad(k) + s)[Low(k)..High(k + |s|)]
  }

  /** The pattern occurs in the encoding of `b`, the string starting at byte 3m + k. */
  predicate OccursAt(b: seq<Byte>, m: nat, k: nat, s: seq<Byte>)
    requires k < 3 && |s| > 1
  {
    var from, to := 4 * m + Low(k), 4 * m + High(k + |s|);
    to <= |Sextets(b)| && Sextets(b)[from..to] == Pattern(k, s)
  }

  /** The bits of `b` and those of `s` that the pattern covers are the same. */
  ghost predicate AgreesOnCoveredBits(b: seq<Byte>, m: nat, k: nat, s: seq<Byte>) {
    forall i :: 6 * Low(k) <= i < 6 * High(k + |s|) ==> SameBit(b, m, k, s, i)
  }

  /** Bit `i` from byte 3m of `b` on is the bit of `s` that `k` bytes before it put there. */
  predicate SameBit(b: seq<Byte>, m: nat, k: nat, s: seq<Byte>, i: nat) {
    8 * k <= i && Bit(b, 24 * m + i) == Bit(s, i - 8 * k)
  }

  /** All the bits of a pattern are bits of the string; there is at least one character. */
  lemma Covered(k: nat, n: nat)
    requires k < 3 && n > 1
    ensures 8 * k <= 6 * Low(k) < 6 * High(k + n) <= 8 * (k + n)
    ensures High(k + n) <= EncodedLength(k + n)
    ensures Low(k) == if k == 0 then 0 else if k == 1 then 2 else 3
    ensures High(k + n) == EncodedLength(k + n) - if (k + n) % 3 == 0 then 0 else 1
  {
    var q, r := (k + n) / 3, (k + n) % 3;
    assert 8 * (k + n) == 24 * q + 8 * r && 4 * (k + n) + 2 == 12 * q + 4 * r + 2;
  }

  lemma PaddedBit(k: nat, s: seq<Byte>, i: nat)
    requires 8 * k <= i
    ensures Bit(Pad(k) + s, i) == Bit(s, i - 8 * k)
  {
    assert (i - 8 * k) / 8 == i / 8 - k && (i - 8 * k) % 8 == i % 8;
    assert At(Pad(k) + s, i / 8) == At(s, i / 8 - k);
  }

  /**
   A pattern is exact: it occurs in the encoding of `b` at the place of byte
   3m + k exactly if `b` agrees there with `s` on all the bits that it covers.
   */
  lemma OccursExactly(b: seq<Byte>, m: nat, k: nat, s: seq<Byte>)
    requires k < 3 && |s| > 1 && 4 * m + High(k + |s|) <= EncodedLength(|b|)
    ensures OccursAt(b, m, k, s) <==> AgreesOnCoveredBits(b, m, k, s)
  {
    SextetsAt(b);
    Covered(k, |s|);
    var from, to := Low(k), High(k + |s|);
    if OccursAt(b, m, k, s) {
      forall i | 6 * from <= i < 6 * to ensures SameBit(b, m, k, s, i) {
        OccurrenceGivesBit(b, m, k, s, i / 6, i % 6);
      }
    }
    if AgreesOnCoveredBits(b, m, k, s) {
      BitsGiveOccurrence(b, m, k, s);
    }
  }

  lemma BitsGiveOccurrence(b: seq<Byte>, m: nat, k: nat, s: seq<Byte>)
    requires k < 3 && |s| > 1 && 4 * m + High(k + |s|) <= EncodedLength(|b|)
    requires AgreesOnCoveredBits(b, m, k, s)
    ensures OccursAt(b, m, k, s)
  {
    hide Sextets;
    hide SextetAt;
    hide Bit;
    hide Low;
    hide High;
    hide EncodedLength;
    SextetsAt(b);
    SextetsAt(Pad(k) + s);
    Covered(k, |s|);
    var from, to := Low(k), High(k + |s|);
    var found := Sextets(b)[4 * m + from..4 * m + to];
    forall j | 0 <= j < to - from ensures found[j] == Pattern(k, s)[j] {
      SextetsAgree(b, m, k, s, from + j);
      assert found[j] == Sextets(b)[4 * m + (from + j)];
    }
  }

  lemma OccurrenceGivesBit(b: seq<Byte>, m: nat, k: nat, s: seq<Byte>, j: nat, t: nat)
    requires k < 3 && |s| > 1 && OccursAt(b, m, k, s)
    requires Low(k) <= j < High(k + |s|) && t < 6
    ensures SameBit(b, m, k, s, 6 * j + t)
  {
    hide Sextets;
    hide SextetAt;
    hide Bit;
    hide Low;
    hide High;
    hide EncodedLength;
    var padded, from, to := Pad(k) + s, Low(k), High(k + |s|);
    SextetsAt(b);
    SextetsAt(padded);
    Covered(k, |s|);
    assert Sextets(b)[4 * m + from..4 * m + to][j - from] == Sextets(padded)[from..to][j - from];
    SextetBits(b, 4 * m + j, t);
    SextetBits(padded, j, t);
    assert 6 * (4 * m + j) + t == 24 * m + (6 * j + t);
    PaddedBit(k, s, 6 * j + t);
  }

  lemma SextetsAgree(b: seq<Byte>, m: nat, k: nat, s: seq<Byte>, j: nat)
    requires k < 3 && |s| > 1 && Low(k) <= j < High(k + |s|)
    requires AgreesOnCoveredBits(b, m, k, s)
    ensures SextetAt(b, 4 * m + j) == SextetAt(Pad(k) + s, j)
  {
    Covered(k, |s|);
    forall t | 0 <= t < 6
      ensures SextetBit(SextetAt(b, 4 * m + j), t) == SextetBit(SextetAt(Pad(k) + s, j), t)
    {
      SextetBits(b, 4 * m + j, t);
      SextetBits(Pad(k) + s, j, t);
      assert 6 * (4 * m + j) + t == 24 * m + (6 * j + t);
      assert SameBit(b, m, k, s, 6 * j + t);
      PaddedBit(k, s, 6 * j + t);
    }
    SextetByBits(SextetAt(b, 4 * m + j), SextetAt(Pad(k) + s, j));
  }

  lemma LengthGrows(m: nat, n: nat)
    requires m <= n
    ensures EncodedLength(m) <= EncodedLength(n)
  {}

  lemma RoomForPattern(m: nat, k: nat, n: nat, length: nat)
    requires k < 3 && n > 1 && 3 * m + (k + n) <= length
    ensures 4 * m + High(k + n) <= EncodedLength(length)
  {
    Covered(k, n);
    LengthGrows(3 * m + (k + n), length);
    assert 4 * (3 * m + (k + n)) + 2 == 3 * (4 * m) + (4 * (k + n) + 2);
  }

  lemma BitOfPart(p: seq<Byte>, s: seq<Byte>, q: seq<Byte>, i: nat)
    requires 8 * (|p| % 3) <= i < 8 * (|p| % 3 + |s|)
    ensures SameBit(p + s + q, |p| / 3, |p| % 3, s, i)
  {
    var b, m, k := p + s + q, |p| / 3, |p| % 3;
    var j := i / 8 - k;
    assert (24 * m + i) / 8 == 3 * m + i / 8 && (24 * m + i) % 8 == i % 8;
    assert (i - 8 * k) / 8 == j && (i - 8 * k) % 8 == i % 8;
    assert b[|p| + j] == s[j];
  }

  /** Wherever `s` is, one of its three patterns is in the encoding. */
  lemma PatternFound(p: seq<Byte>, s: seq<Byte>, q: seq<Byte>)
    requires |s| > 1
    ensures OccursAt(p + s + q, |p| / 3, |p| % 3, s)
  {
    hide OccursAt;
    hide SameBit;
    hide EncodedLength;
    var b, m, k := p + s + q, |p| / 3, |p| % 3;
    Covered(k, |s|);
    RoomForPattern(m, k, |s|, |b|);
    forall i | 6 * Low(k) <= i < 6 * High(k + |s|)
      ensures SameBit(b, m, k, s, i)
    {
      BitOfPart(p, s, q, i);
    }
    OccursExactly(b, m, k, s);
  }

  // ----- In the text

  lemma Distinct(a: string, v: Sextet, w: Sextet)
    requires IsAlphabet(a)
    ensures a[v] == a[w] <==> v == w
  {}

  lemma SpelledAlike(a: string, v: seq<Sextet>, w: seq<Sextet>)
    requires IsAlphabet(a)
    ensures Spell(a, v) == Spell(a, w) <==> v == w
  {
    if Spell(a, v) == Spell(a, w) {
      forall i | 0 <= i < |v| ensures v[i] == w[i] {
        assert Spell(a, v)[i] == a[v[i]] && Spell(a, w)[i] == a[w[i]];
        Distinct(a, v[i], w[i]);
      }
    }
  }

  /** A string occurs in a text at a given offset. */
  predicate Contains(text: string, offset: nat, part: string) {
    offset + |part| <= |text| && text[offset..offset + |part|] == part
  }

  /** The pattern for the padding |p| % 3 is in the encoded text, whatever surrounds `s`. */
  lemma PatternInText(a: string, p: seq<Byte>, s: seq<Byte>, q: seq<Byte>)
    requires IsAlphabet(a) && |s| > 1
    ensures
      var k := |p| % 3;
      Contains(EncodePadded(a, p + s + q), 4 * (|p| / 3) + Low(k), Spell(a, Pattern(k, s)))
  {
    var b, k := p + s + q, |p| % 3;
    hide Sextets;
    PatternFound(p, s, q);
    Covered(k, |s|);
    var from := 4 * (|p| / 3) + Low(k);
    ContainsSpelled(a, Sextets(b), from, Pattern(k, s));
    var to := from + |Pattern(k, s)|;
    assert EncodePadded(a, b)[from..to] == Encode(a, b)[from..to];
  }

  /** In the text, too, a pattern occurs at a place exactly if the covered bits agree. */
  lemma TextMatchesExactly(a: string, b: seq<Byte>, m: nat, k: nat, s: seq<Byte>)
    requires IsAlphabet(a) && k < 3 && |s| > 1
    requires 4 * m + High(k + |s|) <= EncodedLength(|b|)
    ensures Contains(Encode(a, b), 4 * m + Low(k), Spell(a, Pattern(k, s))) <==> AgreesOnCoveredBits(b, m, k, s)
  {
    hide Sextets;
    hide AgreesOnCoveredBits;
    hide SextetAt;
    hide Low;
    hide High;
    hide EncodedLength;
    SextetsAt(b);
    SextetsAt(Pad(k) + s);
    Covered(k, |s|);
    OccursExactly(b, m, k, s);
    ContainsSpelled(a, Sextets(b), 4 * m + Low(k), Pattern(k, s));
  }

  lemma ContainsSpelled(a: string, vs: seq<Sextet>, from: nat, ws: seq<Sextet>)
    requires IsAlphabet(a) && from + |ws| <= |vs|
    ensures Contains(Spell(a, vs), from, Spell(a, ws)) <==> vs[from..from + |ws|] == ws
  {
    var part := vs[from..from + |ws|];
    assert Spell(a, vs)[from..from + |ws|] == Spell(a, part);
    SpelledAlike(a, part, ws);
  }

  /** Without padding, a pattern of whole groups occurs only where the string is. */
  lemma WholeGroupsAreFoundExactly(b: seq<Byte>, m: nat, s: seq<Byte>)
    requires |s| > 1 && |s| % 3 == 0 && 3 * m + |s| <= |b|
    ensures OccursAt(b, m, 0, s) <==> b[3 * m..3 * m + |s|] == s
  {
    if OccursAt(b, m, 0, s) {
      OccurrenceIsWhole(b, m, s);
    }
    if b[3 * m..3 * m + |s|] == s {
      hide OccursAt;
      assert b == b[..3 * m] + s + b[3 * m + |s|..];
      PatternFound(b[..3 * m], s, b[3 * m + |s|..]);
    }
  }

  lemma OccurrenceIsWhole(b: seq<Byte>, m: nat, s: seq<Byte>)
    requires |s| > 1 && |s| % 3 == 0 && 3 * m + |s| <= |b| && OccursAt(b, m, 0, s)
    ensures b[3 * m..3 * m + |s|] == s
  {
    RoomForPattern(m, 0, |s|, |b|);
    OccursExactly(b, m, 0, s);
    hide OccursAt, AgreesOnCoveredBits;
    forall i | 0 <= i < |s| ensures b[3 * m + i] == s[i] {
      WholeByte(b, m, s, i);
    }
  }

  lemma WholeByte(b: seq<Byte>, m: nat, s: seq<Byte>, i: nat)
    requires |s| > 1 && |s| % 3 == 0 && i < |s| && 3 * m + |s| <= |b|
    requires AgreesOnCoveredBits(b, m, 0, s)
    ensures b[3 * m + i] == s[i]
  {
    Covered(0, |s|);
    forall t | 0 <= t < 8 ensures ByteBit(b[3 * m + i], t) == ByteBit(s[i], t) {
      assert SameBit(b, m, 0, s, 8 * i + t);
      assert (24 * m + (8 * i + t)) / 8 == 3 * m + i && (24 * m + (8 * i + t)) % 8 == t;
    }
    ByteByBits(b[3 * m + i], s[i]);
  }

  predicate DifferAt(v: seq<Sextet>, w: seq<Sextet>, j: nat) {
    j < |v| && j < |w| && v[j] != w[j]
  }

  /** The character before a pattern depends on the byte before the string. */
  lemma LeftNeighbourVaries(k: nat, s: seq<Byte>)
    requires 0 < k < 3 && |s| > 1
    ensures
      var zeros: seq<Byte> := seq(k - 1, _ => 0);
      DifferAt(Sextets(zeros + [0] + s), Sextets(zeros + [1] + s), Low(k) - 1)
  {
    hide Sextets;
    var zeros: seq<Byte> := seq(k - 1, _ => 0);
    var s0, s1 := zeros + [0] + s, zeros + [1] + s;
    SextetsAt(s0);
    SextetsAt(s1);
    assert s0[k - 1] == 0 && s1[k - 1] == 1 && s0[k] == s[0] && s1[k] == s[0];
  }

  /** The character after a pattern depends on the byte after the string. */
  lemma RightNeighbourVaries(k: nat, s: seq<Byte>)
    requires k < 3 && |s| > 1
    ensures DifferAt(Sextets(Pad(k) + s + [0]), Sextets(Pad(k) + s + [128]), High(k + |s|))
  {
    hide Sextets;
    hide SextetAt;
    var n, s0, s1 := k + |s|, Pad(k) + s + [0], Pad(k) + s + [128];
    var j := High(n);
    var t := 8 * n - 6 * j;
    SextetsAt(s0);
    SextetsAt(s1);
    SextetBits(s0, j, t);
    SextetBits(s1, j, t);
    assert s0[n] == 0 && s1[n] == 128 && 8 * n / 8 == n;
    assert Bit(s0, 8 * n) == 0 && Bit(s1, 8 * n) == 1;
  }

  // ----- The three patterns

  /** Writes the encoding at the start of a buffer, if it fits. */
  method EncodeSlice(a: string, input: seq<Byte>, buffer: string) returns (length: Option<nat>, out: string)
    requires IsAlphabet(a)
    ensures length.None? <==> |buffer| < EncodedLength(|input|)
    ensures length.Some? ==> length.value == EncodedLength(|input|) && |out| == |buffer|
    ensures length.Some? ==> out[..length.value] == Encode(a, input)
  {
    SextetsAt(input);
    var text := Encode(a, input);
    if |buffer| < |text| {
      length, out := None, buffer;
    } else {
      length, out := Some(|text|), text + buffer[|text|..];
    }
  }

  /** What is cut out of the encoding of the padded string. */
  lemma CutPattern(a: string, k: nat, s: seq<Byte>, text: string)
    requires k < 3 && |s| > 1 && IsAlphabet(a) && text == Encode(a, Pad(k) + s)
    ensures |text| == EncodedLength(k + |s|)
    ensures
      var from, trim := if k == 2 then 3 else if k == 1 then 2 else 0, if (k + |s|) % 3 != 0 then 1 else 0;
      from <= |text| - trim && text[from..|text| - trim] == Spell(a, Pattern(k, s))
  {
    hide Sextets;
    Covered(k, |s|);
    SextetsAt(Pad(k) + s);
    var vs := Sextets(Pad(k) + s);
    assert Pattern(k, s) == vs[Low(k)..High(k + |s|)];
  }

  method Base64Patterns(s: seq<Byte>, alphabet: string) returns (patterns: seq<(nat, string)>)
    requires |s| > 1 && IsAlphabet(alphabet)
    ensures |patterns| == 3
    ensures forall i :: 0 <= i < 3 ==> patterns[i] == (2 - i, Spell(alphabet, Pattern(2 - i, s)))
  {
    hide Sextets, Encode, Spell, Pattern;
    var padded: seq<Byte> := [88, 88] + s;
    var buffer := seq(EncodedLength(|padded|), _ => '0');
    patterns := [];
    for i := 0 to 3
      invariant |patterns| == i
      invariant |buffer| >= EncodedLength(|padded| - i)
      invariant forall j :: 0 <= j < i ==> patterns[j] == (2 - j, Spell(alphabet, Pattern(2 - j, s)))
    {
      var pattern := padded[i..];
      assert pattern == Pad(2 - i) + s;
      var encoded, written := EncodeSlice(alphabet, pattern, buffer);
      assert encoded.Some?;
      var length := encoded.value;
      buffer := written[..length];
      var rightTrim := if |pattern| % 3 != 0 then 1 else 0;
      var from := if i == 0 then 3 else if i == 1 then 2 else 0;
      CutPattern(alphabet, 2 - i, s, buffer);
      patterns := patterns + [(2 - i, buffer[from..length - rightTrim])];
      LengthGrows(|padded| - (i + 1), |padded| - i);
    }
  }
}
