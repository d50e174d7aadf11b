/** UTF-8 as the encoding of code points, section 3 of RFC 3629. */
module CodePoints {
  import opened Bytes
  import opened Utf8

  /** Code points without the surrogates. */
  predicate IsScalar(c: nat) { c <= 0xD7FF || 0xE000 <= c <= 0x10FFFF }

  /** The octets that the table in section 3 gives for the number `c`. */
  function Encode(c: nat): (s: seq<Byte>)
    requires IsScalar(c)
  {
    if c <= 0x7F then [c]
    else if c <= 0x7FF then [0xC0 + c / 64, 0x80 + c % 64]
    else if c <= 0xFFFF then [0xE0 + c / 4096, 0x80 + c / 64 % 64, 0x80 + c % 64]
    else [0xF0 + c / 262144, 0x80 + c / 4096 % 64, 0x80 + c / 64 % 64, 0x80 + c % 64]
  }

  predicate AreScalars(cs: seq<nat>) { forall i :: 0 <= i < |cs| ==> IsScalar(cs[i]) }

  function EncodeAll(cs: seq<nat>): seq<Byte>
    requires AreScalars(cs)
  {
    if cs == [] then [] else Encode(cs[0]) + EncodeAll(cs[1..])
  }

  ghost predicate IsEncoded(s: seq<Byte>) {
    exists cs: seq<nat> :: AreScalars(cs) && s == EncodeAll(cs)
  }

  // ----- One character

  lemma GoodUpTo(s: seq<Byte>, n: nat)
    requires s != [] && n == Length(s[0]) && 0 < n <= |s|
    requires forall i :: 1 <= i < n ==> Follows(s[0], i, s[i])
    ensures Good(s, 1) == n
  {
    GoodFrom(s, n, 1);
  }

  lemma {:induction false} GoodFrom(s: seq<Byte>, n: nat, i: nat)
    requires s != [] && n == Length(s[0]) && 1 <= i <= n <= |s|
    requires forall k :: i <= k < n ==> Follows(s[0], k, s[k])
    ensures Good(s, i) == n
    decreases n - i
  {
    if i < n {
      GoodFrom(s, n, i + 1);
    }
  }

  lemma {:induction false} GoodFollows(s: seq<Byte>, i: nat, k: nat)
    requires 1 <= i <= k < |s| && k < Good(s, i)
    ensures Follows(s[0], k, s[k])
    decreases k - i
  {
    if i < k {
      GoodFollows(s, i + 1, k);
    }
  }

  lemma TwoFollow(c: nat)
    requires 0x80 <= c <= 0x7FF
    ensures var e := Encode(c); Length(e[0]) == 2 && Follows(e[0], 1, e[1])
  {}

  lemma ThreeFollow(c: nat)
    requires 0x800 <= c <= 0xFFFF && IsScalar(c)
    ensures var e := Encode(c); Length(e[0]) == 3 && Follows(e[0], 1, e[1]) && Follows(e[0], 2, e[2])
  {}

  lemma FourFollow(c: nat)
    requires 0x10000 <= c <= 0x10FFFF
    ensures
      var e := Encode(c);
      Length(e[0]) == 4 && Follows(e[0], 1, e[1]) && Follows(e[0], 2, e[2]) && Follows(e[0], 3, e[3])
  {}

  lemma EncodedFollows(c: nat)
    requires IsScalar(c)
    ensures Length(Encode(c)[0]) == |Encode(c)| > 0
    ensures forall i :: 1 <= i < |Encode(c)| ==> Follows(Encode(c)[0], i, Encode(c)[i])
  {
    hide Follows;
    if c <= 0x7F {
    } else if c <= 0x7FF {
      TwoFollow(c);
    } else if c <= 0xFFFF {
      ThreeFollow(c);
    } else {
      FourFollow(c);
    }
  }

  /** The octets of a code point start with a character of that many bytes. */
  lemma EncodedIsGood(c: nat, t: seq<Byte>)
    requires IsScalar(c)
    ensures var s := Encode(c) + t; Length(s[0]) == Good(s, 1) == |Encode(c)| && s[|Encode(c)|..] == t
  {
    var e := Encode(c);
    var s := e + t;
    EncodedFollows(c);
    assert forall i :: 0 <= i < |e| ==> s[i] == e[i];
    GoodUpTo(s, |e|);
  }

  /** The number in the bits of a character. */
  function Number(s: seq<Byte>): nat
    requires s != [] && Length(s[0]) <= |s|
  {
    var first: nat := s[0];
    match Length(s[0])
    case 2 => Two(first % 32, s[1] % 64)
    case 3 => Three(first % 16, s[1] % 64, s[2] % 64)
    case 4 => Four(first % 8, s[1] % 64, s[2] % 64, s[3] % 64)
    case _ => first
  }

  function Two(x: nat, y: nat): nat { x * 64 + y }

  function Three(x: nat, y: nat, z: nat): nat { x * 4096 + y * 64 + z }

  function Four(w: nat, x: nat, y: nat, z: nat): nat { w * 262144 + x * 4096 + y * 64 + z }

  lemma TwoIsSplit(x: nat, y: nat)
    requires y < 64
    ensures Two(x, y) / 64 == x && Two(x, y) % 64 == y
  {}

  lemma ThreeIsSplit(x: nat, y: nat, z: nat)
    requires y < 64 && z < 64
    ensures Three(x, y, z) / 4096 == x && Three(x, y, z) / 64 % 64 == y && Three(x, y, z) % 64 == z
  {
    var c := Three(x, y, z);
    assert c == (x * 64 + y) * 64 + z;
    TwoIsSplit(x * 64 + y, z);
    TwoIsSplit(x, y);
    assert c / 4096 == c / 64 / 64;
  }

  lemma FourIsSplit(w: nat, x: nat, y: nat, z: nat)
    requires x < 64 && y < 64 && z < 64
    ensures
      var c := Four(w, x, y, z);
      c / 262144 == w && c / 4096 % 64 == x && c / 64 % 64 == y && c % 64 == z
  {
    var c := Four(w, x, y, z);
    assert c == Three(w * 64 + x, y, z);
    ThreeIsSplit(w * 64 + x, y, z);
    TwoIsSplit(w, x);
    assert c / 262144 == c / 4096 / 64;
  }

  lemma TwoBytes(s: seq<Byte>)
    requires s != [] && Length(s[0]) == 2 <= |s| && Follows(s[0], 1, s[1])
    ensures IsScalar(Number(s)) && Encode(Number(s)) == s[..2]
  {
    var x, y := s[0] - 0xC0, s[1] - 0x80;
    assert s[0] % 32 == x && s[1] % 64 == y;
    TwoIsSplit(x, y);
    assert s[..2] == [s[0], s[1]];
  }

  lemma ThreeBytes(s: seq<Byte>)
    requires s != [] && Length(s[0]) == 3 <= |s| && Follows(s[0], 1, s[1]) && Follows(s[0], 2, s[2])
    ensures IsScalar(Number(s)) && Encode(Number(s)) == s[..3]
  {
    var x, y, z := s[0] - 0xE0, s[1] - 0x80, s[2] - 0x80;
    assert s[0] % 16 == x && s[1] % 64 == y && s[2] % 64 == z;
    ThreeIsSplit(x, y, z);
    assert s[..3] == [s[0], s[1], s[2]];
  }

  lemma FourBytesNumber(s: seq<Byte>) returns (w: nat, x: nat, y: nat, z: nat)
    requires s != [] && Length(s[0]) == 4 <= |s|
    requires Follows(s[0], 1, s[1]) && Follows(s[0], 2, s[2]) && Follows(s[0], 3, s[3])
    ensures s[..4] == [0xF0 + w, 0x80 + x, 0x80 + y, 0x80 + z] && Number(s) == Four(w, x, y, z)
    ensures w <= 4 && x < 64 && y < 64 && z < 64 && (w == 0 ==> x >= 16) && (w == 4 ==> x < 16)
  {
    w, x, y, z := s[0] - 0xF0, s[1] - 0x80, s[2] - 0x80, s[3] - 0x80;
    assert s[0] % 8 == w && s[1] % 64 == x && s[2] % 64 == y && s[3] % 64 == z;
    assert s[..4] == [s[0], s[1], s[2], s[3]];
  }

  lemma FourBytes(s: seq<Byte>)
    requires s != [] && Length(s[0]) == 4 <= |s|
    requires Follows(s[0], 1, s[1]) && Follows(s[0], 2, s[2]) && Follows(s[0], 3, s[3])
    ensures IsScalar(Number(s)) && Encode(Number(s)) == s[..4]
  {
    var w, x, y, z := FourBytesNumber(s);
    hide Number, Follows, Length;
    FourIsSplit(w, x, y, z);
  }

  lemma CharacterIsEncoded(s: seq<Byte>)
    requires s != [] && Good(s, 1) == Length(s[0])
    ensures IsScalar(Number(s)) && Encode(Number(s)) == s[..Length(s[0])]
  {
    var n := Length(s[0]);
    forall k | 1 <= k < n ensures Follows(s[0], k, s[k]) {
      GoodFollows(s, 1, k);
    }
    hide Follows, Encode, Number;
    match n
    case 2 => TwoBytes(s);
    case 3 => ThreeBytes(s);
    case 4 => FourBytes(s);
    case _ => OneByte(s);
  }

  lemma OneByte(s: seq<Byte>)
    requires s != [] && Length(s[0]) == 1
    ensures IsScalar(Number(s)) && Encode(Number(s)) == s[..1]
  {}

  /** Decoding by the bits gives back the code point. */
  lemma NumberOfEncoded(c: nat, t: seq<Byte>)
    requires IsScalar(c)
    ensures var s := Encode(c) + t; Length(s[0]) <= |s| && Number(s) == c
  {
    var s := Encode(c) + t;
    EncodedIsGood(c, t);
    CharacterIsEncoded(s);
    assert s[..|Encode(c)|] == Encode(c);
    hide Number;
    EncodedOnce(c, Number(s));
  }

  lemma Joined(c: nat)
    ensures c == Two(c / 64, c % 64) == Three(c / 4096, c / 64 % 64, c % 64)
    ensures c == Four(c / 262144, c / 4096 % 64, c / 64 % 64, c % 64)
  {
    var x := c / 64;
    var y := x / 64;
    assert x == y * 64 + x % 64 && y == y / 64 * 64 + y % 64;
    assert c / 4096 == y && c / 262144 == y / 64;
  }

  lemma EncodedOnce(c: nat, d: nat)
    requires IsScalar(c) && IsScalar(d) && Encode(c) == Encode(d)
    ensures c == d
  {
    Joined(c);
    Joined(d);
    hide Two, Three, Four, IsScalar;
    var e := Encode(c);
    assert e[0] == Encode(d)[0] && |e| == |Encode(d)|;
    assert |e| > 1 ==> e[1] == Encode(d)[1];
    assert |e| > 2 ==> e[2] == Encode(d)[2];
    assert |e| > 3 ==> e[3] == Encode(d)[3];
  }

  // ----- Whole texts

  lemma {:induction false} EncodedIsValid(cs: seq<nat>)
    requires AreScalars(cs)
    ensures Valid(EncodeAll(cs))
    decreases |cs|
  {
    if cs != [] {
      EncodedIsValid(cs[1..]);
      EncodedIsGood(cs[0], EncodeAll(cs[1..]));
    }
  }

  /** The code points of a valid text. */
  function Decode(s: seq<Byte>): seq<nat>
    requires Valid(s)
    decreases |s|
  {
    if s == [] then [] else [Number(s)] + Decode(s[Length(s[0])..])
  }

  /** A valid text is the encoding of its code points. */
  lemma {:induction false} DecodedIsEncoded(s: seq<Byte>)
    requires Valid(s)
    ensures AreScalars(Decode(s)) && EncodeAll(Decode(s)) == s
    decreases |s|
  {
    hide Length, Good, Encode, Number, IsScalar, Valid;
    if s != [] {
      FirstCharacter(s);
      var n := Length(s[0]);
      DecodedIsEncoded(s[n..]);
      EncodedCons(Number(s), Decode(s[n..]));
      assert s == s[..n] + s[n..];
    }
  }

  lemma FirstCharacter(s: seq<Byte>)
    requires Valid(s) && s != []
    ensures
      var n := Length(s[0]);
      && 0 < n <= |s| && Valid(s[n..]) && IsScalar(Number(s)) && Encode(Number(s)) == s[..n]
      && Decode(s) == [Number(s)] + Decode(s[n..])
  {
    CharacterIsEncoded(s);
  }

  lemma EncodedCons(c: nat, cs: seq<nat>)
    requires IsScalar(c) && AreScalars(cs)
    ensures AreScalars([c] + cs) && EncodeAll([c] + cs) == Encode(c) + EncodeAll(cs)
  {
    hide Encode, IsScalar;
    assert ([c] + cs)[1..] == cs;
  }

  /** Decoding inverts encoding. */
  lemma {:induction false} EncodedIsDecoded(cs: seq<nat>)
    requires AreScalars(cs)
    ensures Valid(EncodeAll(cs)) && Decode(EncodeAll(cs)) == cs
    decreases |cs|
  {
    EncodedIsValid(cs);
    if cs != [] {
      hide Encode, Number, Good;
      EncodedIsDecoded(cs[1..]);
      EncodedIsGood(cs[0], EncodeAll(cs[1..]));
      NumberOfEncoded(cs[0], EncodeAll(cs[1..]));
    }
  }

  /** The texts that validation accepts are exactly the encodings of code points. */
  lemma ValidIsEncoded(s: seq<Byte>)
    ensures Valid(s) <==> IsEncoded(s)
  {
    if Valid(s) {
      DecodedIsEncoded(s);
    }
    if IsEncoded(s) {
      var cs: seq<nat> :| AreScalars(cs) && s == EncodeAll(cs);
      EncodedIsValid(cs);
    }
  }
}
