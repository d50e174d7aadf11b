/** Validation of UTF-8, following the syntax in section 4 of RFC 3629. */
module Utf8 {
  import opened Bytes

  /** The length of a character that starts with `b`, or 0 if none does. */
  function Length(b: Byte): nat {
    if b < 0x80 then 1
    else if 0xC2 <= b <= 0xDF then 2
    else if 0xE0 <= b <= 0xEF then 3
    else if 0xF0 <= b <= 0xF4 then 4
    else 0
  }

  /** `b` can be the byte at position `i` of a character that starts with `first`. */
  predicate Follows(first: Byte, i: nat, b: Byte) {
    if i == 1 && first == 0xE0 then 0xA0 <= b <= 0xBF
    else if i == 1 && first == 0xED then 0x80 <= b <= 0x9F
    else if i == 1 && first == 0xF0 then 0x90 <= b <= 0xBF
    else if i == 1 && first == 0xF4 then 0x80 <= b <= 0x8F
    else 0x80 <= b <= 0xBF
  }

  /** How many bytes at the start of `s` go on with its first character. */
  function Good(s: seq<Byte>, i: nat): (n: nat)
    requires 1 <= i <= |s|
    ensures i <= n <= |s|
    decreases |s| - i
  {
    if i < |s| && i < Length(s[0]) && Follows(s[0], i, s[i]) then Good(s, i + 1) else i
  }

  predicate Valid(s: seq<Byte>)
    decreases |s|
  {
    s == [] || (
      var n := Length(s[0]);
      n > 0 && Good(s, 1) == n && Valid(s[n..])
    )
  }

  /**
   The outcome of validating `s`: it is valid; or it is valid up to some byte
   and ends in the middle of a character; or it is valid up to some byte, where
   `errorLen` bytes can not start a character.
   */
  datatype Outcome = Complete | Truncated(validUpTo: nat) | Invalid(validUpTo: nat, errorLen: nat) {
    function Shift(n: nat): Outcome {
      match this
      case Complete => Complete
      case Truncated(m) => Truncated(n + m)
      case Invalid(m, e) => Invalid(n + m, e)
    }
  }

  function Check(s: seq<Byte>): (o: Outcome)
    ensures o.Truncated? ==> o.validUpTo < |s|
    decreases |s|
  {
    if s == [] then Complete
    else
      var n, good := Length(s[0]), Good(s, 1);
      if n == 0 then Invalid(0, 1)
      else if good == n then Check(s[n..]).Shift(n)
      else if good == |s| then Truncated(0)
      else Invalid(0, good)
  }

  lemma {:induction false} GoodIsPrefix(s: seq<Byte>, t: seq<Byte>, i: nat)
    requires 1 <= i <= |s|
    ensures Good(s, i) < |s| || (i <= Length(s[0]) && Good(s, i) == Length(s[0])) ==> Good(s + t, i) == Good(s, i)
    ensures Good(s + t, i) >= Good(s, i)
    decreases |s| - i
  {
    assert (s + t)[0] == s[0];
    if i < |s| {
      assert (s + t)[i] == s[i];
      if i < Length(s[0]) && Follows(s[0], i, s[i]) {
        GoodIsPrefix(s, t, i + 1);
      }
    }
  }

  lemma {:induction false} GoodIsBounded(s: seq<Byte>, i: nat)
    requires 1 <= i <= |s| && i <= Length(s[0])
    ensures Good(s, i) <= Length(s[0])
    decreases |s| - i
  {
    if i < |s| && i < Length(s[0]) && Follows(s[0], i, s[i]) {
      GoodIsBounded(s, i + 1);
    }
  }

  lemma {:induction false} GoodOfCharacter(s: seq<Byte>, n: nat, i: nat)
    requires 1 <= i <= n <= |s| && n <= Length(s[0]) && Good(s, i) >= n
    ensures Good(s[..n], i) == n
    decreases n - i
  {
    if i < n {
      GoodOfCharacter(s, n, i + 1);
    }
  }

  /** Complete means valid. */
  lemma {:induction false} CheckIsValid(s: seq<Byte>)
    ensures Valid(s) <==> Check(s) == Complete
    decreases |s|
  {
    if s != [] {
      var n := Length(s[0]);
      if n > 0 && Good(s, 1) == n {
        CheckIsValid(s[n..]);
      }
    }
  }

  lemma JoinCharacter(s: seq<Byte>, n: nat, m: nat)
    requires 0 < n <= n + m <= |s| && n == Length(s[0]) && Good(s, 1) == n && Valid(s[n..][..m])
    ensures s[n + m..] == s[n..][m..] && Valid(s[..n + m])
  {
    assert s[..n + m] == s[..n] + s[n..][..m];
    GoodOfCharacter(s, n, 1);
    CharThenValid(s[..n], s[n..][..m]);
  }

  /** What comes before is valid; what is truncated is at most three bytes long. */
  lemma {:induction false} CheckPrefix(s: seq<Byte>)
    ensures
      var o := Check(s);
      && (o.Truncated? ==> Valid(s[..o.validUpTo]) && Check(s[o.validUpTo..]) == Truncated(0))
      && (o.Truncated? ==> 0 < |s| - o.validUpTo <= 3)
    decreases |s|
  {
    if s != [] {
      var n := Length(s[0]);
      var o := Check(s);
      if n > 0 {
        GoodIsBounded(s, 1);
        if Good(s, 1) == n {
          CheckPrefix(s[n..]);
          if o.Truncated? {
            JoinCharacter(s, n, o.validUpTo - n);
          }
        } else if o.Truncated? {
          assert s[0..] == s && s[..0] == [];
        }
      }
    }
  }

  /** A character followed by valid text is valid. */
  lemma CharThenValid(c: seq<Byte>, t: seq<Byte>)
    requires c != [] && Valid(t)
    requires Length(c[0]) == |c|
    ensures Good(c, 1) == |c| ==> Valid(c + t)
  {
    GoodIsPrefix(c, t, 1);
    assert (c + t)[|c|..] == t;
  }

  // ----- Validation of a text in pieces

  /** After valid text, validation goes on as from the start. */
  lemma {:induction false} CheckAfterValid(e: seq<Byte>, t: seq<Byte>)
    requires Valid(e)
    ensures Check(e + t) == Check(t).Shift(|e|)
    decreases |e|
  {
    if e == [] {
      assert e + t == t;
    } else {
      var n := Length(e[0]);
      GoodIsPrefix(e, t, 1);
      assert (e + t)[0] == e[0] && (e + t)[n..] == e[n..] + t;
      CheckAfterValid(e[n..], t);
    }
  }

  /** What is invalid stays so, whatever follows. */
  lemma {:induction false} InvalidStays(s: seq<Byte>, t: seq<Byte>)
    requires Check(s).Invalid?
    ensures Check(s + t) == Check(s)
    decreases |s|
  {
    var n := Length(s[0]);
    assert (s + t)[0] == s[0];
    GoodIsPrefix(s, t, 1);
    if n > 0 {
      GoodIsBounded(s, 1);
      if Good(s, 1) == n {
        assert (s + t)[n..] == s[n..] + t;
        InvalidStays(s[n..], t);
      }
    }
  }

  /** The least byte that can be at position `i` of a character. */
  function Least(first: Byte, i: nat): (b: Byte)
    ensures Follows(first, i, b)
  {
    if i == 1 && first == 0xE0 then 0xA0 else if i == 1 && first == 0xF0 then 0x90 else 0x80
  }

  /** Bytes that complete a character. */
  function Completion(s: seq<Byte>): seq<Byte>
    requires s != [] && |s| <= Length(s[0])
    decreases Length(s[0]) - |s|
  {
    if |s| == Length(s[0]) then [] else [Least(s[0], |s|)] + Completion(s + [Least(s[0], |s|)])
  }

  lemma {:induction false} CompletionCompletes(s: seq<Byte>)
    requires s != [] && |s| <= Length(s[0]) && Good(s, 1) == |s|
    ensures Valid(s + Completion(s))
    decreases Length(s[0]) - |s|
  {
    if |s| == Length(s[0]) {
      assert s + [] == s && s[|s|..] == [];
    } else {
      var b := Least(s[0], |s|);
      OneMoreGood(s, b, 1);
      CompletionCompletes(s + [b]);
      assert s + ([b] + Completion(s + [b])) == s + [b] + Completion(s + [b]);
    }
  }

  lemma {:induction false} OneMoreGood(s: seq<Byte>, b: Byte, i: nat)
    requires 1 <= i <= |s| < Length(s[0]) && Good(s, i) == |s| && Follows(s[0], |s|, b)
    ensures Good(s + [b], i) == |s| + 1
    decreases |s| - i
  {
    var all := s + [b];
    assert all[0] == s[0];
    if i < |s| {
      assert all[i] == s[i];
      OneMoreGood(s, b, i + 1);
    } else {
      assert all[|s|] == b;
      assert Good(all, i) == Good(all, i + 1);
    }
  }

  /** Some continuation of `s` is valid. */
  ghost predicate Extendable(s: seq<Byte>) {
    exists t :: Valid(s + t)
  }

  lemma TruncatedCharacter(c: seq<Byte>)
    requires Check(c) == Truncated(0)
    ensures 0 < |c| < Length(c[0]) && Good(c, 1) == |c|
  {
    if Length(c[0]) > 0 {
      GoodIsBounded(c, 1);
    }
  }

  lemma TruncatedIsExtendable(s: seq<Byte>)
    requires Check(s).Truncated?
    ensures Extendable(s)
  {
    CheckPrefix(s);
    var n := Check(s).validUpTo;
    var e, c := s[..n], s[n..];
    TruncatedCharacter(c);
    CompletionCompletes(c);
    hide Valid;
    hide Completion;
    hide Check;
    var whole := c + Completion(c);
    CheckAfterValid(e, whole);
    CheckIsValid(whole);
    CheckIsValid(e + whole);
    assert e + whole == s + Completion(c);
    assert Valid(s + Completion(c));
  }

  /** Validation fails for good exactly when nothing that follows can help. */
  lemma InvalidIsHopeless(s: seq<Byte>)
    ensures Check(s).Invalid? <==> !Extendable(s)
  {
    hide Valid;
    hide Check;
    CheckIsValid(s);
    if Check(s).Invalid? {
      forall t ensures !Valid(s + t) {
        InvalidStays(s, t);
        CheckIsValid(s + t);
      }
    } else if Check(s).Complete? {
      assert s + [] == s;
      assert Valid(s + []);
    } else {
      TruncatedIsExtendable(s);
    }
  }
}
