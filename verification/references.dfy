/**
 * `PaystackService.generateReference`: "TXN_" followed by the first sixteen
 * hex digits of a random UUID, dashes removed, upper-cased. The randomness of
 * `UUID.randomUUID()` is the input `random`: the sixteen bytes it draws.
 */
module References {
  import opened JavaText
  import opened Hex

  const ReferencePrefix: string := "TXN_"

  /**
   * `UUID.randomUUID()`: the random bytes with the version nibble set to 4
   * (byte 6) and the variant bits set to binary 10 (byte 8), as RFC 4122
   * section 4.4 prescribes; the other bytes are kept.
   */
  function RandomUuid(random: seq<Int8>): (u: seq<Int8>)
    requires |random| == 16
    ensures |u| == 16
    ensures Unsigned(u[6]) == 0x40 + Unsigned(random[6]) % 16
    ensures Unsigned(u[8]) == 0x80 + Unsigned(random[8]) % 64
    ensures forall k :: 0 <= k < 16 && k != 6 && k != 8 ==> u[k] == random[k]
  {
    random[6 := ByteOf(Unsigned(random[6]) % 16 + 0x40)][8 := ByteOf(Unsigned(random[8]) % 64 + 0x80)]
  }

  /** `UUID.toString()`: 8-4-4-4-12 lower-case hex digits joined by dashes. */
  function UuidToString(u: seq<Int8>): (s: string)
    requires |u| == 16
    ensures |s| == 36
  {
    HexOf(u[..4]) + "-" + HexOf(u[4..6]) + "-" + HexOf(u[6..8]) + "-" + HexOf(u[8..10]) + "-" + HexOf(u[10..])
  }

  /** `String.replace("-", "")`. */
  function RemoveDashes(s: string): (r: string)
    ensures |r| <= |s|
  {
    if s == [] then [] else (if s[0] == '-' then [] else [s[0]]) + RemoveDashes(s[1..])
  }

  lemma {:induction false} RemoveDashesConcat(a: string, b: string)
    ensures RemoveDashes(a + b) == RemoveDashes(a) + RemoveDashes(b)
  {
    if a != [] {
      assert (a + b)[1..] == a[1..] + b;
      RemoveDashesConcat(a[1..], b);
    } else {
      assert a + b == b;
    }
  }

  lemma {:induction false} DashFree(s: string)
    requires forall k :: 0 <= k < |s| ==> IsLowerHex(s[k])
    ensures RemoveDashes(s) == s
  {
    if s != [] {
      DashFree(s[1..]);
    }
  }

  /** Hex output holds no dash. */
  lemma HexOfDashFree(y: seq<Int8>)
    ensures RemoveDashes(HexOf(y)) == HexOf(y)
  {
    HexOfAlphabet(y);
    DashFree(HexOf(y));
  }

  /** A dash followed by a group of hex digits leaves only the digits. */
  lemma DashThenHex(x: string, y: seq<Int8>)
    ensures RemoveDashes(x + "-" + HexOf(y)) == RemoveDashes(x) + HexOf(y)
  {
    RemoveDashesConcat(x + "-", HexOf(y));
    RemoveDashesConcat(x, "-");
    assert RemoveDashes("-") == [];
    assert RemoveDashes(x) + [] == RemoveDashes(x);
    HexOfDashFree(y);
  }

  /** Appending one more dash-separated group of a UUID's text. */
  lemma StripGroup(x: string, xs: seq<Int8>, y: seq<Int8>)
    requires RemoveDashes(x) == HexOf(xs)
    ensures RemoveDashes(x + "-" + HexOf(y)) == HexOf(xs + y)
  {
    DashThenHex(x, y);
    HexOfConcat(xs, y);
  }

  /** Removing the dashes from a UUID's text leaves the hex of its sixteen bytes. */
  lemma StrippedUuid(u: seq<Int8>)
    requires |u| == 16
    ensures RemoveDashes(UuidToString(u)) == HexOf(u)
  {
    var a, b, c, d, e := u[..4], u[4..6], u[6..8], u[8..10], u[10..];
    var s1 := HexOf(a);
    var s2 := s1 + "-" + HexOf(b);
    var s3 := s2 + "-" + HexOf(c);
    var s4 := s3 + "-" + HexOf(d);
    HexOfDashFree(a);
    StripGroup(s1, a, b);
    StripGroup(s2, a + b, c);
    StripGroup(s3, a + b + c, d);
    StripGroup(s4, a + b + c + d, e);
    UuidGroupsJoin(u);
  }

  /** The five groups of a UUID's text cover its sixteen bytes in order. */
  lemma UuidGroupsJoin(u: seq<Int8>)
    requires |u| == 16
    ensures u[..4] + u[4..6] + u[6..8] + u[8..10] + u[10..] == u
  {
    assert u[..4] + u[4..6] == u[..6];
    assert u[..6] + u[6..8] == u[..8];
    assert u[..8] + u[8..10] == u[..10];
    assert u[..10] + u[10..] == u;
  }

  /** The dash-free hex of a UUID begins with the hex of its first eight bytes. */
  lemma FirstSixteenDigits(u: seq<Int8>)
    requires |u| == 16
    ensures |RemoveDashes(UuidToString(u))| == 32
    ensures RemoveDashes(UuidToString(u))[..16] == HexOf(u[..8])
  {
    StrippedUuid(u);
    HexOfConcat(u[..8], u[8..]);
    assert u[..8] + u[8..] == u;
  }

  /** A character of the reference's digits, 0-9 and A-F. */
  predicate IsUpperHex(c: char)
  {
    '0' <= c <= '9' || 'A' <= c <= 'F'
  }

  /** The upper-cased hex of eight bytes: sixteen digits 0-9 and A-F, one-to-one. */
  lemma UpperHexOf(bytes: seq<Int8>)
    ensures |ToUpperCase(HexOf(bytes))| == 2 * |bytes|
    ensures forall k :: 0 <= k < 2 * |bytes| ==> IsUpperHex(ToUpperCase(HexOf(bytes))[k])
  {
    HexOfAlphabet(bytes);
  }

  /** The version nibble of a random UUID shows as the digit '4' at index 12. */
  lemma VersionDigit(u: seq<Int8>)
    requires |u| == 16 && Unsigned(u[6]) / 16 == 4
    ensures ToUpperCase(HexOf(u[..8]))[12] == '4'
  {
    HexOfAt(u[..8], 6);
  }

  /**
   * `generateReference()`: "TXN_" and sixteen upper-case hex digits, twenty
   * characters in all; the thirteenth digit is the UUID's version, always '4'.
   */
  function GenerateReference(random: seq<Int8>): (r: string)
    requires |random| == 16
    ensures r == ReferencePrefix + ToUpperCase(HexOf(RandomUuid(random)[..8]))
    ensures |r| == 20 && r[..4] == ReferencePrefix
    ensures forall k :: 4 <= k < 20 ==> IsUpperHex(r[k])
    ensures r[16] == '4'
  {
    var u := RandomUuid(random);
    FirstSixteenDigits(u);
    UpperHexOf(u[..8]);
    VersionDigit(u);
    ReferencePrefix + ToUpperCase(RemoveDashes(UuidToString(u))[..16])
  }

  /** Upper-casing is one-to-one on lower-case hex strings. */
  lemma UpperCaseHexInjective(s: string, t: string)
    requires forall k :: 0 <= k < |s| ==> IsLowerHex(s[k])
    requires forall k :: 0 <= k < |t| ==> IsLowerHex(t[k])
    requires ToUpperCase(s) == ToUpperCase(t)
    ensures s == t
  {
    assert |s| == |t|;
    forall k | 0 <= k < |s|
      ensures s[k] == t[k]
    {
      assert UpperCase(s[k]) == UpperCase(t[k]);
    }
  }

  /** The digits of a reference determine the first eight bytes of its UUID. */
  lemma ReferenceDeterminesUuidPrefix(a: seq<Int8>, b: seq<Int8>)
    requires |a| == 16 && |b| == 16
    requires GenerateReference(a) == GenerateReference(b)
    ensures RandomUuid(a)[..8] == RandomUuid(b)[..8]
  {
    var ua, ub := RandomUuid(a)[..8], RandomUuid(b)[..8];
    assert ToUpperCase(HexOf(ua)) == GenerateReference(a)[4..];
    assert ToUpperCase(HexOf(ub)) == GenerateReference(b)[4..];
    HexOfAlphabet(ua);
    HexOfAlphabet(ub);
    UpperCaseHexInjective(HexOf(ua), HexOf(ub));
    HexOfInjective(ua, ub);
  }

  /** The UUID's first eight bytes as a function of the random draw. */
  lemma UuidPrefixBits(a: seq<Int8>, b: seq<Int8>)
    requires |a| == 16 && |b| == 16
    ensures RandomUuid(a)[..8] == RandomUuid(b)[..8] <==>
      && a[..6] == b[..6]
      && Unsigned(a[6]) % 16 == Unsigned(b[6]) % 16
      && a[7] == b[7]
  {
    var ua, ub := RandomUuid(a), RandomUuid(b);
    if ua[..8] == ub[..8] {
      assert ua[6] == ub[6] && ua[7] == ub[7];
      forall k | 0 <= k < 6 ensures a[k] == b[k] {
        assert ua[..8][k] == ub[..8][k];
      }
    }
    if a[..6] == b[..6] && Unsigned(a[6]) % 16 == Unsigned(b[6]) % 16 && a[7] == b[7] {
      assert Unsigned(ua[6]) == Unsigned(ub[6]);
      assert ByteOf(Unsigned(ua[6])) == ua[6] && ByteOf(Unsigned(ub[6])) == ub[6];
      forall k | 0 <= k < 8 ensures ua[k] == ub[k] {
        if k < 6 { assert a[k] == a[..6][k]; assert b[k] == b[..6][k]; }
      }
      assert ua[..8] == ub[..8];
    }
  }

  /**
   * Two references are equal exactly when the random draws agree on the 60
   * bits that reach the reference: bytes 0 to 5, the low nibble of byte 6 and
   * byte 7.
   */
  lemma ReferenceEntropy(a: seq<Int8>, b: seq<Int8>)
    requires |a| == 16 && |b| == 16
    ensures GenerateReference(a) == GenerateReference(b) <==>
      && a[..6] == b[..6]
      && Unsigned(a[6]) % 16 == Unsigned(b[6]) % 16
      && a[7] == b[7]
  {
    UuidPrefixBits(a, b);
    if GenerateReference(a) == GenerateReference(b) {
      ReferenceDeterminesUuidPrefix(a, b);
    }
  }
}
