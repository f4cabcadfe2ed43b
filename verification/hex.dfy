/**
 * The lower-case hex encoding of `PaystackService.bytesToHex`, which appends
 * `String.format("%02x", b)` for every byte, and a decoder that inverts it.
 */
module Hex {
  import opened Wrappers
  import opened JavaText

  /** A character of the output alphabet, 0-9 and a-f. */
  predicate IsLowerHex(c: char)
  {
    '0' <= c <= '9' || 'a' <= c <= 'f'
  }

  /** The hex digit for a nibble. */
  function HexDigit(n: nat): (c: char)
    requires n < 16
    ensures IsLowerHex(c)
  {
    if n < 10 then ('0' as int + n) as char else ('a' as int + n - 10) as char
  }

  /** The nibble a lower-case hex digit stands for; None for any other character. */
  function DigitValue(c: char): (r: Option<nat>)
    ensures r.Some? ==> r.value < 16 && HexDigit(r.value) == c
    ensures r.None? <==> !IsLowerHex(c)
  {
    if '0' <= c <= '9' then Some(c as int - '0' as int)
    else if 'a' <= c <= 'f' then Some(c as int - 'a' as int + 10)
    else None
  }

  /** `String.format("%02x", b)`: a negative byte is read as b + 256, high nibble first. */
  function ByteHex(b: Int8): string
  {
    [HexDigit(Unsigned(b) / 16), HexDigit(Unsigned(b) % 16)]
  }

  /** The string `bytesToHex` builds: the bytes' two-digit codes, in order. */
  function HexOf(bytes: seq<Int8>): (s: string)
    ensures |s| == 2 * |bytes|
  {
    if bytes == [] then ""
    else HexOf(bytes[..|bytes| - 1]) + ByteHex(bytes[|bytes| - 1])
  }

  /** The loop of `bytesToHex`, appending to a string builder. */
  method BytesToHex(bytes: seq<Int8>) returns (s: string)
    ensures s == HexOf(bytes)
    ensures |s| == 2 * |bytes|
  {
    s := "";
    for i := 0 to |bytes|
      invariant s == HexOf(bytes[..i])
    {
      assert bytes[..i + 1][..i] == bytes[..i];
      s := s + ByteHex(bytes[i]);
    }
    assert bytes[..|bytes|] == bytes;
  }

  /** Characters 2i and 2i+1 are the high and the low nibble of byte i, read unsigned. */
  lemma {:induction false} HexOfAt(bytes: seq<Int8>, i: nat)
    requires i < |bytes|
    ensures HexOf(bytes)[2 * i] == HexDigit(Unsigned(bytes[i]) / 16)
    ensures HexOf(bytes)[2 * i + 1] == HexDigit(Unsigned(bytes[i]) % 16)
  {
    var init := bytes[..|bytes| - 1];
    if i < |bytes| - 1 {
      HexOfAt(init, i);
    }
  }

  /** Every character of the output is one of 0-9 and a-f. */
  lemma HexOfAlphabet(bytes: seq<Int8>)
    ensures forall k :: 0 <= k < |HexOf(bytes)| ==> IsLowerHex(HexOf(bytes)[k])
  {
    forall k | 0 <= k < |HexOf(bytes)|
      ensures IsLowerHex(HexOf(bytes)[k])
    {
      HexOfAt(bytes, k / 2);
      assert k == 2 * (k / 2) || k == 2 * (k / 2) + 1;
    }
  }

  /** Encoding distributes over concatenation. */
  lemma {:induction false} HexOfConcat(a: seq<Int8>, b: seq<Int8>)
    ensures HexOf(a + b) == HexOf(a) + HexOf(b)
  {
    if b != [] {
      var b' := b[..|b| - 1];
      assert (a + b)[..|a + b| - 1] == a + b';
      HexOfConcat(a, b');
    } else {
      assert a + b == a;
    }
  }

  /** The byte two lower-case hex digits spell, high nibble first. */
  function PairByte(hi: char, lo: char): Option<Int8>
  {
    var h := DigitValue(hi);
    var l := DigitValue(lo);
    if h.None? || l.None? then None else Some(ByteOf(h.value * 16 + l.value))
  }

  /** The two digits of a byte spell that byte. */
  lemma ByteHexDecodes(b: Int8)
    ensures PairByte(ByteHex(b)[0], ByteHex(b)[1]) == Some(b)
  {
    var u := Unsigned(b);
    DigitOfHexDigit(u / 16);
    DigitOfHexDigit(u % 16);
    assert Unsigned(ByteOf(u / 16 * 16 + u % 16)) == Unsigned(b);
  }

  lemma DigitOfHexDigit(n: nat)
    requires n < 16
    ensures DigitValue(HexDigit(n)) == Some(n)
  {
  }

  /** Two digits that spell a byte are that byte's two digits. */
  lemma PairByteSound(hi: char, lo: char, b: Int8)
    requires PairByte(hi, lo) == Some(b)
    ensures ByteHex(b) == [hi, lo]
  {
    var h := DigitValue(hi).value;
    var l := DigitValue(lo).value;
    assert Unsigned(b) == h * 16 + l;
    assert Unsigned(b) / 16 == h && Unsigned(b) % 16 == l;
  }

  /** The decoder: pairs of lower-case hex digits back to bytes; None for any other string. */
  function HexDecode(s: string): Option<seq<Int8>>
    decreases |s|
  {
    if s == [] then Some([])
    else if |s| < 2 then None
    else
      var last := PairByte(s[|s| - 2], s[|s| - 1]);
      var init := HexDecode(s[..|s| - 2]);
      if last.None? || init.None? then None
      else Some(init.value + [last.value])
  }

  /** Encoding one more byte appends that byte's two digits. */
  lemma HexOfSnoc(init: seq<Int8>, b: Int8)
    ensures HexOf(init + [b]) == HexOf(init) + ByteHex(b)
  {
    assert (init + [b])[..|init|] == init;
  }

  /** Decoding the output of the encoder gives the original bytes back. */
  lemma {:induction false} HexRoundTrip(bytes: seq<Int8>)
    ensures HexDecode(HexOf(bytes)) == Some(bytes)
  {
    if bytes != [] {
      var init, last := bytes[..|bytes| - 1], bytes[|bytes| - 1];
      assert init + [last] == bytes;
      HexOfSnoc(init, last);
      var s := HexOf(init) + ByteHex(last);
      assert s[..|s| - 2] == HexOf(init);
      HexRoundTrip(init);
      ByteHexDecodes(last);
    }
  }

  /** The decoder accepts only encoder output: whatever it decodes re-encodes to the same string. */
  lemma {:induction false} HexDecodeSound(s: string, bytes: seq<Int8>)
    requires HexDecode(s) == Some(bytes)
    ensures HexOf(bytes) == s
    decreases |s|
  {
    if s != [] {
      var t, hi, lo := s[..|s| - 2], s[|s| - 2], s[|s| - 1];
      var pair, rest := PairByte(hi, lo), HexDecode(t);
      HexDecodeSound(t, rest.value);
      PairByteSound(hi, lo, pair.value);
      HexOfSnoc(rest.value, pair.value);
      assert t + [hi, lo] == s;
    }
  }

  /** Different byte arrays never produce the same hex string. */
  lemma HexOfInjective(a: seq<Int8>, b: seq<Int8>)
    requires HexOf(a) == HexOf(b)
    ensures a == b
  {
    HexRoundTrip(a);
    HexRoundTrip(b);
  }

  /** A string holding an upper-case hex letter is the output of no byte array. */
  lemma UpperCaseHexIsNoOutput(s: string, k: nat, bytes: seq<Int8>)
    requires k < |s| && 'A' <= s[k] <= 'F'
    ensures HexOf(bytes) != s
  {
    HexOfAlphabet(bytes);
  }
}
