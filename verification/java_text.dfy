/**
 * The parts of Java's string and byte semantics the service depends on:
 * nullable strings and `+` with `null`, `Character.toUpperCase`/`toLowerCase`,
 * `String.equalsIgnoreCase`, the signed `byte` and `String.getBytes(UTF_8)`.
 */
module JavaText {
  import opened Wrappers

  /** A Java `String` reference, possibly `null`. */
  type JString = Option<string>

  /** What Java's `+` appends for a possibly-null string: the text, or "null". */
  function Text(s: JString): string
  {
    match s
    case Some(v) => v
    case None => "null"
  }

  // The non-ASCII characters whose Java simple case mapping is an ASCII letter.
  const DotlessSmallI: char := '\U{0131}'   // toUpperCase gives 'I'
  const LongSmallS: char := '\U{017F}'      // toUpperCase gives 'S'
  const CapitalIWithDot: char := '\U{0130}' // toLowerCase gives 'i'
  const KelvinSign: char := '\U{212A}'      // toLowerCase gives 'k'

  /**
   * `Character.toUpperCase` on the ASCII letters and on the characters above;
   * every other character maps to itself here.
   */
  function UpperCase(c: char): char
  {
    if 'a' <= c <= 'z' then (c as int - 32) as char
    else if c == DotlessSmallI then 'I'
    else if c == LongSmallS then 'S'
    else c
  }

  /** `Character.toLowerCase`, restricted in the same way as UpperCase. */
  function LowerCase(c: char): char
  {
    if 'A' <= c <= 'Z' then (c as int + 32) as char
    else if c == CapitalIWithDot then 'i'
    else if c == KelvinSign then 'k'
    else c
  }

  /** The per-character test of `String.regionMatches(true, ...)`. */
  predicate CharEqualsIgnoreCase(a: char, b: char)
  {
    || a == b
    || UpperCase(a) == UpperCase(b)
    || LowerCase(UpperCase(a)) == LowerCase(UpperCase(b))
  }

  /** `s.equalsIgnoreCase(other)`: false for `null`, else same length and pairwise equal ignoring case. */
  predicate EqualsIgnoreCase(s: string, other: JString)
  {
    && other.Some?
    && |s| == |other.value|
    && forall i :: 0 <= i < |s| ==> CharEqualsIgnoreCase(s[i], other.value[i])
  }

  /**
   * Which characters Java's ignore-case test pairs with a lower-case ASCII letter:
   * the letter, its capital, and the odd non-ASCII characters for 'i', 's' and 'k'.
   */
  lemma MatchesAsciiLetter(l: char, c: char)
    requires 'a' <= l <= 'z'
    ensures CharEqualsIgnoreCase(l, c) <==>
      || c == l
      || c == UpperCase(l)
      || (l == 'i' && (c == DotlessSmallI || c == CapitalIWithDot))
      || (l == 's' && c == LongSmallS)
      || (l == 'k' && c == KelvinSign)
  {
  }

  /** `String.toUpperCase` character by character. */
  function ToUpperCase(s: string): (r: string)
    ensures |r| == |s|
    ensures forall i :: 0 <= i < |s| ==> r[i] == UpperCase(s[i])
  {
    if s == [] then [] else [UpperCase(s[0])] + ToUpperCase(s[1..])
  }

  /** Java's signed 8-bit `byte`. */
  newtype Int8 = x: int | -128 <= x < 128

  /** The byte as the unsigned value 0..255, as `%x` and the UTF-8 encoder read it. */
  function Unsigned(b: Int8): (u: nat)
    ensures u < 256
    ensures u % 256 == (b as int) % 256
  {
    if b < 0 then b as int + 256 else b as int
  }

  /** The byte whose unsigned reading is `n`: Java's `(byte) n`. */
  function ByteOf(n: nat): (b: Int8)
    requires n < 256
    ensures Unsigned(b) == n
  {
    if n < 128 then n as Int8 else (n - 256) as Int8
  }

  /** The UTF-8 encoding of one Unicode scalar value: one to four bytes. */
  function Utf8Char(c: char): (bytes: seq<Int8>)
    ensures 1 <= |bytes| <= 4
  {
    var n := c as int;
    if n < 0x80 then [ByteOf(n)]
    else if n < 0x800 then [ByteOf(0xC0 + n / 0x40), ByteOf(0x80 + n % 0x40)]
    else if n < 0x10000 then
      [ByteOf(0xE0 + n / 0x1000), ByteOf(0x80 + (n / 0x40) % 0x40), ByteOf(0x80 + n % 0x40)]
    else
      [ByteOf(0xF0 + n / 0x40000), ByteOf(0x80 + (n / 0x1000) % 0x40),
       ByteOf(0x80 + (n / 0x40) % 0x40), ByteOf(0x80 + n % 0x40)]
  }

  /** `s.getBytes(StandardCharsets.UTF_8)`: at least one byte per character, so empty exactly when `s` is. */
  function Utf8(s: string): (bytes: seq<Int8>)
    ensures |s| <= |bytes| <= 4 * |s|
  {
    if s == [] then [] else Utf8Char(s[0]) + Utf8(s[1..])
  }
}
