/**
 * The two `fmt` verbs the password hasher formats with: `%x` of a byte
 * slice (two lower-case hex digits per byte) and `%d` of an int.
 */
module Format {
  import opened Wrappers
  import opened Strings

  function HexDigit(v: int): (c: byte)
    requires 0 <= v < 16
    ensures IsHexDigit(c)
  {
    if v < 10 then (0x30 + v) as byte else (0x61 + v - 10) as byte
  }

  predicate IsHexDigit(c: byte)
  {
    (0x30 <= c <= 0x39) || (0x61 <= c <= 0x66) || (0x41 <= c <= 0x46)
  }

  /** The value of a hex digit in either case, as `encoding/hex` reads it. */
  function HexValue(c: byte): (r: Option<int>)
    ensures r.Some? <==> IsHexDigit(c)
    ensures r.Some? ==> 0 <= r.value < 16
  {
    if 0x30 <= c <= 0x39 then Some(c as int - 0x30)
    else if 0x61 <= c <= 0x66 then Some(c as int - 0x61 + 10)
    else if 0x41 <= c <= 0x46 then Some(c as int - 0x41 + 10)
    else None
  }

  /** `fmt.Sprintf("%x", b)` for a byte slice. */
  function Hex(b: Bytes): (s: Bytes)
    ensures |s| == 2 * |b|
    ensures forall k :: 0 <= k < |s| ==> IsHexDigit(s[k])
    ensures DOLLAR !in s
  {
    if b == [] then []
    else [HexDigit(b[0] as int / 16), HexDigit(b[0] as int % 16)] + Hex(b[1..])
  }

  /** `hex.DecodeString`: pairs of hex digits back to bytes; None on odd length or a non-digit. */
  function Unhex(s: Bytes): (r: Option<Bytes>)
    ensures r.Some? ==> 2 * |r.value| == |s|
  {
    if s == [] then Some([])
    else if |s| == 1 then None
    else
      var hi, lo, rest := HexValue(s[0]), HexValue(s[1]), Unhex(s[2..]);
      if hi.None? || lo.None? || rest.None? then None
      else Some([(hi.value * 16 + lo.value) as byte] + rest.value)
  }

  /** Reading hex inverts writing it, so `%x` loses nothing. */
  lemma {:induction false} UnhexHex(b: Bytes)
    ensures Unhex(Hex(b)) == Some(b)
  {
    if b != [] {
      var s := Hex(b);
      assert s[2..] == Hex(b[1..]);
      UnhexHex(b[1..]);
      var x := b[0] as int;
      assert HexValue(HexDigit(x / 16)) == Some(x / 16);
      assert HexValue(HexDigit(x % 16)) == Some(x % 16);
      assert [b[0]] + b[1..] == b;
    }
  }

  /** `%x` is injective: different byte strings print differently. */
  lemma HexInjective(a: Bytes, b: Bytes)
    requires Hex(a) == Hex(b)
    ensures a == b
  {
    UnhexHex(a);
    UnhexHex(b);
  }

  /** The hex text of non-empty bytes is never those bytes: it is twice as long. */
  lemma HexDiffers(b: Bytes)
    requires b != []
    ensures Hex(b) != b
  {
  }

  /** The decimal digits of a natural number, most significant first. */
  function Digits(n: nat): (s: Bytes)
    ensures |s| >= 1
    ensures forall k :: 0 <= k < |s| ==> 0x30 <= s[k] <= 0x39
  {
    if n < 10 then [(0x30 + n) as byte] else Digits(n / 10) + [(0x30 + n % 10) as byte]
  }

  /** `fmt.Sprintf("%d", n)`: a '-' before the digits of a negative number. */
  function Decimal(n: int): (s: Bytes)
    ensures DOLLAR !in s
    ensures |s| >= 1
  {
    if n < 0 then [0x2D] + Digits(-n) else Digits(n)
  }
}
