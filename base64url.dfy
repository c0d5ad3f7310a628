/**
 * Unpadded base64url, the `base64.RawURLEncoding` that encodes every token
 * segment: the URL- and filename-safe alphabet of section 5 of RFC 4648,
 * with the trailing `=` padding of section 3.2 omitted.
 */
module Base64Url {
  import opened Wrappers
  import opened Strings

  /** The character that stands for the 6-bit value `v`: A-Z, a-z, 0-9, '-', '_'. */
  function CharOf(v: int): (c: byte)
    requires 0 <= v < 64
    ensures IsAlphabet(c)
  {
    if v < 26 then (0x41 + v) as byte
    else if v < 52 then (0x61 + v - 26) as byte
    else if v < 62 then (0x30 + v - 52) as byte
    else if v == 62 then 0x2D
    else 0x5F
  }

  /** The 6-bit value of an alphabet character; None for any other byte, '=' included. */
  function ValueOf(c: byte): (r: Option<int>)
    ensures r.Some? <==> IsAlphabet(c)
    ensures r.Some? ==> 0 <= r.value < 64 && CharOf(r.value) == c
  {
    if 0x41 <= c <= 0x5A then Some(c as int - 0x41)
    else if 0x61 <= c <= 0x7A then Some(c as int - 0x61 + 26)
    else if 0x30 <= c <= 0x39 then Some(c as int - 0x30 + 52)
    else if c == 0x2D then Some(62)
    else if c == 0x5F then Some(63)
    else None
  }

  predicate IsAlphabet(c: byte)
  {
    (0x41 <= c <= 0x5A) || (0x61 <= c <= 0x7A) || (0x30 <= c <= 0x39) || c == 0x2D || c == 0x5F
  }

  /**
   * `RawURLEncoding.EncodeToString`: each group of three bytes becomes four
   * characters; a final group of one or two bytes becomes two or three.
   */
  function Encode(b: Bytes): (s: Bytes)
    ensures |s| == (4 * |b| + 2) / 3
    ensures forall k :: 0 <= k < |s| ==> IsAlphabet(s[k])
    ensures DOT !in s && DOLLAR !in s
  {
    if |b| == 0 then []
    else if |b| == 1 then
      [CharOf(b[0] as int / 4), CharOf(b[0] as int % 4 * 16)]
    else if |b| == 2 then
      [CharOf(b[0] as int / 4), CharOf(b[0] as int % 4 * 16 + b[1] as int / 16),
       CharOf(b[1] as int % 16 * 4)]
    else
      EncodeGroup(b[0], b[1], b[2]) + Encode(b[3..])
  }

  function EncodeGroup(x: byte, y: byte, z: byte): (s: Bytes)
    ensures |s| == 4
    ensures forall k :: 0 <= k < 4 ==> IsAlphabet(s[k])
  {
    [CharOf(x as int / 4), CharOf(x as int % 4 * 16 + y as int / 16),
     CharOf(y as int % 16 * 4 + z as int / 64), CharOf(z as int % 64)]
  }

  /**
   * `RawURLEncoding.DecodeString`: fails on a byte outside the alphabet
   * (padding included) and on a final group of a single character. As in
   * Go's non-strict mode, the unused low bits of a final group are ignored.
   */
  function Decode(s: Bytes): (r: Option<Bytes>)
    ensures r.Some? ==> forall k :: 0 <= k < |s| ==> IsAlphabet(s[k])
    ensures r.Some? ==> |s| % 4 != 1 && |r.value| == 3 * |s| / 4
  {
    if |s| == 0 then Some([])
    else if |s| == 1 then None
    else if |s| == 2 then
      var v0, v1 := ValueOf(s[0]), ValueOf(s[1]);
      if v0.None? || v1.None? then None
      else Some([(v0.value * 4 + v1.value / 16) as byte])
    else if |s| == 3 then
      var v0, v1, v2 := ValueOf(s[0]), ValueOf(s[1]), ValueOf(s[2]);
      if v0.None? || v1.None? || v2.None? then None
      else Some([(v0.value * 4 + v1.value / 16) as byte, (v1.value % 16 * 16 + v2.value / 4) as byte])
    else
      var group := DecodeGroup(s[0], s[1], s[2], s[3]);
      var rest := Decode(s[4..]);
      if group.None? || rest.None? then None
      else
        assert forall k :: 4 <= k < |s| ==> s[k] == s[4..][k - 4];
        Some(group.value + rest.value)
  }

  function DecodeGroup(c0: byte, c1: byte, c2: byte, c3: byte): (r: Option<Bytes>)
    ensures r.Some? <==> IsAlphabet(c0) && IsAlphabet(c1) && IsAlphabet(c2) && IsAlphabet(c3)
    ensures r.Some? ==> |r.value| == 3
  {
    var v0, v1, v2, v3 := ValueOf(c0), ValueOf(c1), ValueOf(c2), ValueOf(c3);
    if v0.None? || v1.None? || v2.None? || v3.None? then None
    else Some([(v0.value * 4 + v1.value / 16) as byte,
               (v1.value % 16 * 16 + v2.value / 4) as byte,
               (v2.value % 4 * 64 + v3.value) as byte])
  }

  lemma ValueOfCharOf(v: int)
    requires 0 <= v < 64
    ensures ValueOf(CharOf(v)) == Some(v)
  {
  }

  /** Putting a high part and a 4-bit low part back together, and splitting them again. */
  lemma Recombine16(hi: int, lo: int)
    requires 0 <= lo < 16
    ensures (hi * 16 + lo) / 16 == hi && (hi * 16 + lo) % 16 == lo
  {
  }

  /** The same for a 2-bit low part. */
  lemma Recombine4(hi: int, lo: int)
    requires 0 <= lo < 4
    ensures (hi * 4 + lo) / 4 == hi && (hi * 4 + lo) % 4 == lo
  {
  }

  lemma GroupRoundTrip(x: byte, y: byte, z: byte)
    ensures var s := EncodeGroup(x, y, z); DecodeGroup(s[0], s[1], s[2], s[3]) == Some([x, y, z])
  {
    var v0, v1, v2, v3 := x as int / 4, x as int % 4 * 16 + y as int / 16,
                          y as int % 16 * 4 + z as int / 64, z as int % 64;
    ValueOfCharOf(v0); ValueOfCharOf(v1); ValueOfCharOf(v2); ValueOfCharOf(v3);
    Recombine16(x as int % 4, y as int / 16);
    Recombine4(y as int % 16, z as int / 64);
    assert v0 * 4 + v1 / 16 == x as int;
    assert v1 % 16 * 16 + v2 / 4 == y as int;
    assert v2 % 4 * 64 + v3 == z as int;
  }

  lemma OneByteRoundTrip(x: byte)
    ensures Decode(Encode([x])) == Some([x])
  {
    var c0, c1 := CharOf(x as int / 4), CharOf(x as int % 4 * 16);
    assert Encode([x]) == [c0, c1];
    ValueOfCharOf(x as int / 4);
    ValueOfCharOf(x as int % 4 * 16);
    Recombine16(x as int % 4, 0);
    assert (x as int / 4) * 4 + (x as int % 4 * 16) / 16 == x as int;
  }

  lemma TwoByteRoundTrip(x: byte, y: byte)
    ensures Decode(Encode([x, y])) == Some([x, y])
  {
    var v0, v1, v2 := x as int / 4, x as int % 4 * 16 + y as int / 16, y as int % 16 * 4;
    assert Encode([x, y]) == [CharOf(v0), CharOf(v1), CharOf(v2)];
    ValueOfCharOf(v0); ValueOfCharOf(v1); ValueOfCharOf(v2);
    Recombine16(x as int % 4, y as int / 16);
    Recombine4(y as int % 16, 0);
    assert v0 * 4 + v1 / 16 == x as int;
    assert v1 % 16 * 16 + v2 / 4 == y as int;
  }

  /** Decoding a group of four characters followed by more text: the group, then the rest. */
  lemma DecodeLong(g: Bytes, t: Bytes)
    requires |g| == 4
    ensures Decode(g + t) == (var d, r := DecodeGroup(g[0], g[1], g[2], g[3]), Decode(t);
                              if d.None? || r.None? then None else Some(d.value + r.value))
  {
    var s := g + t;
    assert s[0] == g[0] && s[1] == g[1] && s[2] == g[2] && s[3] == g[3];
    assert s[4..] == t;
  }

  /** Decoding inverts encoding: every byte string comes back unchanged. */
  lemma {:induction false} DecodeEncode(b: Bytes)
    ensures Decode(Encode(b)) == Some(b)
  {
    if |b| == 1 {
      OneByteRoundTrip(b[0]);
      assert b == [b[0]];
    } else if |b| == 2 {
      TwoByteRoundTrip(b[0], b[1]);
      assert b == [b[0], b[1]];
    } else if |b| >= 3 {
      var g, t := EncodeGroup(b[0], b[1], b[2]), Encode(b[3..]);
      assert Encode(b) == g + t;
      GroupRoundTrip(b[0], b[1], b[2]);
      DecodeEncode(b[3..]);
      DecodeLong(g, t);
      assert [b[0], b[1], b[2]] + b[3..] == b;
    }
  }
}
