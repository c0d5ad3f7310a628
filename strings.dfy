/**
 * Go strings and byte slices, and the part of Go's `strings` package the
 * core uses. A Go `string` is an immutable sequence of bytes, so both
 * `string` and `[]byte` are modelled as `Bytes`.
 */
module Strings {

  newtype byte = x: int | 0 <= x < 256

  type Bytes = seq<byte>

  const DOT: byte := 0x2E
  const DOLLAR: byte := 0x24
  const COLON: byte := 0x3A
  const SPACE: byte := 0x20

  /** The bytes of an ASCII literal; used to write the source's string constants. */
  function Ascii(s: string): (r: Bytes)
    requires forall i :: 0 <= i < |s| ==> s[i] as int < 128
    ensures |r| == |s|
    ensures forall i :: 0 <= i < |s| ==> r[i] as int == s[i] as int
  {
    seq(|s|, i requires 0 <= i < |s| => s[i] as int as byte)
  }

  /**
   * `strings.Split(s, string(sep))` for a one-byte separator: the pieces
   * between separators, so an input with n separators gives n + 1 pieces
   * (and "" gives [""]).
   */
  function Split(s: Bytes, sep: byte): (parts: seq<Bytes>)
    ensures |parts| >= 1
    ensures forall k :: 0 <= k < |parts| ==> sep !in parts[k]
    ensures Join(parts, sep) == s
  {
    if s == [] then [[]]
    else
      var rest := Split(s[1..], sep);
      if s[0] == sep then [[]] + rest
      else
        JoinCons(rest, sep);
        [[s[0]] + rest[0]] + rest[1..]
  }

  /** `strings.Join(parts, string(sep))`. */
  function Join(parts: seq<Bytes>, sep: byte): Bytes
  {
    if parts == [] then []
    else if |parts| == 1 then parts[0]
    else parts[0] + [sep] + Join(parts[1..], sep)
  }

  /** Joining splits off the first piece: the piece, then the rest after a separator. */
  lemma JoinCons(parts: seq<Bytes>, sep: byte)
    requires |parts| >= 1
    ensures Join(parts, sep) == parts[0] + (if |parts| == 1 then [] else [sep] + Join(parts[1..], sep))
  {
  }

  /** A piece without separators, then a separator: splitting takes the piece off the front. */
  lemma {:induction false} SplitPrefix(p: Bytes, sep: byte, t: Bytes)
    requires sep !in p
    ensures Split(p + [sep] + t, sep) == [p] + Split(t, sep)
  {
    if p == [] {
      assert p + [sep] + t == [sep] + t;
      assert ([sep] + t)[1..] == t;
    } else {
      assert (p + [sep] + t)[1..] == p[1..] + [sep] + t;
      SplitPrefix(p[1..], sep, t);
      assert [p[0]] + p[1..] == p;
    }
  }

  /** A string without separators splits into itself alone. */
  lemma {:induction false} SplitNoSeparator(p: Bytes, sep: byte)
    requires sep !in p
    ensures Split(p, sep) == [p]
  {
    if p != [] {
      SplitNoSeparator(p[1..], sep);
      assert [p[0]] + p[1..] == p;
    }
  }

  /**
   * Splitting inverts joining: pieces that hold no separator are given back
   * exactly by splitting their join.
   */
  lemma {:induction false} SplitJoin(parts: seq<Bytes>, sep: byte)
    requires |parts| >= 1
    requires forall k :: 0 <= k < |parts| ==> sep !in parts[k]
    ensures Split(Join(parts, sep), sep) == parts
  {
    if |parts| == 1 {
      SplitNoSeparator(parts[0], sep);
    } else {
      SplitJoin(parts[1..], sep);
      SplitPrefix(parts[0], sep, Join(parts[1..], sep));
      assert parts[0] + [sep] + Join(parts[1..], sep) == Join(parts, sep);
      assert [parts[0]] + parts[1..] == parts;
    }
  }

  /** The three pieces of a dotted triple come back from a split. */
  lemma SplitThree(a: Bytes, b: Bytes, c: Bytes, sep: byte)
    requires sep !in a && sep !in b && sep !in c
    ensures Split(a + [sep] + b + [sep] + c, sep) == [a, b, c]
  {
    var parts := [a, b, c];
    assert Join(parts[2..], sep) == c;
    assert Join(parts[1..], sep) == b + [sep] + c;
    assert Join(parts, sep) == a + [sep] + b + [sep] + c;
    SplitJoin(parts, sep);
  }

  /** A separator between two strings splits them apart: the pieces of each, in order. */
  lemma {:induction false} SplitConcat(a: Bytes, sep: byte, b: Bytes)
    ensures Split(a + [sep] + b, sep) == Split(a, sep) + Split(b, sep)
  {
    if a == [] {
      assert a + [sep] + b == [sep] + b;
      assert ([sep] + b)[1..] == b;
    } else {
      assert (a + [sep] + b)[1..] == a[1..] + [sep] + b;
      SplitConcat(a[1..], sep, b);
    }
  }
}
