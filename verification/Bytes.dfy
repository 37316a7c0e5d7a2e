/** Bytes of the wire format: the two framing bytes, big-endian fields and byte sums. */
module Bytes {
  type byte = x: int | 0 <= x < 0x100
  type u16 = x: int | 0 <= x < 0x1_0000
  type u32 = x: int | 0 <= x < 0x1_0000_0000

  /** The eight data bytes of a CAN frame. */
  type Can = c: seq<byte> | |c| == 8 witness [0, 0, 0, 0, 0, 0, 0, 0]

  datatype Option<T> = None | Some(value: T)

  const MAGIC: byte := 0x7E  // frame head and tail
  const ESC: byte := 0x7D    // first byte of a stuffed pair

  function Min(a: nat, b: nat): nat {
    if a <= b then a else b
  }

  function Be16(n: u16): (r: seq<byte>)
    ensures |r| == 2 && FromBe16(r[0], r[1]) == n
  {
    [n / 0x100, n % 0x100]
  }

  function FromBe16(hi: byte, lo: byte): u16 {
    hi * 0x100 + lo
  }

  function Be32(n: u32): (r: seq<byte>)
    ensures |r| == 4 && FromBe16(r[0], r[1]) * 0x1_0000 + FromBe16(r[2], r[3]) == n
  {
    Be16(n / 0x1_0000) + Be16(n % 0x1_0000)
  }

  // Sequence identities, kept apart so that larger proofs need not search for them.

  lemma DropLastOfConcat<T>(a: seq<T>, b: seq<T>)
    requires b != []
    ensures (a + b)[..|a + b| - 1] == a + b[..|b| - 1] && (a + b)[|a + b| - 1] == b[|b| - 1]
  {
  }

  lemma ConcatAssociative<T>(a: seq<T>, b: seq<T>, c: seq<T>)
    ensures a + b + c == a + (b + c)
  {
  }

  lemma ConcatEmpty<T>(a: seq<T>)
    ensures a + [] == a && [] + a == a
  {
  }

  lemma SnocOfConcat<T>(b: seq<T>, x: seq<T>)
    requires x != []
    ensures b + x[..|x| - 1] + [x[|x| - 1]] == b + x && x[..|x| - 1] + [x[|x| - 1]] == x
  {
  }

  lemma FirstAndRest<T>(s: seq<T>)
    requires s != []
    ensures [s[0]] + s[1..] == s
  {
  }

  function Sum(s: seq<byte>): nat {
    if s == [] then 0 else Sum(s[..|s| - 1]) + s[|s| - 1]
  }

  lemma {:induction false} SumConcat(a: seq<byte>, b: seq<byte>)
    ensures Sum(a + b) == Sum(a) + Sum(b)
  {
    if b == [] {
      ConcatEmpty(a);
    } else {
      DropLastOfConcat(a, b);
      SumConcat(a, b[..|b| - 1]);
    }
  }

  /** Replacing one byte moves the sum by exactly the difference of the two bytes. */
  lemma SumUpdate(s: seq<byte>, i: nat, v: byte)
    requires i < |s|
    ensures Sum(s[i := v]) == Sum(s) - s[i] + v
  {
    var t := s[i := v];
    assert s == s[..i] + [s[i]] + s[i + 1..];
    assert t == s[..i] + [v] + s[i + 1..];
    SumConcat(s[..i] + [s[i]], s[i + 1..]);
    SumConcat(s[..i] + [v], s[i + 1..]);
    SumConcat(s[..i], [s[i]]);
    SumConcat(s[..i], [v]);
  }

  /** The concatenation of a list of byte strings. */
  function Flatten(parts: seq<seq<byte>>): seq<byte> {
    if parts == [] then [] else Flatten(parts[..|parts| - 1]) + parts[|parts| - 1]
  }

  lemma FlattenSnoc(parts: seq<seq<byte>>, p: seq<byte>)
    ensures Flatten(parts + [p]) == Flatten(parts) + p
  {
  }

  lemma SnocParts<T>(s: seq<T>, x: T)
    ensures (s + [x])[..|s + [x]| - 1] == s && (s + [x])[|s + [x]| - 1] == x && s + [x] != []
  {
  }

  /** A byte is its four two-bit fields. */
  lemma FourFields(b: byte)
    ensures b % 4 + 4 * (b / 4 % 4) + 16 * (b / 16 % 4) + 64 * (b / 64) == b
    ensures b % 4 + 4 * (b / 4 % 4) == b % 16
  {
    var q := b / 4;
    var r := q / 4;
    assert b == 4 * q + b % 4;
    assert q == 4 * r + q % 4;
    assert r == 4 * (r / 4) + r % 4;
    assert r == b / 16 && r / 4 == b / 64;
  }

  lemma ThreeBits(b: byte)
    ensures 2 * (b / 2 % 2) + 4 * (b / 4 % 2) + 8 * (b / 8 % 2) == b % 16 / 2 * 2
  {
    var q := b / 2;
    var r := q / 2;
    var t := r / 2;
    assert r == b / 4 && t == b / 8;
    assert q == 2 * r + q % 2 && r == 2 * t + r % 2 && t == 2 * (t / 2) + t % 2;
    assert t / 2 == b / 16;
  }
}
