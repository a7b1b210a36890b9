/**
 * The text form of an 8-bit sample that `bin_ascii` is meant to produce: position i of the
 * eight characters is '1' exactly when bit i of the byte is set (least significant bit first,
 * the order of the loop index), '0' otherwise.
 */
module Bits {
  import opened CString

  function Pow2(n: nat): (r: nat)
    ensures r >= 1
  {
    if n == 0 then 1 else 2 * Pow2(n - 1)
  }

  /** Bit i of b, that is `b & (1 << i)` being non-zero. */
  predicate BitSet(b: nat, i: nat) {
    (b / Pow2(i)) % 2 == 1
  }

  function BitChar(one: bool): char {
    if one then '1' else '0'
  }

  /** The low n bits of b as text, least significant first. */
  function LsbFirst(b: nat, n: nat): (s: seq<char>)
    ensures |s| == n
  {
    if n == 0 then [] else [BitChar(b % 2 == 1)] + LsbFirst(b / 2, n - 1)
  }

  /** The eight characters of a sample, as `bin_ascii` intends them. */
  function Encode(b: U8): (s: seq<char>)
    ensures |s| == 8
  {
    LsbFirst(b, 8)
  }

  /** Reads the text back: the inverse of the encoding. */
  function Decode(s: seq<char>): nat {
    if s == [] then 0 else (if s[0] == '1' then 1 else 0) + 2 * Decode(s[1..])
  }

  /** Division is determined by a quotient and an in-range remainder. */
  lemma DivUnique(b: nat, d: nat, u: nat, r: nat)
    requires d > 0 && b == d * u + r && r < d
    ensures b / d == u
  {
    var k := b / d - u;
    assert d * k == r - b % d;
  }

  lemma DivHalf(b: nat, i: nat)
    ensures (b / 2) / Pow2(i) == b / Pow2(i + 1)
  {
    var p := Pow2(i);
    var u, v := (b / 2) / p, (b / 2) % p;
    assert b / 2 == p * u + v;
    assert b == (2 * p) * u + (2 * v + b % 2);
    DivUnique(b, 2 * p, u, 2 * v + b % 2);
  }

  /** Character i of the text is bit i of the byte. */
  lemma {:induction false} LsbFirstAt(b: nat, n: nat, i: nat)
    requires i < n
    ensures LsbFirst(b, n)[i] == BitChar(BitSet(b, i))
  {
    if i > 0 {
      LsbFirstAt(b / 2, n - 1, i - 1);
      DivHalf(b, i - 1);
    }
  }

  lemma {:induction false} DecodeLsbFirst(b: nat, n: nat)
    requires b < Pow2(n)
    ensures Decode(LsbFirst(b, n)) == b
  {
    if n > 0 {
      DecodeLsbFirst(b / 2, n - 1);
      assert LsbFirst(b, n)[1..] == LsbFirst(b / 2, n - 1);
    }
  }

  /** Every sample is recovered exactly from its text. */
  lemma RoundTrip(b: U8)
    ensures Decode(Encode(b)) == b
  {
    assert Pow2(8) == 256;
    DecodeLsbFirst(b, 8);
  }

  /** Distinct samples give distinct texts. */
  lemma EncodeInjective(a: U8, b: U8)
    requires Encode(a) == Encode(b)
    ensures a == b
  {
    RoundTrip(a);
    RoundTrip(b);
  }

  /** Every character of the text is '0' or '1', and the text says which bits are set. */
  lemma EncodeAt(b: U8, i: nat)
    requires i < 8
    ensures Encode(b)[i] == '1' <==> BitSet(b, i)
    ensures Encode(b)[i] == '0' <==> !BitSet(b, i)
  {
    LsbFirstAt(b, 8, i);
  }

  /** What `bin_ascii` leaves in its buffer as written: eight '0' characters. */
  const ALL_ZERO: seq<char> := "00000000"

  /** The text left as written loses every non-zero sample. */
  lemma AsWrittenLosesSample(b: U8)
    requires b != 0
    ensures ALL_ZERO != Encode(b)
    ensures Decode(ALL_ZERO) == 0
  {
    RoundTrip(b);
    assert Decode(ALL_ZERO) == 0 by {
      assert ALL_ZERO[1..][1..][1..][1..][1..][1..][1..][1..] == [];
    }
  }
}
