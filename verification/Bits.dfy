/**
  Big-endian bit strings and the numbers they denote. Everything the BUFR decoder reads is a
  number cut out of one long bit string; the layouts it reads are built with the inverse.
 */
module Bits {

  type byte = x: int | 0 <= x < 256

  function Pow2(n: nat): (p: nat)
    ensures p >= 1
  {
    if n == 0 then 1 else 2 * Pow2(n - 1)
  }

  function Digit(b: bool): nat {
    if b then 1 else 0
  }

  /** The number a bit string denotes, most significant bit first. */
  function ToNat(bits: seq<bool>): (v: nat)
    ensures v < Pow2(|bits|)
  {
    if bits == [] then 0
    else 2 * ToNat(bits[..|bits| - 1]) + Digit(bits[|bits| - 1])
  }

  /** The low w bits of v, most significant first. */
  function ToBits(v: nat, w: nat): (bits: seq<bool>)
    ensures |bits| == w
  {
    if w == 0 then [] else ToBits(v / 2, w - 1) + [v % 2 == 1]
  }

  lemma {:induction false} BitsOfNat(v: nat, w: nat)
    requires v < Pow2(w)
    ensures ToNat(ToBits(v, w)) == v
  {
    if w > 0 {
      BitsOfNat(v / 2, w - 1);
      assert ToBits(v, w)[..w - 1] == ToBits(v / 2, w - 1);
    }
  }

  function OctetBits(b: byte): (bits: seq<bool>)
    ensures |bits| == 8
  {
    ToBits(b, 8)
  }

  lemma OctetNat(b: byte)
    ensures ToNat(OctetBits(b)) == b
  {
    Pow2Of8();
    BitsOfNat(b, 8);
  }

  /** The bits of a byte string, byte after byte. */
  function Unpack(data: seq<byte>): (bits: seq<bool>)
    ensures |bits| == 8 * |data|
  {
    seq(8 * |data|, i requires 0 <= i < 8 * |data| => OctetBits(data[i / 8])[i % 8])
  }

  lemma Pow2Of8()
    ensures Pow2(8) == 256
  {
    assert Pow2(4) == 16;
  }

  lemma Pow2Octet(n: nat)
    ensures Pow2(n + 8) == 256 * Pow2(n)
  {
    assert Pow2(n + 4) == 16 * Pow2(n) by {
      assert Pow2(n + 2) == 4 * Pow2(n);
    }
    assert Pow2(n + 6) == 4 * Pow2(n + 4);
  }

  lemma Pow2Of64()
    ensures Pow2(64) == 0x1_0000_0000_0000_0000
  {
    hide Pow2;
    Pow2Of8();
    Pow2Octet(8);
    Pow2Octet(16);
    Pow2Octet(24);
    Pow2Octet(32);
    Pow2Octet(40);
    Pow2Octet(48);
    Pow2Octet(56);
  }

  lemma {:induction false} Pow2Monotone(a: nat, b: nat)
    requires a <= b
    ensures Pow2(a) <= Pow2(b)
  {
    if a < b {
      Pow2Monotone(a, b - 1);
    }
  }

  /** v << n. */
  function Shl(v: nat, n: nat): nat {
    if n == 0 then v else 2 * Shl(v, n - 1)
  }

  /** v >> n. */
  function Shr(v: nat, n: nat): nat {
    if n == 0 then v else Shr(v / 2, n - 1)
  }

  /** The low n bits of v, v & (2^n - 1). */
  function Low(v: nat, n: nat): nat {
    if n == 0 then 0 else 2 * Low(v / 2, n - 1) + v % 2
  }

  /** Appending b shifts the number of a left and fills in the number of b. */
  lemma {:induction false} ToNatAppend(a: seq<bool>, b: seq<bool>)
    ensures ToNat(a + b) == Shl(ToNat(a), |b|) + ToNat(b)
  {
    if b == [] {
      assert a + b == a;
    } else {
      ToNatAppend(a, b[..|b| - 1]);
      assert (a + b)[..|a + b| - 1] == a + b[..|b| - 1];
    }
  }

  /** Shifting right drops the bits of b; masking keeps only them. */
  lemma {:induction false} ToNatSplit(a: seq<bool>, b: seq<bool>)
    ensures Shr(ToNat(a + b), |b|) == ToNat(a)
    ensures Low(ToNat(a + b), |b|) == ToNat(b)
  {
    if b == [] {
      assert a + b == a;
    } else {
      ToNatSplit(a, b[..|b| - 1]);
      assert (a + b)[..|a + b| - 1] == a + b[..|b| - 1];
      assert ToNat(a + b) / 2 == ToNat(a + b[..|b| - 1]);
    }
  }

  /** A bit string is all ones exactly when its number is the largest of its width. */
  lemma {:induction false} AllOnes(bits: seq<bool>)
    ensures ToNat(bits) == Pow2(|bits|) - 1 <==> forall k :: 0 <= k < |bits| ==> bits[k]
  {
    if bits != [] {
      var front := bits[..|bits| - 1];
      AllOnes(front);
      assert forall k :: 0 <= k < |front| ==> front[k] == bits[k];
    }
  }

  /** bits holds field from position pos on. */
  predicate Holds(bits: seq<bool>, pos: nat, field: seq<bool>) {
    pos + |field| <= |bits| && bits[pos..pos + |field|] == field
  }

  lemma SliceOfHeld(bits: seq<bool>, pos: nat, field: seq<bool>, a: nat, b: nat)
    requires Holds(bits, pos, field) && a <= b <= |field|
    ensures bits[pos + a..pos + b] == field[a..b]
  {
    SliceOfSlice(bits, pos, pos + |field|, a, b);
  }

  /** Fields laid out one after the other. */
  function Concat(fields: seq<seq<bool>>): seq<bool> {
    if fields == [] then [] else Concat(fields[..|fields| - 1]) + fields[|fields| - 1]
  }

  lemma HoldsParts(bits: seq<bool>, pos: nat, a: seq<bool>, b: seq<bool>)
    requires Holds(bits, pos, a + b)
    ensures Holds(bits, pos, a) && Holds(bits, pos + |a|, b)
  {
    assert bits[pos..pos + |a|] == (a + b)[..|a|];
    assert bits[pos + |a|..pos + |a| + |b|] == (a + b)[|a|..];
  }

  lemma {:induction false} HoldsPrefix(bits: seq<bool>, pos: nat, fields: seq<seq<bool>>, k: nat)
    requires k <= |fields| && Holds(bits, pos, Concat(fields))
    ensures Holds(bits, pos, Concat(fields[..k]))
  {
    if k == |fields| {
      assert fields[..k] == fields;
    } else {
      var front := fields[..|fields| - 1];
      HoldsParts(bits, pos, Concat(front), fields[|fields| - 1]);
      HoldsPrefix(bits, pos, front, k);
      assert front[..k] == fields[..k];
    }
  }

  /** Field k comes next after the first k fields. */
  lemma NextField(bits: seq<bool>, pos: nat, fields: seq<seq<bool>>, k: nat)
    requires k < |fields| && Holds(bits, pos, Concat(fields))
    ensures Concat(fields[..k + 1]) == Concat(fields[..k]) + fields[k]
    ensures Holds(bits, pos + |Concat(fields[..k])|, fields[k])
  {
    HoldsPrefix(bits, pos, fields, k + 1);
    assert fields[..k + 1][..k] == fields[..k];
    HoldsParts(bits, pos, Concat(fields[..k]), fields[k]);
  }

  lemma SliceOfSlice<T>(s: seq<T>, a: nat, b: nat, c: nat, d: nat)
    requires a <= b <= |s| && c <= d <= b - a
    ensures s[a..b][c..d] == s[a + c..a + d]
  {
    assert |s[a..b][c..d]| == |s[a + c..a + d]|;
    assert forall k :: 0 <= k < d - c ==> s[a..b][c..d][k] == s[a + c..a + d][k];
  }

  lemma UnpackAt(data: seq<byte>, k: nat)
    requires k < |data|
    ensures Unpack(data)[8 * k..8 * k + 8] == OctetBits(data[k])
  {
    var u := Unpack(data)[8 * k..8 * k + 8];
    forall j | 0 <= j < 8
      ensures u[j] == OctetBits(data[k])[j]
    {
      assert (8 * k + j) / 8 == k && (8 * k + j) % 8 == j;
    }
  }
}
