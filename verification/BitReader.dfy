/**
  The bit cursor both decoders read through. Shifts and masks are written on unbounded numbers, and
  the 64-bit shift register drops what leaves it explicitly.
 */
module BitReading {
  import opened Bits
  import opened BufrTypes

  /** The number in the n bits that start at pos. */
  function Cut(bits: seq<bool>, pos: nat, n: nat): (v: nat)
    requires pos + n <= |bits|
  {
    ToNat(bits[pos..pos + n])
  }

  lemma CutNothing(bits: seq<bool>, pos: nat)
    requires pos <= |bits|
    ensures Cut(bits, pos, 0) == 0
  {
  }

  /** Two reads of a and b bits are one read of a + b bits, at any alignment. */
  lemma ReadTwice(bits: seq<bool>, pos: nat, a: nat, b: nat)
    requires pos + a + b <= |bits|
    ensures Cut(bits, pos, a + b) == Shl(Cut(bits, pos, a), b) + Cut(bits, pos + a, b)
  {
    var left, right := bits[pos..pos + a], bits[pos + a..pos + a + b];
    assert bits[pos..pos + (a + b)] == left + right;
    assert |right| == b;
    ToNatAppend(left, right);
    assert Cut(bits, pos, a + b) == ToNat(left + right);
    assert Cut(bits, pos, a) == ToNat(left);
    assert Cut(bits, pos + a, b) == ToNat(right);
  }

  /** And the one read splits back into the two at b. */
  lemma ReadSplit(bits: seq<bool>, pos: nat, a: nat, b: nat)
    requires pos + a + b <= |bits|
    ensures Shr(Cut(bits, pos, a + b), b) == Cut(bits, pos, a)
    ensures Low(Cut(bits, pos, a + b), b) == Cut(bits, pos + a, b)
  {
    var left, right := bits[pos..pos + a], bits[pos + a..pos + a + b];
    assert bits[pos..pos + (a + b)] == left + right;
    assert |right| == b;
    ToNatSplit(left, right);
  }

  lemma ShiftAndMask(octet: seq<bool>, off: nat, take: nat)
    requires off + take <= |octet|
    ensures Low(Shr(ToNat(octet), |octet| - off - take), take) == ToNat(octet[off..off + take])
  {
    var a, c, d := octet[..off], octet[off..off + take], octet[off + take..];
    assert octet == (a + c) + d;
    ToNatSplit(a + c, d);
    ToNatSplit(a, c);
  }

  /** The bits of one byte, cut out by shifting and masking. */
  lemma ChunkOfByte(data: seq<byte>, pos: nat, take: nat)
    requires pos < 8 * |data| && take <= 8 - pos % 8
    ensures pos + take <= 8 * |data|
    ensures Cut(Unpack(data), pos, take) == Low(Shr(data[pos / 8], 8 - pos % 8 - take), take)
  {
    hide ToNat, Low, Shr, Unpack, OctetBits;
    var k, off := pos / 8, pos % 8;
    UnpackAt(data, k);
    OctetNat(data[k]);
    ShiftAndMask(OctetBits(data[k]), off, take);
    var u := Unpack(data);
    assert pos == 8 * k + off;
    SliceOfSlice(u, 8 * k, 8 * k + 8, off, off + take);
  }

  /** Shifting the register left and dropping what leaves its 64 bits loses nothing. */
  lemma ShiftIn(bits: seq<bool>, pos: nat, a: nat, b: nat)
    requires pos + a + b <= |bits| && a + b <= 64
    ensures Cut(bits, pos, a + b)
         == Shl(Cut(bits, pos, a), b) % 0x1_0000_0000_0000_0000 + Cut(bits, pos + a, b)
  {
    hide ToNat, Pow2, Shl;
    ReadTwice(bits, pos, a, b);
    Pow2Monotone(a + b, 64);
    Pow2Of64();
  }

  /** The register after the next take bits enter it, all from byte b past its first off bits. */
  function Enter(res: nat, b: byte, off: nat, take: nat): nat
    requires take <= 8 - off
  {
    var shift := 8 - off - take;
    var chunk := Low(Shr(b, shift), take);
    Shl(res, take) % 0x1_0000_0000_0000_0000 + chunk
  }

  /** One round of ReadBits. */
  lemma TakeChunk(data: seq<byte>, start: nat, done: nat, take: nat)
    requires start + done < 8 * |data| && take <= 8 - (start + done) % 8 && done + take <= 64
    ensures start + done + take <= 8 * |data|
    ensures var pos := start + done;
      Cut(Unpack(data), start, done + take) == Enter(Cut(Unpack(data), start, done), data[pos / 8], pos % 8, take)
  {
    hide Cut, Shl, Low, Shr, Unpack;
    ChunkOfByte(data, start + done, take);
    ShiftIn(Unpack(data), start, done, take);
  }

  function IsAllOnes(val: nat, width: int): bool {
    if width <= 0 then false
    else if width >= 64 then val == 0xffff_ffff_ffff_ffff
    else val == Pow2(width) - 1
  }

  /** On what a read of 1 to 64 bits returns, IsAllOnes is the missing-value rule: every bit set. */
  lemma AllOnesMeansMissing(bits: seq<bool>)
    requires 1 <= |bits| <= 64
    ensures IsAllOnes(ToNat(bits), |bits|) <==> forall k :: 0 <= k < |bits| ==> bits[k]
  {
    AllOnes(bits);
    Pow2Of64();
  }

  /** Sign and magnitude: the first bit is the sign. One bit or none reads as zero. */
  function Signed(bits: seq<bool>): (v: int) {
    if |bits| <= 1 then 0
    else if bits[0] then -(ToNat(bits[1..]) as int) else ToNat(bits[1..])
  }

  lemma SignAndMagnitude(field: seq<bool>)
    requires |field| >= 1
    ensures Low(Shr(ToNat(field), |field| - 1), 1) == Digit(field[0])
    ensures Low(ToNat(field), |field| - 1) == ToNat(field[1..])
  {
    OneBit(field[0]);
    hide ToNat, Shr, Low;
    assert field == [field[0]] + field[1..];
    ToNatSplit([field[0]], field[1..]);
  }

  lemma OneBit(b: bool)
    ensures ToNat([b]) == Digit(b) == Low(Digit(b), 1)
  {
  }

  /** The octets of a character field. */
  function Octets(bits: seq<bool>, pos: nat, count: nat): (s: seq<byte>)
    requires pos + 8 * count <= |bits|
    ensures |s| == count
  {
    Pow2Of8();
    seq(count, k requires 0 <= k < count => Cut(bits, pos + 8 * k, 8))
  }

  class BitReader {
    const data: seq<byte>
    var bitPos: nat

    ghost predicate Valid()
      reads this
    {
      bitPos <= 8 * |data|
    }

    ghost function Stream(): (bits: seq<bool>)
      ensures |bits| == 8 * |data|
    {
      Unpack(data)
    }

    constructor (data: seq<byte>)
      ensures Valid() && this.data == data && bitPos == 0
    {
      this.data := data;
      bitPos := 0;
    }

    function BitsRemaining(): (rem: nat)
      reads this
      ensures Valid() ==> rem == |Stream()| - bitPos
    {
      var rem := |data| * 8 - bitPos;
      if rem < 0 then 0 else rem
    }

    method SkipBits(n: int) returns (r: Result<()>)
      requires Valid()
      modifies this`bitPos
      ensures Valid()
      ensures n < 0 ==> r == Err(BadBitCount) && bitPos == old(bitPos)
      ensures 0 <= n && old(bitPos) + n <= |Stream()| ==> r == Ok(()) && bitPos == old(bitPos) + n
      ensures old(bitPos) + n > |Stream()| ==> r == Err(UnexpectedEOF) && bitPos == old(bitPos)
    {
      if n < 0 {
        return Err(BadBitCount);
      }
      if bitPos + n > |data| * 8 {
        return Err(UnexpectedEOF);
      }
      bitPos := bitPos + n;
      r := Ok(());
    }

    /** Exactly the big-endian value of the next n bits; the cursor stays put on failure. */
    method ReadBits(n: int) returns (r: Result<nat>)
      requires Valid()
      modifies this`bitPos
      ensures Valid()
      ensures n == 0 ==> r == Ok(0)
      ensures n < 0 || n > 64 ==> r == Err(BadBitCount)
      ensures 1 <= n <= 64 && old(bitPos) + n > |Stream()| ==> r == Err(UnexpectedEOF)
      ensures 0 <= n <= 64 && old(bitPos) + n <= |Stream()| ==>
                r == Ok(Cut(Stream(), old(bitPos), n)) && bitPos == old(bitPos) + n
      ensures r.Err? ==> bitPos == old(bitPos)
    {
      if n == 0 {
        return Ok(0);
      }
      if n < 0 || n > 64 {
        return Err(BadBitCount);
      }
      if bitPos + n > |data| * 8 {
        return Err(UnexpectedEOF);
      }
      hide Cut, Enter, Unpack, Pow2, ToNat, Low, Shl, Shr;
      ghost var bits, start := Stream(), bitPos;
      CutNothing(bits, start);
      var left: nat := n;
      var res: nat := 0;
      while left > 0
        invariant left <= n && bitPos == start + (n - left)
        invariant res == Cut(bits, start, n - left)
      {
        ghost var done: nat := n - left;
        assert bitPos == start + done < 8 * |data|;
        var bitsAvail := 8 - bitPos % 8;
        var take: nat := if left > bitsAvail then bitsAvail else left;
        assert 1 <= take <= bitsAvail && take <= left;
        TakeChunk(data, start, done, take);
        res := Enter(res, data[bitPos / 8], bitPos % 8, take);
        assert n - (left - take) == done + take;
        bitPos := bitPos + take;
        left := left - take;
      }
      r := Ok(res);
    }

    method ReadSignedBits(n: nat) returns (r: Result<int>)
      requires Valid()
      modifies this`bitPos
      ensures Valid()
      ensures n <= 1 ==> r == Ok(0) && bitPos == old(bitPos)
      ensures n > 64 ==> r == Err(BadBitCount) && bitPos == old(bitPos)
      ensures 1 < n <= 64 && old(bitPos) + n > |Stream()| ==> r == Err(UnexpectedEOF) && bitPos == old(bitPos)
      ensures 1 < n <= 64 && old(bitPos) + n <= |Stream()| ==>
                r == Ok(Signed(Stream()[old(bitPos)..old(bitPos) + n])) && bitPos == old(bitPos) + n
    {
      if n <= 1 {
        return Ok(0);
      }
      var raw := ReadBits(n);
      if raw.Err? {
        return Err(raw.error);
      }
      SignAndMagnitude(Stream()[old(bitPos)..old(bitPos) + n]);
      hide ToNat, Shr, Low, Unpack;
      var signBit := Low(Shr(raw.value, n - 1), 1);
      var mag := Low(raw.value, n - 1);
      r := Ok(if signBit == 1 then -(mag as int) else mag);
    }

    /** The octets, and whether every one of them is 0xFF. */
    method ReadString(charCount: int) returns (r: Result<(seq<byte>, bool)>)
      requires Valid()
      modifies this`bitPos
      ensures Valid()
      ensures charCount <= 0 ==> r == Ok(([], false)) && bitPos == old(bitPos)
      ensures 0 <= charCount && old(bitPos) + 8 * charCount > |Stream()| ==> r == Err(UnexpectedEOF)
      ensures 0 <= charCount && old(bitPos) + 8 * charCount <= |Stream()| ==>
                bitPos == old(bitPos) + 8 * charCount && r.Ok? &&
                var s := Octets(Stream(), old(bitPos), charCount);
                r.value.1 == AllFF(s) && r.value.0 == if AllFF(s) then [] else s
    {
      if charCount <= 0 {
        return Ok(([], false));
      }
      var buf: seq<byte> := [];
      var allFF := true;
      for i := 0 to charCount
        invariant bitPos == old(bitPos) + 8 * i <= |Stream()|
        invariant buf == Octets(Stream(), old(bitPos), i)
        invariant allFF <==> forall k :: 0 <= k < i ==> buf[k] == 0xff
      {
        var val := ReadBits(8);
        if val.Err? {
          return Err(val.error);
        }
        Pow2Of8();
        var c: byte := val.value;
        ghost var before := buf;
        buf := buf + [c];
        assert buf[i] == c && forall k :: 0 <= k < i ==> buf[k] == before[k];
        if c != 0xff {
          allFF := false;
        }
      }
      if allFF {
        return Ok(([], true));
      }
      r := Ok((buf, false));
    }
  }

  predicate AllFF(s: seq<byte>) {
    s != [] && forall k :: 0 <= k < |s| ==> s[k] == 0xff
  }
}
