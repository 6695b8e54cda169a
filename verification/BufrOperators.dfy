/**
  What the operators of Table C do: what each one adds to width, scale and reference of a number, that
  cancelling it undoes it, that more precision loses nothing, and which bits and elements are passed
  over for 204, 206 and 237. And what a count can be.
 */
module BufrOperators {
  import opened Bits
  import opened BitReading
  import opened BufrTypes
  import opened BufrLeaves
  import opened BufrMachine

  /**
    Each operator changes what it is for and nothing else: 201 the width, 202 the scale, 203 only
    what was defined before, and 207 from no extra precision all three.
   */
  lemma OperatorsAdd(e: Entry, code: nat, ops: Operators, x: nat, y: nat)
    ensures var f, g := NumberFormat(e, code, ops), NumberFormat(e, code, Operate(ops, x, y));
      match x
      case 1 => g == f.(width := f.width - ops.dataWidthChange + if y == 0 then 0 else y - 128)
      case 2 => g == f.(scale := f.scale - ops.scaleChange + if y == 0 then 0 else y - 128)
      case 3 => g == if y == 0 then NumberFormat(e, code, ops.(newRefValues := map[])) else f
      case 7 => ops.scaleRefWidthExtra == 0 ==>
        g == if y == 0 then f else Format(f.width + (10 * y + 2) / 3, f.reference * Pow10(y), f.scale + y)
      case _ => g == f
  {
    hide Pow10;
  }

  /** Cancelled, an operator that stood alone leaves the format of Table B. */
  lemma OperatorsCancel(e: Entry, code: nat, x: nat, y: nat)
    ensures NumberFormat(e, code, Neutral) == Format(e.width, e.reference, e.scale)
    ensures NumberFormat(e, code, Operate(Operate(Neutral, x, y), x, 0)) == NumberFormat(e, code, Neutral)
  {
  }

  lemma Product(a: nat, b: nat, c: nat, d: nat)
    requires a <= c && b <= d
    ensures a * b <= c * d
  {
    assert a * b <= a * d <= c * d;
  }

  lemma {:induction false} Pow2Sum(a: nat, b: nat)
    ensures Pow2(a + b) == Pow2(a) * Pow2(b)
  {
    if b > 0 {
      Pow2Sum(a, b - 1);
      assert Pow2(a) * (2 * Pow2(b - 1)) == 2 * (Pow2(a) * Pow2(b - 1));
    }
  }

  /** The bits operator 207 adds have room for the digits it adds. */
  lemma {:induction false} DigitsFit(y: nat)
    ensures 0 < Pow10(y) <= Pow2((10 * y + 2) / 3)
  {
    if y >= 3 {
      DigitsFit(y - 3);
      var k := (10 * (y - 3) + 2) / 3;
      assert (10 * y + 2) / 3 == k + 10;
      assert Pow10(y) == 1000 * Pow10(y - 3) by { assert Pow10(y - 1) == 10 * Pow10(y - 2); }
      Pow2Octet(k + 2);
      assert Pow2(k + 10) == 256 * Pow2(k + 2) == 1024 * Pow2(k);
    } else if y == 2 {
      assert Pow2(3) == 8 && Pow2(5) == 32 && Pow2(7) == 128;
      assert Pow10(1) == 10;
    } else if y == 1 {
      assert Pow2(2) == 4;
    }
  }

  /**
    Under operator 207 every number of a field still fits, scaled by the digits added, and says the
    same: its integer and its decimal scale have grown alike.
   */
  lemma PrecisionLosesNothing(e: Entry, code: nat, ops: Operators, y: nat, raw: nat)
    requires ops.scaleRefWidthExtra == 0 && y > 0
    requires NumberFormat(e, code, ops).width >= 0 && raw < Pow2(NumberFormat(e, code, ops).width)
    ensures var f, g := NumberFormat(e, code, ops), NumberFormat(e, code, Operate(ops, 7, y));
      && g.scale == f.scale + y
      && raw * Pow10(y) + g.reference == (raw + f.reference) * Pow10(y)
      && g.width >= 0 && raw * Pow10(y) < Pow2(g.width)
  {
    hide Pow2, Pow10, NumberFormat;
    OperatorsAdd(e, code, ops, 7, y);
    var f := NumberFormat(e, code, ops);
    var more := (10 * y + 2) / 3;
    DigitsFit(y);
    Distributes(raw, f.reference, Pow10(y));
    Product(raw + 1, Pow10(y), Pow2(f.width), Pow2(more));
    Distributes(raw, 1, Pow10(y));
    Pow2Sum(f.width, more);
  }

  lemma Distributes(a: int, b: int, c: int)
    ensures (a + b) * c == a * c + b * c
  {
  }

  /**
    A count read from 1 to 64 bits is a signed 64-bit integer, the field itself modulo 2^64; it is
    negative only if all 64 bits are used. All ones is zero, but for descriptor 031000.
   */
  lemma CountRange(raw: nat, width: nat, code: nat)
    requires 1 <= width <= 64 && raw < Pow2(width)
    ensures var count, missing := CountOf(raw, width, code), code != 31000 && raw == Pow2(width) - 1;
      && -0x8000_0000_0000_0000 <= count < 0x8000_0000_0000_0000
      && (if missing then count == 0 else count == raw || count == raw - 0x1_0000_0000_0000_0000)
      && (count < 0 ==> width == 64)
  {
    hide Pow2;
    Pow2Of64();
    Pow2Monotone(width, 64);
    if width < 64 {
      Pow2Monotone(width, 63);
      Half();
    }
  }

  lemma Half()
    ensures 2 * Pow2(63) == Pow2(64)
  {
  }

  /** A reference defined under 203 replaces the one of Table B, for its element and for no other. */
  lemma ReferenceReplaced(e: Entry, code: nat, ops: Operators, v: int, other: nat)
    requires ops.scaleRefWidthExtra == 0
    ensures NumberFormat(e, code, ops.(newRefValues := ops.newRefValues[code := v])).reference == v
    ensures code !in ops.newRefValues ==> NumberFormat(e, code, ops).reference == e.reference
    ensures other != code ==>
      NumberFormat(e, other, ops.(newRefValues := ops.newRefValues[code := v])) == NumberFormat(e, other, ops)
  {
  }

  /** While 203 is defining, an element takes its reference from the bits: sign first, nothing is emitted. */
  lemma ReferenceDefined(t: Tables, bits: seq<bool>, d: Descriptor, m: Machine)
    requires m.Ready(|bits|) && d.Code() in t.b && 1 < m.ops.newRefWidth <= 64 && !m.Short(bits, m.ops.newRefWidth)
    ensures var w, r := m.ops.newRefWidth, RowElement(t, bits, d, m);
      var magnitude: int := Cut(bits, m.pos + 1, w - 1);
      && r.Ok? && r.value.out == m.out && r.value.pos == m.pos + w
      && r.value.ops == m.ops.(newRefValues := m.ops.newRefValues[d.Code() := if bits[m.pos] then -magnitude else magnitude])
  {
    var w := m.ops.newRefWidth;
    assert bits[m.pos..m.pos + w][1..] == bits[m.pos + 1..m.pos + 1 + (w - 1)];
  }

  /** The presence bits of 237 are those at the cursor, first for first. */
  lemma {:induction false} FlagsInOrder(bits: seq<bool>, pos: nat, y: nat)
    requires pos + y <= |bits|
    ensures ReadFlags(bits, pos, false, y) == Flags(pos + y, false, bits[pos..pos + y])
  {
    if y > 0 {
      FlagsInOrder(bits, pos, y - 1);
    }
  }

  lemma BitmapInOrder(bits: seq<bool>, d: Descriptor, m: Machine)
    requires m.Ready(|bits|) && d.x == 37 && d.y > 0 && !m.Short(bits, d.y)
    ensures RowOperator(bits, d, m)
         == m.(pos := m.pos + d.y, ops := m.ops.(bitmapRemaining := d.y, bitmapBits := bits[m.pos..m.pos + d.y]))
  {
    FlagsInOrder(bits, m.pos, d.y);
  }

  /** A field does not depend on presence bits and associated fields once they have been dealt with. */
  lemma FieldAlike(bits: seq<bool>, d: Descriptor, e: Entry, m: Machine, ops: Operators)
    requires m.Ready(|bits|) && ops.bitmapRemaining <= |ops.bitmapBits|
    requires NumberFormat(e, d.Code(), ops) == NumberFormat(e, d.Code(), m.ops) && TextWidth(e, ops) == TextWidth(e, m.ops)
    ensures var r := RowField(bits, d, e, m);
      (r.Ok? ==> r.value.ops == m.ops)
      && RowField(bits, d, e, m.(ops := ops)) == if r.Err? then r else Ok(r.value.(ops := ops))
  {
    hide TextDatum, NumberDatum, Octets, AppendAll, NumberFormat, TextWidth;
  }

  lemma FormatAlike(e: Entry, code: nat, ops: Operators, left: nat, width: nat)
    ensures var other := ops.(bitmapRemaining := left, assocFieldWidth := width);
      NumberFormat(e, code, other) == NumberFormat(e, code, ops) && TextWidth(e, other) == TextWidth(e, ops)
  {
  }

  /**
    The next presence bit decides about an element: set, it is read as if there were no presence bits;
    not set, it is missing and takes no bits. Either way the bit is used up.
   */
  lemma PresenceDecides(t: Tables, bits: seq<bool>, d: Descriptor, m: Machine)
    requires m.Ready(|bits|) && d.Code() in t.b && m.ops.newRefWidth == 0 && m.ops.bitmapRemaining > 0
    ensures var e, left := t.b[d.Code()], m.ops.bitmapRemaining;
      var r := RowElement(t, bits, d, m);
      var plain := RowElement(t, bits, d, m.(ops := m.ops.(bitmapRemaining := 0)));
      if m.ops.bitmapBits[|m.ops.bitmapBits| - left] then
        if plain.Err? then r == plain
        else r == Ok(plain.value.(ops := plain.value.ops.(bitmapRemaining := left - 1)))
      else
        r == Ok(m.(ops := m.ops.(bitmapRemaining := left - 1), out := AppendAll(m.out, Said(d, e, Missing))))
  {
    hide RowField, AppendAll, NumberFormat, TextWidth;
    var e, left := t.b[d.Code()], m.ops.bitmapRemaining;
    var less, none := m.ops.(bitmapRemaining := left - 1), m.ops.(bitmapRemaining := 0);
    FormatAlike(e, d.Code(), none, left - 1, m.ops.assocFieldWidth);
    FieldAlike(bits, d, e, RowAssociated(bits, d.Code(), m.(ops := none)), less);
    assert RowAssociated(bits, d.Code(), m.(ops := less)) == RowAssociated(bits, d.Code(), m.(ops := none)).(ops := less);
  }

  /** In front of an element the associated field of 204 is passed over, and only in front of 031021 there is none. */
  lemma AssociatedPassed(t: Tables, bits: seq<bool>, d: Descriptor, m: Machine)
    requires m.Ready(|bits|) && d.Code() in t.b && m.ops.newRefWidth == 0 && m.ops.bitmapRemaining == 0
    ensures var w, r := m.ops.assocFieldWidth, RowElement(t, bits, d, m);
      var bare := m.(ops := m.ops.(assocFieldWidth := 0));
      var from := if d.Code() == 31021 then bare
                  else if m.Short(bits, w) && w > 0 then bare.(exhausted := true)
                  else bare.(pos := if w == 0 then m.pos else m.pos + w);
      var plain := RowElement(t, bits, d, from);
      if plain.Err? then r == plain else r == Ok(plain.value.(ops := plain.value.ops.(assocFieldWidth := w)))
  {
    hide RowField, AppendAll, NumberFormat, TextWidth;
    var e, bare := t.b[d.Code()], m.ops.(assocFieldWidth := 0);
    FormatAlike(e, d.Code(), bare, 0, m.ops.assocFieldWidth);
    var from := RowAssociated(bits, d.Code(), m).(ops := bare);
    FieldAlike(bits, d, e, from, m.ops);
    assert from.(ops := m.ops) == RowAssociated(bits, d.Code(), m);
  }

  /** After 206 one local descriptor is passed over by exactly the width announced; the next is refused. */
  lemma LocalPassedOnce(bits: seq<bool>, d: Descriptor, m: Machine, y: nat, next: Descriptor)
    requires m.Ready(|bits|) && !m.Short(bits, y)
    ensures var r := SkipLocal(bits, d, m.(ops := Operate(m.ops, 6, y)));
      && r == Ok(m.(pos := m.pos + y, ops := m.ops.(skipNextLocal := false, localWidth := y)))
      && SkipLocal(bits, next, r.value) == Err(LocalDescriptor(next))
    ensures !m.ops.skipNextLocal ==> SkipLocal(bits, d, m) == Err(LocalDescriptor(d))
  {
  }
}
