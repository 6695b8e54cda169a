/**
  Compressed decoding means the same as uncompressed decoding. Interpreting a template over a
  matrix is mirrored, leaf by leaf, by the row decoder on any one subset of the row layout and by
  the column decoder on the column layout.
 */
module BufrTransposition {
  import opened Options
  import opened Bits
  import opened BitReading
  import opened BufrTypes
  import opened BufrMachine
  import opened BufrLeaves
  import opened BufrLayout
  import opened BufrInterpreter

  // ----- Reading back what was laid out -----

  lemma OctetsOfText(bits: seq<bool>, pos: nat, s: seq<byte>)
    requires Holds(bits, pos, Unpack(s))
    ensures Octets(bits, pos, |s|) == s
  {
    hide Unpack, OctetBits, ToNat, Holds;
    HeldFits(bits, pos, Unpack(s));
    forall k | 0 <= k < |s|
      ensures Cut(bits, pos + 8 * k, 8) == s[k]
    {
      SliceOfHeld(bits, pos, Unpack(s), 8 * k, 8 * k + 8);
      UnpackAt(s, k);
      OctetNat(s[k]);
    }
  }

  lemma HeldFits(bits: seq<bool>, pos: nat, field: seq<bool>)
    requires Holds(bits, pos, field)
    ensures pos + |field| <= |bits|
  {
  }

  lemma HeldNumber(bits: seq<bool>, pos: nat, field: seq<bool>)
    requires Holds(bits, pos, field)
    ensures pos + |field| <= |bits| && Cut(bits, pos, |field|) == ToNat(field)
  {
  }

  lemma OnesAreAllOnes(raw: nat, w: nat)
    requires 1 <= w <= 64 && raw < Pow2(w)
    ensures IsAllOnes(raw, w) <==> raw == Ones(w)
  {
    Pow2Of64();
  }

  lemma {:induction false} IncrementsReadBack(bits: seq<bool>, pos: nat, fields: seq<seq<bool>>, step: nat)
    requires forall s :: 0 <= s < |fields| ==> |fields[s]| == step
    requires Holds(bits, pos, Concat(fields))
    ensures var r := ReadIncrements(bits, pos, step, |fields|);
      && !r.exhausted && r.pos == pos + |Concat(fields)|
      && forall s :: 0 <= s < |fields| ==> r.at[s].Some? && Holds(bits, r.at[s].value, fields[s])
  {
    if fields != [] {
      var k := |fields| - 1;
      HoldsParts(bits, pos, Concat(fields[..k]), fields[k]);
      IncrementsReadBack(bits, pos, fields[..k], step);
    }
  }

  // ----- What mirrors what -----

  predicate AllValid(cols: seq<Column>, n: nat) {
    forall k :: 0 <= k < |cols| ==> Valid(cols[k], n)
  }

  /** A matrix of n subsets, and the subset a row decoder is reading from bit position start on. */
  datatype View = View(cols: seq<Column>, n: nat, subset: nat, start: nat) {
    predicate Fits(src: Source) {
      && n >= 1 && subset < n && AllValid(cols, n)
      && match src
         case Rows(bits) => Holds(bits, start, RowBits(cols, subset))
         case Columns(bits) => Holds(bits, 0, ColumnsBits(cols, n))
         case Matrix(_) => false
    }
  }

  predicate Plain(ops: Operators) {
    && ops.newRefWidth == 0 && ops.newRefValues == map[] && ops.assocFieldWidth == 0
    && ops.bitmapRemaining == 0 && ops.bitmapBits == [] && !ops.skipNextLocal && ops.localWidth == 0
  }

  /** m, run from bits, stands where mm, run from the matrix, stands. */
  predicate Mirrors(v: View, src: Source, mm: Machine, m: Machine)
    requires v.Fits(src)
  {
    && |mm.out| == v.n && mm.pos <= |v.cols| && !m.exhausted && !mm.exhausted
    && Plain(mm.ops) && m.ops == mm.ops && m.Ready(src.Size())
    && m.pos == Reached(v, src, mm.pos)
    && m.out == if src.Rows? then [mm.out[v.subset]] else mm.out
  }

  /** Where a run from bits stands once the first k columns are read. */
  function Reached(v: View, src: Source, k: nat): nat
    requires v.Fits(src) && k <= |v.cols|
  {
    if src.Rows? then v.start + |Concat(RowFields(v.cols, v.subset)[..k])|
    else |Concat(ColumnFields(v.cols, v.n)[..k])|
  }

  // ----- One field -----

  lemma CellReadsBack(c: Column, s: nat, n: nat, f: Format)
    requires Valid(c, n) && s < n && c.NumberColumn? && f.width == c.width
    ensures NumberDatum(ToNat(CellBits(c, s)), f) == CellDatum(Cell(c, s), f)
  {
    assert ValidCell(c, Cell(c, s));
    BitsOfNat(if Cell(c, s).None? then Ones(c.width) else Cell(c, s).value, c.width);
    OnesAreAllOnes(ToNat(CellBits(c, s)), c.width);
  }

  lemma IncrementReadsBack(c: Column, s: nat, n: nat, f: Format)
    requires Valid(c, n) && s < n && c.NumberColumn? && f.width == c.width && c.nbinc > 0
    ensures Increased(c.reference, ToNat(IncrementOf(c, s)), c.nbinc, f) == CellDatum(Cell(c, s), f)
  {
    hide Pow2, ToNat, ToBits, IsAllOnes;
    var cell := Cell(c, s);
    assert ValidCell(c, cell);
    var increment := if cell.None? then Ones(c.nbinc) else cell.value - c.reference;
    BitsOfNat(increment, c.nbinc);
    assert ToNat(IncrementOf(c, s)) == increment;
    OnesAreAllOnes(increment, c.nbinc);
    OnesAreAllOnes(c.reference, c.width);
    ShiftFits(c, cell);
  }

  lemma ShiftFits(c: Column, cell: Option<nat>)
    requires c.NumberColumn? && c.width <= 64 && ValidCell(c, cell)
    ensures cell.Some? ==> cell.value < 0x1_0000_0000_0000_0000
  {
    Pow2Monotone(c.width, 64);
    Pow2Of64();
  }

  lemma RowTextReadsBack(bits: seq<bool>, m: Machine, c: Column, s: nat, n: nat)
    requires m.Ready(|bits|) && !m.exhausted
    requires Valid(c, n) && s < n && c.TextColumn? && Holds(bits, m.pos, CellBits(c, s))
    ensures RowText(bits, m, 8 * c.chars) == (m.(pos := m.pos + |CellBits(c, s)|), TextDatum(CellText(c, s)))
  {
    OctetsOfText(bits, m.pos, CellText(c, s));
  }

  lemma RowNumberReadsBack(bits: seq<bool>, m: Machine, c: Column, s: nat, n: nat, f: Format)
    requires m.Ready(|bits|) && !m.exhausted
    requires Valid(c, n) && s < n && c.NumberColumn? && Holds(bits, m.pos, CellBits(c, s))
    requires f.width == c.width
    ensures RowNumber(bits, m, f) == (m.(pos := m.pos + |CellBits(c, s)|), CellDatum(Cell(c, s), f))
  {
    CellReadsBack(c, s, n, f);
  }

  lemma NbincReadsBack(nbinc: nat)
    requires nbinc < 64
    ensures ToNat(ToBits(nbinc, 6)) == nbinc
  {
    assert Pow2(3) == 8;
    assert Pow2(6) == 64;
    BitsOfNat(nbinc, 6);
  }

  /** The three parts of a column: reference, NBINC, increments. */
  lemma ColumnParts(bits: seq<bool>, pos: nat, reference: seq<bool>, nbinc: nat, rest: seq<bool>)
    requires nbinc < 64 && Holds(bits, pos, reference + (ToBits(nbinc, 6) + rest))
    ensures Holds(bits, pos, reference)
    ensures pos + |reference| + 6 <= |bits| && Cut(bits, pos + |reference|, 6) == nbinc
    ensures Holds(bits, pos + |reference| + 6, rest)
  {
    var six := ToBits(nbinc, 6);
    HoldsParts(bits, pos, reference, six + rest);
    HoldsParts(bits, pos + |reference|, six, rest);
    NbincReadsBack(nbinc);
  }

  lemma TextIncrements(bits: seq<bool>, at: seq<Option<nat>>, c: Column, n: nat)
    requires Valid(c, n) && c.TextColumn? && c.nbinc > 0 && |at| == n
    requires forall s :: 0 <= s < n ==> at[s].Some? && at[s].value + 8 * c.nbinc <= |bits|
    requires forall s :: 0 <= s < n ==> Holds(bits, at[s].value, IncrementOf(c, s))
    ensures IncrementTexts(bits, at, c.prefix, c.nbinc) == TextData(c, n)
  {
    forall s | 0 <= s < n
      ensures Octets(bits, at[s].value, c.nbinc) == CellText(c, s)
    {
      OctetsOfText(bits, at[s].value, CellText(c, s));
    }
  }

  lemma SameTexts(c: Column, n: nat)
    requires Valid(c, n) && c.TextColumn? && c.nbinc == 0
    ensures seq(n, s => TextDatum(c.prefix)) == TextData(c, n)
  {
  }

  lemma TextBodyReadsBack(bits: seq<bool>, m: Machine, pos: nat, c: Column, n: nat)
    requires m.Ready(|bits|) && !m.exhausted && |m.out| == n && m.pos <= pos <= |bits|
    requires Valid(c, n) && c.TextColumn?
    requires Holds(bits, pos, BodyBits(c, n))
    ensures TextBody(bits, m, c.prefix, pos, c.nbinc) == (m.(pos := pos + |BodyBits(c, n)|), TextData(c, n))
  {
    if c.nbinc == 0 {
      SameTexts(c, n);
    } else {
      var fields := IncrementFields(c, n);
      assert forall s :: 0 <= s < n ==> |fields[s]| == 8 * c.nbinc;
      IncrementsReadBack(bits, pos, fields, 8 * c.nbinc);
      TextIncrements(bits, ReadIncrements(bits, pos, 8 * c.nbinc, n).at, c, n);
    }
  }

  lemma ColumnTextReadsBack(bits: seq<bool>, m: Machine, c: Column, n: nat)
    requires m.Ready(|bits|) && !m.exhausted && |m.out| == n
    requires Valid(c, n) && c.TextColumn? && Holds(bits, m.pos, ColumnBits(c, n))
    ensures ColumnText(bits, m, 8 * c.chars) == (m.(pos := m.pos + |ColumnBits(c, n)|), TextData(c, n))
  {
    hide Concat, ToNat, TextDatum, IncrementFields, Octets, BodyBits, TextBody, TextData;
    ColumnParts(bits, m.pos, ReferenceBits(c), c.nbinc, BodyBits(c, n));
    OctetsOfText(bits, m.pos, c.prefix);
    TextBodyReadsBack(bits, m, m.pos + 8 * c.chars + 6, c, n);
  }

  lemma NumberIncrement(bits: seq<bool>, pos: nat, c: Column, s: nat, n: nat, f: Format)
    requires Valid(c, n) && s < n && c.NumberColumn? && f.width == c.width && c.nbinc > 0
    requires Holds(bits, pos, IncrementOf(c, s))
    ensures Increased(c.reference, Cut(bits, pos, c.nbinc), c.nbinc, f) == CellDatum(Cell(c, s), f)
  {
    IncrementReadsBack(c, s, n, f);
  }

  lemma NumberIncrements(bits: seq<bool>, at: seq<Option<nat>>, c: Column, n: nat, f: Format)
    requires Valid(c, n) && c.NumberColumn? && f.width == c.width && c.nbinc > 0 && |at| == n
    requires forall s :: 0 <= s < n ==> at[s].Some? && at[s].value + c.nbinc <= |bits|
    requires forall s :: 0 <= s < n ==> Holds(bits, at[s].value, IncrementOf(c, s))
    ensures IncrementNumbers(bits, at, c.reference, c.nbinc, f) == NumberData(c, n, f)
  {
    forall s | 0 <= s < n
      ensures Increased(c.reference, Cut(bits, at[s].value, c.nbinc), c.nbinc, f) == CellDatum(Cell(c, s), f)
    {
      NumberIncrement(bits, at[s].value, c, s, n, f);
    }
  }

  lemma SameNumbers(c: Column, n: nat, f: Format)
    requires Valid(c, n) && c.NumberColumn? && f.width == c.width && c.nbinc == 0
    ensures seq(n, s => NumberDatum(c.reference, f)) == NumberData(c, n, f)
  {
    forall s | 0 <= s < n
      ensures NumberDatum(c.reference, f) == CellDatum(Cell(c, s), f)
    {
      assert ValidCell(c, Cell(c, s));
      OnesAreAllOnes(c.reference, c.width);
    }
  }

  lemma NumberBodyReadsBack(bits: seq<bool>, m: Machine, pos: nat, c: Column, n: nat, f: Format)
    requires m.Ready(|bits|) && !m.exhausted && |m.out| == n && m.pos <= pos <= |bits|
    requires Valid(c, n) && c.NumberColumn? && f.width == c.width
    requires Holds(bits, pos, BodyBits(c, n))
    ensures NumberBody(bits, m, c.reference, pos, c.nbinc, f)
         == (m.(pos := pos + |BodyBits(c, n)|), NumberData(c, n, f))
  {
    if c.nbinc == 0 {
      SameNumbers(c, n, f);
    } else {
      var fields := IncrementFields(c, n);
      assert forall s :: 0 <= s < n ==> |fields[s]| == c.nbinc;
      IncrementsReadBack(bits, pos, fields, c.nbinc);
      NumberIncrements(bits, ReadIncrements(bits, pos, c.nbinc, n).at, c, n, f);
    }
  }

  lemma ColumnNumberReadsBack(bits: seq<bool>, m: Machine, c: Column, n: nat, f: Format)
    requires m.Ready(|bits|) && !m.exhausted && |m.out| == n
    requires Valid(c, n) && c.NumberColumn? && Holds(bits, m.pos, ColumnBits(c, n))
    requires f.width == c.width
    ensures ColumnNumber(bits, m, f) == (m.(pos := m.pos + |ColumnBits(c, n)|), NumberData(c, n, f))
  {
    hide Concat, ToNat, NumberDatum, IncrementFields, BodyBits, NumberBody, NumberData;
    ColumnParts(bits, m.pos, ReferenceBits(c), c.nbinc, BodyBits(c, n));
    BitsOfNat(c.reference, c.width);
    NumberBodyReadsBack(bits, m, m.pos + f.width + 6, c, n, f);
  }

  // ----- One leaf -----

  lemma PlainKept(ops: Operators, x: nat, y: nat)
    requires Plain(ops) && Transposable(x, y)
    ensures Plain(Operate(ops, x, y))
  {
  }

  lemma OneRow(out: seq<seq<Value>>, vals: seq<Value>, s: nat)
    requires s < |out| == |vals|
    ensures AppendAll([out[s]], vals[s]) == [Append(out, vals)[s]]
  {
  }

  /** The next column in view, and what one subset of it holds. */
  lemma NextInRow(v: View, bits: seq<bool>, mm: Machine, m: Machine)
    requires v.Fits(Rows(bits)) && Mirrors(v, Rows(bits), mm, m) && mm.pos < |v.cols|
    ensures Holds(bits, m.pos, CellBits(v.cols[mm.pos], v.subset))
    ensures Reached(v, Rows(bits), mm.pos + 1) == m.pos + |CellBits(v.cols[mm.pos], v.subset)| <= |bits|
  {
    hide Concat, AllValid, Valid, CellBits, Plain;
    NextField(bits, v.start, RowFields(v.cols, v.subset), mm.pos);
  }

  lemma NextInColumn(v: View, bits: seq<bool>, mm: Machine, m: Machine)
    requires v.Fits(Columns(bits)) && Mirrors(v, Columns(bits), mm, m) && mm.pos < |v.cols|
    ensures Holds(bits, m.pos, ColumnBits(v.cols[mm.pos], v.n))
    ensures Reached(v, Columns(bits), mm.pos + 1) == m.pos + |ColumnBits(v.cols[mm.pos], v.n)| <= |bits|
  {
    hide Concat, AllValid, Valid, ColumnBits, Plain;
    NextField(bits, 0, ColumnFields(v.cols, v.n), mm.pos);
  }

  /** Using up the next column alike on both sides. */
  lemma Advance(v: View, src: Source, mm: Machine, m: Machine, out: seq<seq<Value>>, pos: nat)
    requires v.Fits(src) && Mirrors(v, src, mm, m) && mm.pos < |v.cols|
    requires pos == Reached(v, src, mm.pos + 1) <= src.Size() && |out| == v.n
    ensures Mirrors(v, src, mm.(pos := mm.pos + 1, out := out),
                    m.(pos := pos, out := if src.Rows? then [out[v.subset]] else out))
  {
  }

  lemma RowOperatorMirrors(v: View, bits: seq<bool>, d: Descriptor, mm: Machine, m: Machine)
    requires v.Fits(Rows(bits)) && Mirrors(v, Rows(bits), mm, m)
    requires MatrixOperator(v.cols, d, mm).Ok?
    ensures Mirrors(v, Rows(bits), MatrixOperator(v.cols, d, mm).value, RowOperator(bits, d, m))
  {
    if d.x == 5 {
      var c := v.cols[mm.pos];
      NextInRow(v, bits, mm, m);
      RowTextReadsBack(bits, m, c, v.subset, v.n);
      OneRow(mm.out, SignifiedAll(d, TextData(c, v.n)), v.subset);
    } else {
      PlainKept(mm.ops, d.x, d.y);
    }
  }

  lemma RowElementMirrors(v: View, t: Tables, bits: seq<bool>, d: Descriptor, mm: Machine, m: Machine)
    requires v.Fits(Rows(bits)) && Mirrors(v, Rows(bits), mm, m)
    requires MatrixElement(t, v.cols, d, mm).Ok?
    ensures RowElement(t, bits, d, m).Ok?
    ensures Mirrors(v, Rows(bits), MatrixElement(t, v.cols, d, mm).value, RowElement(t, bits, d, m).value)
  {
    var e, c := t.b[d.Code()], v.cols[mm.pos];
    NextInRow(v, bits, mm, m);
    if e.unit == CHARACTER_UNIT {
      RowTextReadsBack(bits, m, c, v.subset, v.n);
      OneRow(mm.out, SaidAll(d, e, TextData(c, v.n)), v.subset);
    } else {
      var f := NumberFormat(e, d.Code(), m.ops);
      RowNumberReadsBack(bits, m, c, v.subset, v.n, f);
      OneRow(mm.out, SaidAll(d, e, NumberData(c, v.n, f)), v.subset);
    }
  }

  lemma ColumnOperatorMirrors(v: View, bits: seq<bool>, d: Descriptor, mm: Machine, m: Machine)
    requires v.Fits(Columns(bits)) && Mirrors(v, Columns(bits), mm, m)
    requires MatrixOperator(v.cols, d, mm).Ok?
    ensures Mirrors(v, Columns(bits), MatrixOperator(v.cols, d, mm).value, ColumnOperator(bits, d, m))
  {
    if d.x == 5 {
      NextInColumn(v, bits, mm, m);
      ColumnTextReadsBack(bits, m, v.cols[mm.pos], v.n);
    } else {
      PlainKept(mm.ops, d.x, d.y);
    }
  }

  /** What an element descriptor says about a column, subset by subset. */
  function ElementData(t: Tables, d: Descriptor, ops: Operators, c: Column, n: nat): (data: seq<Datum>)
    requires d.Code() in t.b && (c.TextColumn? || c.NumberColumn?)
    ensures |data| == n
  {
    if c.TextColumn? then TextData(c, n) else NumberData(c, n, NumberFormat(t.b[d.Code()], d.Code(), ops))
  }

  lemma ColumnElementReadsBack(t: Tables, bits: seq<bool>, d: Descriptor, m: Machine, c: Column)
    requires m.Ready(|bits|) && !m.exhausted && m.ops.newRefWidth == 0 && d.Code() in t.b
    requires Valid(c, |m.out|) && Holds(bits, m.pos, ColumnBits(c, |m.out|))
    requires if t.b[d.Code()].unit == CHARACTER_UNIT
             then c.TextColumn? && 8 * c.chars == TextWidth(t.b[d.Code()], m.ops)
             else c.NumberColumn? && c.width == NumberFormat(t.b[d.Code()], d.Code(), m.ops).width
    ensures ColumnElement(t, bits, d, m)
         == Ok(m.(pos := m.pos + |ColumnBits(c, |m.out|)|,
                  out := Append(m.out, SaidAll(d, t.b[d.Code()], ElementData(t, d, m.ops, c, |m.out|)))))
  {
    hide Valid, ColumnText, ColumnNumber, ColumnBits, TextData, NumberData, NumberFormat, Append, SaidAll;
    if c.TextColumn? {
      ColumnTextReadsBack(bits, m, c, |m.out|);
    } else {
      ValidWidth(c, |m.out|);
      ColumnNumberReadsBack(bits, m, c, |m.out|, NumberFormat(t.b[d.Code()], d.Code(), m.ops));
    }
  }

  lemma ValidWidth(c: Column, n: nat)
    requires Valid(c, n) && c.NumberColumn?
    ensures 1 <= c.width <= 64
  {
  }

  lemma ColumnElementMirrors(v: View, t: Tables, bits: seq<bool>, d: Descriptor, mm: Machine, m: Machine)
    requires v.Fits(Columns(bits)) && Mirrors(v, Columns(bits), mm, m)
    requires MatrixElement(t, v.cols, d, mm).Ok?
    ensures ColumnElement(t, bits, d, m).Ok?
    ensures Mirrors(v, Columns(bits), MatrixElement(t, v.cols, d, mm).value, ColumnElement(t, bits, d, m).value)
  {
    hide ColumnElement, ColumnBits, Concat, Append, SaidAll, TextData, NumberData, NumberFormat, Holds, Reached;
    var c := v.cols[mm.pos];
    NextInColumn(v, bits, mm, m);
    ColumnElementReadsBack(t, bits, d, m, c);
    var mr, r := MatrixElement(t, v.cols, d, mm).value, ColumnElement(t, bits, d, m).value;
    assert r.out == mr.out;
    Advance(v, Columns(bits), mm, m, mr.out, r.pos);
  }

  lemma LeafMirrors(v: View, t: Tables, src: Source, d: Descriptor, mm: Machine, m: Machine)
    requires v.Fits(src) && Mirrors(v, src, mm, m) && Leafy(d)
    requires MatrixLeaf(t, v.cols, d, mm).Ok?
    ensures src.Leaf(t, d, m).Ok?
    ensures Mirrors(v, src, MatrixLeaf(t, v.cols, d, mm).value, src.Leaf(t, d, m).value)
  {
    if src.Rows? {
      if d.f == 2 { RowOperatorMirrors(v, src.bits, d, mm, m); } else { RowElementMirrors(v, t, src.bits, d, mm, m); }
    } else {
      if d.f == 2 { ColumnOperatorMirrors(v, src.bits, d, mm, m); } else { ColumnElementMirrors(v, t, src.bits, d, mm, m); }
    }
  }

  // ----- One delayed count -----

  lemma RowCountMirrors(v: View, t: Tables, bits: seq<bool>, d: Descriptor, mm: Machine, m: Machine)
    requires v.Fits(Rows(bits)) && Mirrors(v, Rows(bits), mm, m)
    requires MatrixCount(t, v.cols, d, mm).Ok?
    ensures var mr, r := MatrixCount(t, v.cols, d, mm), RowCount(t, bits, d, m);
      r.Ok? && r.value.1 == mr.value.1 && Mirrors(v, Rows(bits), mr.value.0, r.value.0)
  {
    hide Concat, ToNat, ToBits, CountOf, RowFields, AllValid, Holds;
    var e, c := t.b[d.Code()], v.cols[mm.pos];
    NextInRow(v, bits, mm, m);
    BitsOfNat(c.raw, c.width);
    HeldNumber(bits, m.pos, CellBits(c, v.subset));
    var said := Said(d, e, Number(CountOf(c.raw, c.width, d.Code()), 0));
    OneRow(mm.out, seq(v.n, s => said), v.subset);
  }

  lemma ColumnCountMirrors(v: View, t: Tables, bits: seq<bool>, d: Descriptor, mm: Machine, m: Machine)
    requires v.Fits(Columns(bits)) && Mirrors(v, Columns(bits), mm, m)
    requires MatrixCount(t, v.cols, d, mm).Ok?
    ensures var mr, r := MatrixCount(t, v.cols, d, mm), ColumnCount(t, bits, d, m);
      r.Ok? && r.value.1 == mr.value.1 && Mirrors(v, Columns(bits), mr.value.0, r.value.0)
  {
    hide Concat, Valid, ColumnBits, CountOf, ColumnCount, Plain;
    var c := v.cols[mm.pos];
    NextInColumn(v, bits, mm, m);
    var mr := MatrixCount(t, v.cols, d, mm).value;
    var pos := m.pos + |ColumnBits(c, v.n)|;
    ColumnCountReadsBack(t, bits, d, m, c);
    var r := ColumnCount(t, bits, d, m).value;
    assert r.1 == mr.1 && r.0.out == mr.0.out;
    assert r.0 == m.(pos := pos, out := mr.0.out);
    Advance(v, Columns(bits), mm, m, mr.0.out, pos);
  }

  lemma ColumnCountReadsBack(t: Tables, bits: seq<bool>, d: Descriptor, m: Machine, c: Column)
    requires m.Ready(|bits|) && !m.exhausted
    requires Valid(c, |m.out|) && c.CountColumn? && Holds(bits, m.pos, ColumnBits(c, |m.out|))
    requires d.Code() in t.b && t.b[d.Code()].width + m.ops.dataWidthChange == c.width
    ensures var count := CountOf(c.raw, c.width, d.Code());
      ColumnCount(t, bits, d, m)
      == Ok((Counted(m.(pos := m.pos + |ColumnBits(c, |m.out|)|), d, t.b[d.Code()], count), count))
  {
    hide Concat, ToNat, ToBits, BodyBits, CountOf;
    CountReadsBack(bits, m.pos, c, |m.out|);
  }

  lemma CountReadsBack(bits: seq<bool>, pos: nat, c: Column, n: nat)
    requires Valid(c, n) && c.CountColumn? && Holds(bits, pos, ColumnBits(c, n))
    ensures pos + c.width + 6 <= |bits|
    ensures Cut(bits, pos, c.width) == c.raw && Cut(bits, pos + c.width, 6) == c.nbinc
    ensures var incs := ReadIncrements(bits, pos + c.width + 6, c.nbinc, n);
      !incs.exhausted && incs.pos == pos + |ColumnBits(c, n)|
  {
    hide Concat, ToNat, ToBits, Pow2, ReadIncrements, Holds;
    ColumnParts(bits, pos, ReferenceBits(c), c.nbinc, BodyBits(c, n));
    HeldNumber(bits, pos, ReferenceBits(c));
    BitsOfNat(c.raw, c.width);
    if c.nbinc == 0 {
      NoIncrements(bits, pos + c.width + 6, n);
    } else {
      IncrementsReadBack(bits, pos + c.width + 6, IncrementFields(c, n), c.nbinc);
    }
  }

  lemma {:induction false} NoIncrements(bits: seq<bool>, pos: nat, n: nat)
    requires pos <= |bits|
    ensures ReadIncrements(bits, pos, 0, n).pos == pos && !ReadIncrements(bits, pos, 0, n).exhausted
  {
    if n > 0 {
      NoIncrements(bits, pos, n - 1);
    }
  }
}
