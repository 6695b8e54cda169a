/**
  What one element, operator or delayed count does to the machine, in the row-wise and in the
  column-compressed interpretation of the data section.
 */
module BufrLeaves {
  import opened Options
  import opened Bits
  import opened BitReading
  import opened BufrTypes
  import opened BufrMachine

  // ----- Row-wise data: the values of one subset, one after the other -----

  /** A character field that occupies width bits, of which whole octets are read. */
  function RowText(bits: seq<bool>, m: Machine, width: nat): (r: (Machine, Datum))
    requires m.Ready(|bits|)
    ensures r.0.Ready(|bits|) && m.pos <= r.0.pos && r.0.out == m.out
  {
    if m.Short(bits, width) then (m.(exhausted := true), Missing)
    else (m.(pos := m.pos + 8 * (width / 8)), TextDatum(Octets(bits, m.pos, width / 8)))
  }

  function RowNumber(bits: seq<bool>, m: Machine, f: Format): (r: (Machine, Datum))
    requires m.Ready(|bits|) && 0 < f.width <= 64
    ensures r.0.Ready(|bits|) && m.pos <= r.0.pos && r.0.out == m.out
  {
    if m.Short(bits, f.width) then (m.(exhausted := true), Missing)
    else (m.(pos := m.pos + f.width), NumberDatum(Cut(bits, m.pos, f.width), f))
  }

  /** The presence bits of operator 237: absent from where the stream runs out. */
  datatype Flags = Flags(pos: nat, exhausted: bool, present: seq<bool>)

  function ReadFlags(bits: seq<bool>, pos: nat, exhausted: bool, y: nat): (r: Flags)
    requires pos <= |bits|
    ensures pos <= r.pos <= |bits| && |r.present| == y
    ensures exhausted ==> r.exhausted && r.pos == pos
  {
    if y == 0 then Flags(pos, exhausted, []) else
    var prev := ReadFlags(bits, pos, exhausted, y - 1);
    if !prev.exhausted && prev.pos < |bits|
    then Flags(prev.pos + 1, false, prev.present + [bits[prev.pos]])
    else Flags(prev.pos, true, prev.present + [false])
  }

  function RowBitmap(bits: seq<bool>, m: Machine, y: nat): (r: Machine)
    requires m.Ready(|bits|)
    ensures r.Ready(|bits|) && m.pos <= r.pos && r.out == m.out
  {
    var flags := ReadFlags(bits, m.pos, m.exhausted, y);
    m.(pos := flags.pos, exhausted := flags.exhausted,
       ops := m.ops.(bitmapRemaining := y, bitmapBits := flags.present))
  }

  function RowOperator(bits: seq<bool>, d: Descriptor, m: Machine): (r: Machine)
    requires m.Ready(|bits|)
    ensures r.Ready(|bits|) && m.pos <= r.pos && |r.out| == |m.out|
  {
    if d.x == 5 then
      var (m', datum) := RowText(bits, m, 8 * d.y);
      m'.(out := AppendAll(m.out, Signified(d, datum)))
    else if d.x == 37 then
      if d.y == 0 then m.(ops := m.ops.(bitmapRemaining := 0, bitmapBits := []))
      else RowBitmap(bits, m, d.y)
    else m.(ops := Operate(m.ops, d.x, d.y))
  }

  /** The associated field in front of every element but 031021, if operator 204 is in force. */
  function RowAssociated(bits: seq<bool>, code: nat, m: Machine): (r: Machine)
    requires m.Ready(|bits|)
    ensures r.Ready(|bits|) && m.pos <= r.pos && r.out == m.out && r.ops == m.ops
  {
    var w := m.ops.assocFieldWidth;
    if w == 0 || code == 31021 then m
    else if m.Short(bits, w) then m.(exhausted := true)
    else m.(pos := m.pos + w)
  }

  function RowField(bits: seq<bool>, d: Descriptor, e: Entry, m: Machine): (r: Result<Machine>)
    requires m.Ready(|bits|)
    ensures r.Ok? ==> r.value.Ready(|bits|) && m.pos <= r.value.pos && |r.value.out| == |m.out|
  {
    if e.unit == CHARACTER_UNIT then
      var (m', datum) := RowText(bits, m, TextWidth(e, m.ops));
      Ok(m'.(out := AppendAll(m.out, Said(d, e, datum))))
    else
      var f := NumberFormat(e, d.Code(), m.ops);
      if f.width <= 0 || f.width > 64 then Err(InvalidBUFR) else
      var (m', datum) := RowNumber(bits, m, f);
      Ok(m'.(out := AppendAll(m.out, Said(d, e, datum))))
  }

  function RowElement(t: Tables, bits: seq<bool>, d: Descriptor, m: Machine): (r: Result<Machine>)
    requires m.Ready(|bits|)
    ensures r.Ok? ==> r.value.Ready(|bits|) && m.pos <= r.value.pos && |r.value.out| == |m.out|
  {
    if d.Code() !in t.b then Err(UnknownDescriptor(d)) else
    var e := t.b[d.Code()];
    if m.ops.newRefWidth > 0 then NewReference(bits, d.Code(), m)
    else if m.ops.bitmapRemaining > 0 then
      var present := m.ops.bitmapBits[|m.ops.bitmapBits| - m.ops.bitmapRemaining];
      var m' := m.(ops := m.ops.(bitmapRemaining := m.ops.bitmapRemaining - 1));
      if present then RowField(bits, d, e, RowAssociated(bits, d.Code(), m'))
      else Ok(m'.(out := AppendAll(m.out, Said(d, e, Missing))))
    else RowField(bits, d, e, RowAssociated(bits, d.Code(), m))
  }

  function RowLeaf(t: Tables, bits: seq<bool>, d: Descriptor, m: Machine): (r: Result<Machine>)
    requires m.Ready(|bits|)
    ensures r.Ok? ==> r.value.Ready(|bits|) && m.pos <= r.value.pos && |r.value.out| == |m.out|
  {
    if d.IsLocal() then SkipLocal(bits, d, m)
    else if d.f == 2 then Ok(RowOperator(bits, d, m))
    else RowElement(t, bits, d, m)
  }

  /** The delayed replication factor: how often the block repeats, and its own value. */
  function RowCount(t: Tables, bits: seq<bool>, d: Descriptor, m: Machine): (r: Result<(Machine, int)>)
    requires m.Ready(|bits|)
    ensures r.Ok? ==> r.value.0.Ready(|bits|) && m.pos <= r.value.0.pos && |r.value.0.out| == |m.out|
  {
    if d.Code() !in t.b then Err(UnknownDescriptor(d)) else
    var e := t.b[d.Code()];
    var w := e.width + m.ops.dataWidthChange;
    if w <= 0 || w > 64 then Err(InvalidBUFR)
    else if m.Short(bits, w) then Ok((Counted(m.(exhausted := true), d, e, 0), 0))
    else
      var count := CountOf(Cut(bits, m.pos, w), w, d.Code());
      Ok((Counted(m.(pos := m.pos + w), d, e, count), count))
  }

  function Counted(m: Machine, d: Descriptor, e: Entry, count: int): (r: Machine)
    ensures |r.out| == |m.out|
  {
    m.(out := AppendAll(m.out, Said(d, e, Number(count, 0))))
  }

  // ----- Column-compressed data: one descriptor for all subsets at a time -----

  /** Where the increments of a column lie: None from the subset at which the stream runs out. */
  datatype Increments = Increments(pos: nat, exhausted: bool, at: seq<Option<nat>>)

  function ReadIncrements(bits: seq<bool>, pos: nat, step: nat, n: nat): (r: Increments)
    requires pos <= |bits|
    ensures pos <= r.pos <= |bits| && |r.at| == n
    ensures forall s :: 0 <= s < n && r.at[s].Some? ==> r.at[s].value + step <= |bits|
    ensures !r.exhausted ==> forall s :: 0 <= s < n ==> r.at[s].Some?
  {
    if n == 0 then Increments(pos, false, []) else
    var prev := ReadIncrements(bits, pos, step, n - 1);
    if !prev.exhausted && |bits| - prev.pos >= step
    then Increments(prev.pos + step, false, prev.at + [Some(prev.pos)])
    else Increments(prev.pos, true, prev.at + [None])
  }

  /** The increments found are octets of their own; the rest of the column is missing. */
  function IncrementTexts(bits: seq<bool>, at: seq<Option<nat>>, reference: seq<byte>, nbinc: nat)
    : (data: seq<Datum>)
    requires forall s :: 0 <= s < |at| && at[s].Some? ==> at[s].value + 8 * nbinc <= |bits|
    ensures |data| == |at|
  {
    seq(|at|, s requires 0 <= s < |at| =>
      if at[s].None? || AllFF(reference) then Missing
      else TextDatum(Octets(bits, at[s].value, nbinc)))
  }

  /** The increments found are added to the reference value; the rest of the column is missing. */
  function IncrementNumbers(bits: seq<bool>, at: seq<Option<nat>>, reference: nat, nbinc: nat, f: Format)
    : (data: seq<Datum>)
    requires forall s :: 0 <= s < |at| && at[s].Some? ==> at[s].value + nbinc <= |bits|
    ensures |data| == |at|
  {
    seq(|at|, s requires 0 <= s < |at| =>
      if at[s].None? then Missing
      else Increased(reference, Cut(bits, at[s].value, nbinc), nbinc, f))
  }

  /** What follows a reference text at pos: NBINC zero repeats it, otherwise each subset has a text. */
  function TextBody(bits: seq<bool>, m: Machine, reference: seq<byte>, pos: nat, nbinc: nat): (r: (Machine, seq<Datum>))
    requires m.Ready(|bits|) && m.pos <= pos <= |bits|
    ensures r.0.Ready(|bits|) && m.pos <= r.0.pos && r.0.out == m.out && |r.1| == |m.out|
  {
    if nbinc == 0 then (m.(pos := pos), seq(|m.out|, s => TextDatum(reference))) else
    var incs := ReadIncrements(bits, pos, 8 * nbinc, |m.out|);
    (m.(pos := incs.pos, exhausted := incs.exhausted), IncrementTexts(bits, incs.at, reference, nbinc))
  }

  /** Reference octets, 6-bit NBINC, then NBINC octets for each subset. */
  function ColumnText(bits: seq<bool>, m: Machine, width: nat): (r: (Machine, seq<Datum>))
    requires m.Ready(|bits|)
    ensures r.0.Ready(|bits|) && m.pos <= r.0.pos && r.0.out == m.out && |r.1| == |m.out|
  {
    if m.Short(bits, width + 6) then (m.(exhausted := true), seq(|m.out|, s => Missing)) else
    var start := m.pos + 8 * (width / 8);
    TextBody(bits, m, Octets(bits, m.pos, width / 8), start + 6, Cut(bits, start, 6))
  }

  function NumberBody(bits: seq<bool>, m: Machine, reference: nat, pos: nat, nbinc: nat, f: Format)
    : (r: (Machine, seq<Datum>))
    requires m.Ready(|bits|) && m.pos <= pos <= |bits|
    ensures r.0.Ready(|bits|) && m.pos <= r.0.pos && r.0.out == m.out && |r.1| == |m.out|
  {
    if nbinc == 0 then (m.(pos := pos), seq(|m.out|, s => NumberDatum(reference, f))) else
    var incs := ReadIncrements(bits, pos, nbinc, |m.out|);
    (m.(pos := incs.pos, exhausted := incs.exhausted), IncrementNumbers(bits, incs.at, reference, nbinc, f))
  }

  /** Reference value, 6-bit NBINC, then an NBINC-bit increment for each subset, added modulo 2^64. */
  function ColumnNumber(bits: seq<bool>, m: Machine, f: Format): (r: (Machine, seq<Datum>))
    requires m.Ready(|bits|) && 0 < f.width <= 64
    ensures r.0.Ready(|bits|) && m.pos <= r.0.pos && r.0.out == m.out && |r.1| == |m.out|
  {
    if m.Short(bits, f.width + 6) then (m.(exhausted := true), seq(|m.out|, s => Missing)) else
    var start := m.pos + f.width;
    NumberBody(bits, m, Cut(bits, m.pos, f.width), start + 6, Cut(bits, start, 6), f)
  }

  function Increased(reference: nat, increment: nat, nbinc: nat, f: Format): Datum {
    if IsAllOnes(reference, f.width) || IsAllOnes(increment, nbinc) then Missing
    else Number((reference + increment) % 0x1_0000_0000_0000_0000 + f.reference, f.scale)
  }

  function ColumnOperator(bits: seq<bool>, d: Descriptor, m: Machine): (r: Machine)
    requires m.Ready(|bits|)
    ensures r.Ready(|bits|) && m.pos <= r.pos && |r.out| == |m.out|
  {
    if d.x == 5 then
      var (m', data) := ColumnText(bits, m, 8 * d.y);
      m'.(out := Append(m.out, SignifiedAll(d, data)))
    else m.(ops := Operate(m.ops, d.x, d.y))
  }

  function ColumnElement(t: Tables, bits: seq<bool>, d: Descriptor, m: Machine): (r: Result<Machine>)
    requires m.Ready(|bits|)
    ensures r.Ok? ==> r.value.Ready(|bits|) && m.pos <= r.value.pos && |r.value.out| == |m.out|
  {
    if d.Code() !in t.b then Err(UnknownDescriptor(d)) else
    var e := t.b[d.Code()];
    if m.ops.newRefWidth > 0 then NewReference(bits, d.Code(), m)
    else if e.unit == CHARACTER_UNIT then
      var (m', data) := ColumnText(bits, m, TextWidth(e, m.ops));
      Ok(m'.(out := Append(m.out, SaidAll(d, e, data))))
    else
      var f := NumberFormat(e, d.Code(), m.ops);
      if f.width <= 0 || f.width > 64 then Err(InvalidBUFR) else
      var (m', data) := ColumnNumber(bits, m, f);
      Ok(m'.(out := Append(m.out, SaidAll(d, e, data))))
  }

  function ColumnLeaf(t: Tables, bits: seq<bool>, d: Descriptor, m: Machine): (r: Result<Machine>)
    requires m.Ready(|bits|)
    ensures r.Ok? ==> r.value.Ready(|bits|) && m.pos <= r.value.pos && |r.value.out| == |m.out|
  {
    if d.IsLocal() then SkipLocal(bits, d, m)
    else if d.f == 2 then Ok(ColumnOperator(bits, d, m))
    else ColumnElement(t, bits, d, m)
  }

  /** One count for all subsets. Its width is not checked, and increments are read and dropped. */
  function ColumnCount(t: Tables, bits: seq<bool>, d: Descriptor, m: Machine): (r: Result<(Machine, int)>)
    requires m.Ready(|bits|)
    ensures r.Ok? ==> r.value.0.Ready(|bits|) && m.pos <= r.value.0.pos && |r.value.0.out| == |m.out|
  {
    if d.Code() !in t.b then Err(UnknownDescriptor(d)) else
    var e := t.b[d.Code()];
    var w := e.width + m.ops.dataWidthChange;
    if m.Short(bits, w + 6) then Ok((Counted(m.(exhausted := true), d, e, 0), 0))
    else if w < 0 || w > 64 then Err(BadBitCount)
    else
      var count := CountOf(Cut(bits, m.pos, w), w, d.Code());
      var nbinc := Cut(bits, m.pos + w, 6);
      var incs := ReadIncrements(bits, m.pos + w + 6, nbinc, |m.out|);
      if incs.exhausted then Err(UnexpectedEOF)
      else Ok((Counted(m.(pos := incs.pos), d, e, count), count))
  }
}
