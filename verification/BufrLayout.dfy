/**
  How a matrix of raw values is laid out: row by row, or column by column under regulation 94.6.3
  of the Manual on Codes (reference value, 6-bit NBINC, increments, all ones for missing). A third
  interpretation of templates takes its values from the matrix itself instead of from bits.
 */
module BufrLayout {
  import opened Options
  import opened Bits
  import opened BitReading
  import opened BufrTypes
  import opened BufrMachine
  import opened BufrLeaves

  /** One field of the expanded template, in all subsets, with the encoder's choice of NBINC. */
  datatype Column =
    | NumberColumn(width: nat, reference: nat, nbinc: nat, cells: seq<Option<nat>>)
    | TextColumn(chars: nat, prefix: seq<byte>, nbinc: nat, texts: seq<seq<byte>>)
    | CountColumn(width: nat, raw: nat, nbinc: nat)

  function Ones(n: nat): nat {
    Pow2(n) - 1
  }

  /** What an encoder may choose: any reference, any NBINC that keeps present increments off all ones. */
  predicate Valid(c: Column, n: nat) {
    c.nbinc < 64 &&
    match c
    case NumberColumn(w, reference, nbinc, cells) =>
      && 1 <= w <= 64 && |cells| == n && reference < Pow2(w)
      && (forall s :: 0 <= s < n ==> ValidCell(c, cells[s]))
    case TextColumn(chars, prefix, nbinc, texts) =>
      && |prefix| == chars && |texts| == n
      && (forall s :: 0 <= s < n ==> |texts[s]| == chars)
      && (if nbinc == 0 then forall s :: 0 <= s < n ==> texts[s] == prefix
          else nbinc == chars && !AllFF(prefix))
    case CountColumn(w, raw, _) => 1 <= w <= 64 && raw < Pow2(w)
  }

  predicate ValidCell(c: Column, cell: Option<nat>)
    requires c.NumberColumn?
  {
    match cell
    case None => c.nbinc > 0 || c.reference == Ones(c.width)
    case Some(v) =>
      && v < Ones(c.width) && c.reference <= v
      && (if c.nbinc == 0 then v == c.reference else v - c.reference < Ones(c.nbinc))
  }

  function Cell(c: Column, s: nat): Option<nat>
    requires c.NumberColumn?
  {
    if s < |c.cells| then c.cells[s] else None
  }

  function CellText(c: Column, s: nat): seq<byte>
    requires c.TextColumn?
  {
    if s < |c.texts| then c.texts[s] else []
  }

  // ----- Row by row -----

  function CellBits(c: Column, s: nat): seq<bool> {
    match c
    case NumberColumn(w, _, _, _) => ToBits(if Cell(c, s).None? then Ones(w) else Cell(c, s).value, w)
    case TextColumn(_, _, _, _) => Unpack(CellText(c, s))
    case CountColumn(w, raw, _) => ToBits(raw, w)
  }

  function RowFields(cols: seq<Column>, s: nat): (fields: seq<seq<bool>>)
    ensures |fields| == |cols|
  {
    seq(|cols|, k requires 0 <= k < |cols| => CellBits(cols[k], s))
  }

  /** All fields of subset s. */
  function RowBits(cols: seq<Column>, s: nat): seq<bool> {
    Concat(RowFields(cols, s))
  }

  function SubsetFields(cols: seq<Column>, n: nat): (fields: seq<seq<bool>>)
    ensures |fields| == n
  {
    seq(n, s requires 0 <= s < n => RowBits(cols, s))
  }

  /** The n subsets, one after the other. */
  function RowsBits(cols: seq<Column>, n: nat): seq<bool> {
    Concat(SubsetFields(cols, n))
  }

  // ----- Column by column -----

  function IncrementOf(c: Column, s: nat): seq<bool> {
    match c
    case NumberColumn(_, reference, nbinc, _) =>
      var cell := Cell(c, s);
      ToBits(if cell.None? || cell.value < reference then Ones(nbinc) else cell.value - reference, nbinc)
    case TextColumn(_, _, _, _) => Unpack(CellText(c, s))
    case CountColumn(_, _, nbinc) => ToBits(0, nbinc)
  }

  /** The increments of n subsets; a count is the same everywhere. */
  function IncrementFields(c: Column, n: nat): (fields: seq<seq<bool>>)
    ensures |fields| == n
  {
    seq(n, s requires 0 <= s < n => IncrementOf(c, s))
  }

  function ReferenceBits(c: Column): seq<bool> {
    match c
    case NumberColumn(w, reference, _, _) => ToBits(reference, w)
    case TextColumn(_, prefix, _, _) => Unpack(prefix)
    case CountColumn(w, raw, _) => ToBits(raw, w)
  }

  function BodyBits(c: Column, n: nat): seq<bool> {
    if c.nbinc == 0 then [] else Concat(IncrementFields(c, n))
  }

  function ColumnBits(c: Column, n: nat): seq<bool> {
    ReferenceBits(c) + (ToBits(c.nbinc, 6) + BodyBits(c, n))
  }

  function ColumnFields(cols: seq<Column>, n: nat): (fields: seq<seq<bool>>)
    ensures |fields| == |cols|
  {
    seq(|cols|, k requires 0 <= k < |cols| => ColumnBits(cols[k], n))
  }

  /** All columns, each for n subsets. */
  function ColumnsBits(cols: seq<Column>, n: nat): seq<bool> {
    Concat(ColumnFields(cols, n))
  }

  // ----- The matrix read directly: pos counts the columns used so far -----

  /** Operators that both interpreters treat alike. */
  predicate Transposable(x: nat, y: nat) {
    && (x == 3 ==> y == 0 || y == 255)
    && (x == 4 ==> y == 0)
    && x != 6
    && (x == 37 ==> y == 0)
  }

  predicate NextIs(cols: seq<Column>, m: Machine, width: int) {
    m.pos < |cols| && Valid(cols[m.pos], |m.out|) &&
    match cols[m.pos]
    case NumberColumn(w, _, _, _) => w == width
    case TextColumn(chars, _, _, _) => 8 * chars == width
    case CountColumn(w, _, _) => w == width
  }

  function TextData(c: Column, n: nat): (data: seq<Datum>)
    requires c.TextColumn?
    ensures |data| == n
  {
    seq(n, s requires 0 <= s < n => TextDatum(CellText(c, s)))
  }

  function NumberData(c: Column, n: nat, f: Format): (data: seq<Datum>)
    requires c.NumberColumn?
    ensures |data| == n
  {
    seq(n, s requires 0 <= s < n => CellDatum(Cell(c, s), f))
  }

  function CellDatum(cell: Option<nat>, f: Format): Datum {
    match cell
    case None => Missing
    case Some(v) => Number(v + f.reference, f.scale)
  }

  function MatrixOperator(cols: seq<Column>, d: Descriptor, m: Machine): (r: Result<Machine>)
    requires m.Ready(|cols|)
    ensures r.Ok? ==> r.value.Ready(|cols|) && |r.value.out| == |m.out|
  {
    if !Transposable(d.x, d.y) then Err(InvalidBUFR)
    else if d.x != 5 then Ok(m.(ops := Operate(m.ops, d.x, d.y)))
    else if !NextIs(cols, m, 8 * d.y) || !cols[m.pos].TextColumn? then Err(InvalidBUFR)
    else Ok(m.(pos := m.pos + 1,
               out := Append(m.out, SignifiedAll(d, TextData(cols[m.pos], |m.out|)))))
  }

  function MatrixElement(t: Tables, cols: seq<Column>, d: Descriptor, m: Machine): (r: Result<Machine>)
    requires m.Ready(|cols|)
    ensures r.Ok? ==> r.value.Ready(|cols|) && |r.value.out| == |m.out|
  {
    if d.Code() !in t.b then Err(UnknownDescriptor(d)) else
    var e := t.b[d.Code()];
    if e.unit == CHARACTER_UNIT then
      if !NextIs(cols, m, TextWidth(e, m.ops)) || !cols[m.pos].TextColumn? then Err(InvalidBUFR)
      else Ok(m.(pos := m.pos + 1,
                 out := Append(m.out, SaidAll(d, e, TextData(cols[m.pos], |m.out|)))))
    else
      var f := NumberFormat(e, d.Code(), m.ops);
      if !NextIs(cols, m, f.width) || !cols[m.pos].NumberColumn? then Err(InvalidBUFR)
      else Ok(m.(pos := m.pos + 1,
                 out := Append(m.out, SaidAll(d, e, NumberData(cols[m.pos], |m.out|, f)))))
  }

  function MatrixLeaf(t: Tables, cols: seq<Column>, d: Descriptor, m: Machine): (r: Result<Machine>)
    requires m.Ready(|cols|)
    ensures r.Ok? ==> r.value.Ready(|cols|) && |r.value.out| == |m.out|
  {
    if d.IsLocal() then Err(LocalDescriptor(d))
    else if d.f == 2 then MatrixOperator(cols, d, m)
    else MatrixElement(t, cols, d, m)
  }

  function MatrixCount(t: Tables, cols: seq<Column>, d: Descriptor, m: Machine): (r: Result<(Machine, int)>)
    requires m.Ready(|cols|)
    ensures r.Ok? ==> r.value.0.Ready(|cols|) && |r.value.0.out| == |m.out|
  {
    if d.Code() !in t.b then Err(UnknownDescriptor(d)) else
    var e := t.b[d.Code()];
    var w := e.width + m.ops.dataWidthChange;
    if !NextIs(cols, m, w) || !cols[m.pos].CountColumn? then Err(InvalidBUFR) else
    var count := CountOf(cols[m.pos].raw, w, d.Code());
    Ok((Counted(m.(pos := m.pos + 1), d, e, count), count))
  }
}
