/**
  Truncation is graceful. Without delayed replication, a subset whose payload is cut short decodes
  whenever it does from the whole payload, to the same descriptors: the values agree up to the first
  descriptor that needs a bit past the cut, and are missing from there on.
 */
module BufrTruncation {
  import opened Options
  import opened Bits
  import opened BitReading
  import opened BufrTypes
  import opened BufrMachine
  import opened BufrLeaves
  import opened BufrInterpreter
  import opened BufrBounds
  import opened BufrEquivalence

  /** No delayed replication in ds, nor in the Table D sequences it reaches within some levels. */
  predicate Immediate(t: Tables, ds: seq<Descriptor>, levels: nat) {
    forall k :: 0 <= k < |ds| ==> ImmediateAt(t, ds[k], levels)
  }

  predicate ImmediateAt(t: Tables, d: Descriptor, levels: nat)
    decreases levels
  {
    && (d.f == 1 ==> d.y != 0)
    && (d.f == 3 && d.Code() in t.d && levels > 0 ==>
          forall k :: 0 <= k < |t.d[d.Code()]| ==> ImmediateAt(t, NewDescriptor(t.d[d.Code()][k]), levels - 1))
  }

  lemma {:induction false} FewerLevels(t: Tables, d: Descriptor, levels: nat)
    requires ImmediateAt(t, d, levels + 1)
    ensures ImmediateAt(t, d, levels)
    decreases levels
  {
    if d.f == 3 && d.Code() in t.d && levels > 0 {
      forall k | 0 <= k < |t.d[d.Code()]|
        ensures ImmediateAt(t, NewDescriptor(t.d[d.Code()][k]), levels - 1)
      {
        FewerLevels(t, NewDescriptor(t.d[d.Code()][k]), levels - 1);
      }
    }
  }

  lemma ImmediateBlock(t: Tables, ds: seq<Descriptor>, a: nat, b: nat, levels: nat)
    requires a <= b <= |ds| && Immediate(t, ds, levels + 1)
    ensures Immediate(t, ds[a..b], levels)
  {
    forall k | a <= k < b
      ensures ImmediateAt(t, ds[k], levels)
    {
      FewerLevels(t, ds[k], levels);
    }
  }

  /** b agrees with a up to value j and is missing from there on. */
  predicate Fades(a: seq<Value>, b: seq<Value>, j: nat) {
    && SameLabels(a, b) && j <= |a| && a[..j] == b[..j]
    && forall i :: j <= i < |b| ==> b[i].datum == Missing
  }

  /** b differs from a at most in references never read and presence bits that read as absent. */
  predicate Alike(a: Operators, b: Operators) {
    && b == a.(newRefValues := b.newRefValues, bitmapBits := b.bitmapBits)
    && Sparser(b.bitmapBits, a.bitmapBits)
  }

  predicate Sparser(b: seq<bool>, a: seq<bool>) {
    |b| == |a| && forall i :: 0 <= i < |a| ==> b[i] ==> a[i]
  }

  /** Where the run over the cut payload stands when the run over the whole payload stands at m. */
  predicate Shadows(m: Machine, m': Machine, j: nat) {
    && |m.out| == |m'.out| == 1 && Fades(m.out[0], m'.out[0], j) && Alike(m.ops, m'.ops)
    && (m'.exhausted || (m' == m && j == |m.out[0]|))
  }

  /** Either the cut is passed and the value missing, or both runs found the same. */
  predicate SameOrMissing(m: Machine, datum: Datum, m': Machine, datum': Datum) {
    if m'.exhausted then datum' == Missing else m' == m && datum' == datum
  }

  // ----- Where the cut shows -----

  /**
    The bit position up to which one descriptor needs the payload, from a machine that has not run out.
    A new reference of one bit needs its bit although it is not read, and a text needs its whole width
    although only whole octets are read.
   */
  function Needs(t: Tables, d: Descriptor, m: Machine): nat
    requires m.ops.bitmapRemaining <= |m.ops.bitmapBits|
  {
    if d.IsLocal() then m.pos + m.ops.localWidth
    else if d.f == 2 then m.pos + (if d.x == 5 then 8 * d.y else if d.x == 37 then d.y else 0)
    else if d.Code() !in t.b then m.pos
    else ElementNeeds(t.b[d.Code()], d.Code(), m)
  }

  function ElementNeeds(e: Entry, code: nat, m: Machine): nat
    requires m.ops.bitmapRemaining <= |m.ops.bitmapBits|
  {
    if m.ops.newRefWidth > 0 then m.pos + m.ops.newRefWidth
    else if m.ops.bitmapRemaining > 0 && !m.ops.bitmapBits[|m.ops.bitmapBits| - m.ops.bitmapRemaining] then m.pos
    else FieldNeeds(e, code, m.pos + if code == 31021 then 0 else m.ops.assocFieldWidth, m.ops)
  }

  function FieldNeeds(e: Entry, code: nat, pos: nat, ops: Operators): nat {
    var w := if e.unit == CHARACTER_UNIT then TextWidth(e, ops) else NumberFormat(e, code, ops).width;
    if w <= 0 then pos else pos + w
  }

  /** How many values the run over the whole payload has emitted when the first descriptor needs a bit past end. */
  function LeafMark(t: Tables, d: Descriptor, m: Machine, end: nat): Option<nat>
    requires m.ops.bitmapRemaining <= |m.ops.bitmapBits| && |m.out| == 1
  {
    Cutting(Needs(t, d, m), m, end)
  }

  function Cutting(needs: nat, m: Machine, end: nat): Option<nat>
    requires |m.out| == 1
  {
    if needs > end then Some(|m.out[0]|) else None
  }

  /** The same for one round of the loop, None if nothing in it needs a bit past end. */
  function ProceedMark(p: Program, ds: seq<Descriptor>, i: nat, depth: nat, g: Progress, end: nat): Option<nat>
    requires i < |ds| && depth <= MAX_RECURSION_DEPTH && g.m.Ready(p.src.Size()) && |g.m.out| == 1
    decreases MAX_RECURSION_DEPTH - depth, p.Left(g.total), MAX_REPLICATION_COUNT + 4
  {
    var d := ds[i];
    if Leafy(d) then LeafMark(p.t, d, g.m, end)
    else if d.f == 3 && d.Code() in p.t.d then CallMark(p, Nested(p.t.d[d.Code()]), depth, g, end)
    else if d.f == 1 then
      var rep := Replicate(p, ds, i, g.m);
      if rep.Err? then None else
      var block := ds[rep.value.start..rep.value.start + d.x];
      RepeatMark(p, block, rep.value.count, depth, Progress(rep.value.m, g.total), end)
    else None
  }

  function RunMark(p: Program, ds: seq<Descriptor>, i: nat, depth: nat, g: Progress, end: nat): Option<nat>
    requires i <= |ds| && depth <= MAX_RECURSION_DEPTH && g.m.Ready(p.src.Size()) && |g.m.out| == 1
    decreases MAX_RECURSION_DEPTH - depth, p.Left(g.total), 2
  {
    if i == |ds| || g.total + p.src.Charge(1) > p.limit then None else
    var here := ProceedMark(p, ds, i, depth, Progress(g.m, g.total + p.src.Charge(1)), end);
    if here.Some? then here else
    var step := Step(p, ds, i, depth, g);
    if step.Err? then None else RunMark(p, ds, step.value.i, depth, step.value.g, end)
  }

  function CallMark(p: Program, ds: seq<Descriptor>, depth: nat, g: Progress, end: nat): Option<nat>
    requires depth <= MAX_RECURSION_DEPTH && g.m.Ready(p.src.Size()) && |g.m.out| == 1
    decreases MAX_RECURSION_DEPTH - depth, p.Left(g.total), 3
  {
    if depth + 1 > MAX_RECURSION_DEPTH then None else RunMark(p, ds, 0, depth + 1, g, end)
  }

  function RepeatMark(p: Program, block: seq<Descriptor>, count: int, depth: nat, g: Progress, end: nat): Option<nat>
    requires depth <= MAX_RECURSION_DEPTH && g.m.Ready(p.src.Size()) && |g.m.out| == 1
    decreases MAX_RECURSION_DEPTH - depth, p.Left(g.total), if count > 0 then count + 3 else 0
  {
    if count <= 0 then None else
    var here := CallMark(p, block, depth, g, end);
    if here.Some? then here else
    var once := Call(p, block, depth, g);
    if once.Err? then None else RepeatMark(p, block, count - 1, depth, once.value, end)
  }

  /** The cut run keeps what it had if it is past the cut; otherwise the mark says whether and where it falls behind. */
  predicate Marked(before: Machine, j: nat, mark: Option<nat>, after: Machine, full: Machine, k: nat)
    requires |full.out| == 1
  {
    if before.exhausted then after.exhausted && k == j
    else if mark.Some? then after.exhausted && k == mark.value
    else !after.exhausted && k == |full.out[0]|
  }

  // ----- One descriptor -----

  lemma SameCut(full: seq<bool>, cut: seq<bool>, pos: nat, n: nat)
    requires cut <= full && pos + n <= |cut|
    ensures cut[pos..pos + n] == full[pos..pos + n]
  {
  }

  lemma SameOctets(full: seq<bool>, cut: seq<bool>, pos: nat, n: nat)
    requires cut <= full && pos + 8 * n <= |cut|
    ensures Octets(cut, pos, n) == Octets(full, pos, n)
  {
    forall k | 0 <= k < n
      ensures Cut(cut, pos + 8 * k, 8) == Cut(full, pos + 8 * k, 8)
    {
      SameCut(full, cut, pos + 8 * k, 8);
    }
  }

  lemma TextShadows(full: seq<bool>, cut: seq<bool>, m: Machine, m': Machine, j: nat, width: nat)
    requires cut <= full && Shadows(m, m', j) && m.Ready(|full|) && m'.Ready(|cut|)
    ensures var r, r' := RowText(full, m, width), RowText(cut, m', width);
      SameOrMissing(r.0, r.1, r'.0, r'.1) && r.0.ops == m.ops && r'.0.ops == m'.ops
  {
    hide TextDatum, Octets;
    if !m'.Short(cut, width) {
      SameOctets(full, cut, m.pos, width / 8);
    }
  }

  lemma NumberShadows(full: seq<bool>, cut: seq<bool>, m: Machine, m': Machine, j: nat, f: Format, f': Format)
    requires cut <= full && Shadows(m, m', j) && m.Ready(|full|) && m'.Ready(|cut|)
    requires 0 < f.width <= 64 && f'.width == f.width && (m' == m ==> f' == f)
    ensures var r, r' := RowNumber(full, m, f), RowNumber(cut, m', f');
      SameOrMissing(r.0, r.1, r'.0, r'.1) && r.0.ops == m.ops && r'.0.ops == m'.ops
  {
    hide NumberDatum, ToNat;
    if !m'.Short(cut, f.width) {
      SameCut(full, cut, m.pos, f.width);
    }
  }

  /** One more value on both sides. */
  lemma SaidShadows(m: Machine, m': Machine, j: nat, n: Machine, n': Machine, v: Value, v': Value) returns (k: nat)
    requires Shadows(m, m', j) && SameLabel(v, v') && SameOrMissing(n, v.datum, n', v'.datum)
    requires n.out == m.out && n'.out == m'.out && Alike(n.ops, n'.ops) && (m'.exhausted ==> n'.exhausted)
    ensures Shadows(n.(out := AppendAll(n.out, v)), n'.(out := AppendAll(n'.out, v')), k)
    ensures k == if n'.exhausted then j else |m.out[0]| + 1
    ensures |AppendAll(n.out, v)[0]| == |m.out[0]| + 1
  {
    var a, b := m.out[0] + [v], m'.out[0] + [v'];
    assert AppendAll(n.out, v) == [a] && AppendAll(n'.out, v') == [b];
    assert SameLabels(m.out[0], m'.out[0]);
    assert SameLabels(a, b);
    k := if n'.exhausted then j else j + 1;
    assert a[..j] == m.out[0][..j] && b[..j] == m'.out[0][..j];
  }

  lemma FieldShadows(full: seq<bool>, cut: seq<bool>, d: Descriptor, e: Entry, m: Machine, m': Machine, j: nat)
    returns (k: nat)
    requires cut <= full && Shadows(m, m', j) && m.Ready(|full|) && m'.Ready(|cut|)
    requires RowField(full, d, e, m).Ok?
    ensures RowField(cut, d, e, m').Ok?
    ensures Shadows(RowField(full, d, e, m).value, RowField(cut, d, e, m').value, k)
    ensures Marked(m', j, Cutting(FieldNeeds(e, d.Code(), m.pos, m.ops), m, |cut|),
                   RowField(cut, d, e, m').value, RowField(full, d, e, m).value, k)
  {
    hide RowText, RowNumber, Fades, AppendAll;
    if e.unit == CHARACTER_UNIT {
      var w := TextWidth(e, m.ops);
      TextShadows(full, cut, m, m', j, w);
      var r, r' := RowText(full, m, w), RowText(cut, m', w);
      Exhausted(cut, m', w, NumberFormat(e, d.Code(), m'.ops));
      k := SaidShadows(m, m', j, r.0, r'.0, Said(d, e, r.1), Said(d, e, r'.1));
    } else {
      var f, f' := NumberFormat(e, d.Code(), m.ops), NumberFormat(e, d.Code(), m'.ops);
      NumberShadows(full, cut, m, m', j, f, f');
      var r, r' := RowNumber(full, m, f), RowNumber(cut, m', f');
      Exhausted(cut, m', 0, f');
      k := SaidShadows(m, m', j, r.0, r'.0, Said(d, e, r.1), Said(d, e, r'.1));
    }
  }

  lemma Exhausted(bits: seq<bool>, m: Machine, w: nat, f: Format)
    requires m.Ready(|bits|)
    ensures RowText(bits, m, w).0.exhausted <==> m.exhausted || m.pos + w > |bits|
    ensures 0 < f.width <= 64 ==> (RowNumber(bits, m, f).0.exhausted <==> m.exhausted || m.pos + f.width > |bits|)
  {
  }

  lemma {:induction false} FlagsShadow(full: seq<bool>, cut: seq<bool>, pos: nat, y: nat)
    requires cut <= full && pos <= |cut|
    ensures var r, r' := ReadFlags(full, pos, false, y), ReadFlags(cut, pos, false, y);
      Sparser(r'.present, r.present) && (r'.exhausted || r' == r)
  {
    if y > 0 {
      FlagsShadow(full, cut, pos, y - 1);
    }
  }

  lemma {:induction false} FlagsRunOut(bits: seq<bool>, pos: nat, y: nat)
    requires pos <= |bits|
    ensures var r := ReadFlags(bits, pos, false, y);
      (r.exhausted <==> pos + y > |bits|) && (!r.exhausted ==> r.pos == pos + y)
      && (r.exhausted ==> r.pos == |bits|)
  {
    if y > 0 {
      FlagsRunOut(bits, pos, y - 1);
    }
  }

  lemma {:induction false} NoFlags(bits: seq<bool>, pos: nat, y: nat, a: seq<bool>)
    requires pos <= |bits| && |a| == y
    ensures Sparser(ReadFlags(bits, pos, true, y).present, a)
  {
    if y > 0 {
      NoFlags(bits, pos, y - 1, a[..y - 1]);
    }
  }

  lemma OperatorShadows(t: Tables, full: seq<bool>, cut: seq<bool>, d: Descriptor, m: Machine, m': Machine, j: nat)
    returns (k: nat)
    requires cut <= full && Shadows(m, m', j) && m.Ready(|full|) && m'.Ready(|cut|)
    ensures Shadows(RowOperator(full, d, m), RowOperator(cut, d, m'), k)
    ensures d.f == 2 ==>
      Marked(m', j, LeafMark(t, d, m, |cut|), RowOperator(cut, d, m'), RowOperator(full, d, m), k)
  {
    hide RowText, Fades, AppendAll, ReadFlags, Sparser;
    k := j;
    if d.x == 5 {
      TextShadows(full, cut, m, m', j, 8 * d.y);
      var r, r' := RowText(full, m, 8 * d.y), RowText(cut, m', 8 * d.y);
      Exhausted(cut, m', 8 * d.y, Format(0, 0, 0));
      k := SaidShadows(m, m', j, r.0, r'.0, Signified(d, r.1), Signified(d, r'.1));
    } else if d.x == 37 {
      NoFlags(cut, m'.pos, 0, []);
      if m'.exhausted {
        NoFlags(cut, m'.pos, d.y, ReadFlags(full, m.pos, m.exhausted, d.y).present);
      } else {
        FlagsShadow(full, cut, m.pos, d.y);
        FlagsRunOut(cut, m.pos, d.y);
      }
    }
  }

  lemma ElementShadows(t: Tables, full: seq<bool>, cut: seq<bool>, d: Descriptor, m: Machine, m': Machine, j: nat)
    returns (k: nat)
    requires cut <= full && Shadows(m, m', j) && m.Ready(|full|) && m'.Ready(|cut|)
    requires RowElement(t, full, d, m).Ok?
    ensures d.Code() in t.b && RowElement(t, cut, d, m').Ok?
    ensures Shadows(RowElement(t, full, d, m).value, RowElement(t, cut, d, m').value, k)
    ensures Marked(m', j, Cutting(ElementNeeds(t.b[d.Code()], d.Code(), m), m, |cut|),
                   RowElement(t, cut, d, m').value, RowElement(t, full, d, m).value, k)
  {
    hide RowField, Fades, AppendAll;
    var e := t.b[d.Code()];
    if m.ops.newRefWidth > 0 {
      k := j;
      ReferenceShadows(full, cut, d.Code(), m, m', j);
    } else if m.ops.bitmapRemaining > 0 {
      var a := m.(ops := m.ops.(bitmapRemaining := m.ops.bitmapRemaining - 1));
      var a' := m'.(ops := m'.ops.(bitmapRemaining := m'.ops.bitmapRemaining - 1));
      var at := |m.ops.bitmapBits| - m.ops.bitmapRemaining;
      var present, present' := m.ops.bitmapBits[at], m'.ops.bitmapBits[at];
      if present && present' {
        k := AssociatedShadows(full, cut, d, e, a, a', j);
      } else if present {
        k := AbsentShadows(full, d, e, a, a', j);
      } else {
        k := SaidShadows(a, a', j, a, a', Said(d, e, Missing), Said(d, e, Missing));
      }
    } else {
      k := AssociatedShadows(full, cut, d, e, m, m', j);
    }
  }

  /** The cut payload marks an element absent that the whole payload has. */
  lemma AbsentShadows(full: seq<bool>, d: Descriptor, e: Entry, m: Machine, m': Machine, j: nat) returns (k: nat)
    requires Shadows(m, m', j) && m.Ready(|full|) && m'.exhausted
    requires RowField(full, d, e, RowAssociated(full, d.Code(), m)).Ok?
    ensures k == j
    ensures Shadows(RowField(full, d, e, RowAssociated(full, d.Code(), m)).value,
                    m'.(out := AppendAll(m'.out, Said(d, e, Missing))), k)
  {
    hide Fades, Alike, AppendAll;
    var n := RowAssociated(full, d.Code(), m);
    var f := NumberFormat(e, d.Code(), n.ops);
    var r := if e.unit == CHARACTER_UNIT then RowText(full, n, TextWidth(e, n.ops)) else RowNumber(full, n, f);
    k := SaidShadows(m, m', j, r.0, m', Said(d, e, r.1), Said(d, e, Missing));
  }

  lemma ReferenceShadows(full: seq<bool>, cut: seq<bool>, code: nat, m: Machine, m': Machine, j: nat)
    requires cut <= full && Shadows(m, m', j) && m.Ready(|full|) && m'.Ready(|cut|)
    requires NewReference(full, code, m).Ok?
    ensures NewReference(cut, code, m').Ok?
    ensures Shadows(NewReference(full, code, m).value, NewReference(cut, code, m').value, j)
    ensures NewReference(full, code, m).value.out == m.out
    ensures !m'.exhausted ==>
      (NewReference(cut, code, m').value.exhausted <==> m.pos + m.ops.newRefWidth > |cut|)
    ensures m'.exhausted ==> NewReference(cut, code, m').value.exhausted
  {
    hide Signed, Fades;
    if !m'.Short(cut, m.ops.newRefWidth) {
      SameCut(full, cut, m.pos, m.ops.newRefWidth);
    }
  }

  lemma AssociatedShadows(full: seq<bool>, cut: seq<bool>, d: Descriptor, e: Entry, m: Machine, m': Machine, j: nat)
    returns (k: nat)
    requires cut <= full && Shadows(m, m', j) && m.Ready(|full|) && m'.Ready(|cut|)
    requires RowField(full, d, e, RowAssociated(full, d.Code(), m)).Ok?
    ensures RowField(cut, d, e, RowAssociated(cut, d.Code(), m')).Ok?
    ensures Shadows(RowField(full, d, e, RowAssociated(full, d.Code(), m)).value,
                    RowField(cut, d, e, RowAssociated(cut, d.Code(), m')).value, k)
    ensures var pos := m.pos + if d.Code() == 31021 then 0 else m.ops.assocFieldWidth;
      Marked(m', j, Cutting(FieldNeeds(e, d.Code(), pos, m.ops), m, |cut|),
             RowField(cut, d, e, RowAssociated(cut, d.Code(), m')).value,
             RowField(full, d, e, RowAssociated(full, d.Code(), m)).value, k)
  {
    hide RowField, Fades;
    k := FieldShadows(full, cut, d, e, RowAssociated(full, d.Code(), m), RowAssociated(cut, d.Code(), m'), j);
  }

  lemma LeafShadows(t: Tables, full: seq<bool>, cut: seq<bool>, d: Descriptor, m: Machine, m': Machine, j: nat)
    returns (k: nat)
    requires cut <= full && Shadows(m, m', j) && m.Ready(|full|) && m'.Ready(|cut|)
    requires RowLeaf(t, full, d, m).Ok?
    ensures RowLeaf(t, cut, d, m').Ok?
    ensures Shadows(RowLeaf(t, full, d, m).value, RowLeaf(t, cut, d, m').value, k)
    ensures Leafy(d) ==>
      Marked(m', j, LeafMark(t, d, m, |cut|), RowLeaf(t, cut, d, m').value, RowLeaf(t, full, d, m).value, k)
  {
    hide RowElement, RowOperator, Fades, ElementNeeds;
    k := j;
    if !d.IsLocal() {
      if d.f == 2 {
        k := OperatorShadows(t, full, cut, d, m, m', j);
      } else {
        k := ElementShadows(t, full, cut, d, m, m', j);
      }
    }
  }

  // ----- Whole templates -----

  lemma InStep(m: Machine, m': Machine, j: nat)
    requires Shadows(m, m', j)
    ensures |m.out| == |m'.out| == 1 && (m'.exhausted || (m' == m && j == |m.out[0]|))
  {
  }

  /** The same program over the whole payload and over its first part. */
  predicate Shortened(p: Program, p': Program) {
    p.src.Rows? && p'.src.Rows? && p'.src.bits <= p.src.bits && p'.t == p.t && p'.limit == p.limit
  }

  predicate Behind(p: Program, g: Progress, p': Program, g': Progress, j: nat) {
    Shadows(g.m, g'.m, j) && g'.total == g.total && g.m.Ready(p.src.Size()) && g'.m.Ready(p'.src.Size())
  }

  lemma {:induction false} ProceedShadows(p: Program, p': Program, ds: seq<Descriptor>, i: nat, depth: nat,
                                          g: Progress, g': Progress, j: nat) returns (k: nat)
    requires Shortened(p, p') && Behind(p, g, p', g', j) && i < |ds| && depth <= MAX_RECURSION_DEPTH
    requires Immediate(p.t, ds, MAX_RECURSION_DEPTH + 1 - depth) && Proceed(p, ds, i, depth, g).Ok?
    ensures var r, r' := Proceed(p, ds, i, depth, g).value, Proceed(p', ds, i, depth, g');
      r'.Ok? && r'.value.i == r.i && Behind(p, r.g, p', r'.value.g, k)
        && Marked(g'.m, j, ProceedMark(p, ds, i, depth, g, |p'.src.bits|), r'.value.g.m, r.g.m, k)
    decreases MAX_RECURSION_DEPTH - depth, p.Left(g.total), MAX_REPLICATION_COUNT + 4
  {
    hide Shadows, RowLeaf, LeafMark;
    InStep(g.m, g'.m, j);
    var d := ds[i];
    assert ImmediateAt(p.t, d, MAX_RECURSION_DEPTH + 1 - depth);
    k := j;
    if Leafy(d) {
      k := LeafShadows(p.t, p.src.bits, p'.src.bits, d, g.m, g'.m, j);
    } else if d.f == 3 {
      k := CallShadows(p, p', Nested(p.t.d[d.Code()]), depth, g, g', j);
    } else if d.f == 1 {
      ImmediateBlock(p.t, ds, i + 1, i + 1 + d.x, MAX_RECURSION_DEPTH - depth);
      k := RepeatShadows(p, p', ds[i + 1..i + 1 + d.x], d.y, depth, g, g', j);
    }
  }

  lemma {:induction false} RunShadows(p: Program, p': Program, ds: seq<Descriptor>, i: nat, depth: nat,
                                      g: Progress, g': Progress, j: nat) returns (k: nat)
    requires Shortened(p, p') && Behind(p, g, p', g', j) && i <= |ds| && depth <= MAX_RECURSION_DEPTH
    requires Immediate(p.t, ds, MAX_RECURSION_DEPTH + 1 - depth) && Run(p, ds, i, depth, g).Ok?
    ensures var r, r' := Run(p, ds, i, depth, g).value, Run(p', ds, i, depth, g');
      r'.Ok? && Behind(p, r, p', r'.value, k)
        && Marked(g'.m, j, RunMark(p, ds, i, depth, g, |p'.src.bits|), r'.value.m, r.m, k)
    decreases MAX_RECURSION_DEPTH - depth, p.Left(g.total), 2
  {
    hide Shadows, Proceed, Immediate, ProceedMark;
    InStep(g.m, g'.m, j);
    k := j;
    if i < |ds| {
      var h, h' := Progress(g.m, g.total + 1), Progress(g'.m, g'.total + 1);
      assert Step(p, ds, i, depth, g) == Proceed(p, ds, i, depth, h);
      k := ProceedShadows(p, p', ds, i, depth, h, h', k);
      assert Step(p', ds, i, depth, g') == Proceed(p', ds, i, depth, h');
      var s, s' := Step(p, ds, i, depth, g).value, Step(p', ds, i, depth, g').value;
      k := RunShadows(p, p', ds, s.i, depth, s.g, s'.g, k);
    }
  }

  lemma {:induction false} CallShadows(p: Program, p': Program, ds: seq<Descriptor>, depth: nat,
                                       g: Progress, g': Progress, j: nat) returns (k: nat)
    requires Shortened(p, p') && Behind(p, g, p', g', j) && depth <= MAX_RECURSION_DEPTH
    requires Immediate(p.t, ds, MAX_RECURSION_DEPTH - depth) && Call(p, ds, depth, g).Ok?
    ensures var r, r' := Call(p, ds, depth, g).value, Call(p', ds, depth, g');
      r'.Ok? && Behind(p, r, p', r'.value, k)
        && Marked(g'.m, j, CallMark(p, ds, depth, g, |p'.src.bits|), r'.value.m, r.m, k)
    decreases MAX_RECURSION_DEPTH - depth, p.Left(g.total), 3
  {
    hide Shadows, Run;
    k := RunShadows(p, p', ds, 0, depth + 1, g, g', j);
  }

  lemma {:induction false} RepeatShadows(p: Program, p': Program, block: seq<Descriptor>, count: int, depth: nat,
                                         g: Progress, g': Progress, j: nat) returns (k: nat)
    requires Shortened(p, p') && Behind(p, g, p', g', j) && depth <= MAX_RECURSION_DEPTH
    requires Immediate(p.t, block, MAX_RECURSION_DEPTH - depth) && Repeat(p, block, count, depth, g).Ok?
    ensures var r, r' := Repeat(p, block, count, depth, g).value, Repeat(p', block, count, depth, g');
      r'.Ok? && Behind(p, r, p', r'.value, k)
        && Marked(g'.m, j, RepeatMark(p, block, count, depth, g, |p'.src.bits|), r'.value.m, r.m, k)
    decreases MAX_RECURSION_DEPTH - depth, p.Left(g.total), if count > 0 then count + 3 else 0
  {
    hide Shadows, Call, Immediate, CallMark;
    InStep(g.m, g'.m, j);
    k := j;
    if count > 0 {
      k := CallShadows(p, p', block, depth, g, g', k);
      var o, o' := Call(p, block, depth, g).value, Call(p', block, depth, g').value;
      k := RepeatShadows(p, p', block, count - 1, depth, o, o', k);
    }
  }

  /**
    Main result, for one subset that starts at pos: if the whole payload decodes, so does its cut
    prefix, at the same cost and to the same descriptors. The values that were emitted before the first
    descriptor that needs a bit past the cut are the same, and all others are missing; if no descriptor
    needs one, everything is the same.
   */
  lemma TruncationIsGraceful(t: Tables, ds: seq<Descriptor>, full: seq<bool>, cut: seq<bool>,
                             pos: nat, localWidth: nat, total: nat)
    requires cut <= full && pos <= |cut| && Immediate(t, ds, MAX_RECURSION_DEPTH)
    requires Call(Program(t, Rows(full), MAX_EXPANDED_DESCRIPTORS), ds, 0, Progress(Fresh(pos, localWidth), total)).Ok?
    ensures var p, p' := Program(t, Rows(full), MAX_EXPANDED_DESCRIPTORS), Program(t, Rows(cut), MAX_EXPANDED_DESCRIPTORS);
      var g := Progress(Fresh(pos, localWidth), total);
      var r, r', mark := Call(p, ds, 0, g).value, Call(p', ds, 0, g), CallMark(p, ds, 0, g, |cut|);
      && r'.Ok? && r'.value.total == r.total
      && Fades(r.m.out[0], r'.value.m.out[0], if mark.Some? then mark.value else |r.m.out[0]|)
      && (r'.value.m.exhausted <==> mark.Some?)
      && (mark.None? ==> r'.value == r)
  {
    var p, p' := Program(t, Rows(full), MAX_EXPANDED_DESCRIPTORS), Program(t, Rows(cut), MAX_EXPANDED_DESCRIPTORS);
    var g := Progress(Fresh(pos, localWidth), total);
    assert Fades([], [], 0);
    var k := CallShadows(p, p', ds, 0, g, g, 0);
  }
}
