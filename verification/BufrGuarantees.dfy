/**
  What the bounds of the interpreter mean for whole messages, and where the two decoders part.
 */
module BufrGuarantees {
  import opened BitReading
  import opened BufrTypes
  import opened BufrMachine
  import opened BufrLeaves
  import opened BufrInterpreter
  import opened BufrBounds
  import opened BufrEquivalence

  /** The values of all subsets together are paid for by one budget, whatever tables and payload. */
  lemma {:induction false} RowsBounded(t: Tables, ds: seq<Descriptor>, n: nat, bits: seq<bool>)
    requires DecodeRows(t, ds, n, bits).Ok?
    ensures var r := DecodeRows(t, ds, n, bits).value;
      Volume(r.values) <= r.total <= MAX_EXPANDED_DESCRIPTORS && r.pos <= |bits|
  {
    hide Call;
    if n > 0 {
      RowsBounded(t, ds, n - 1, bits);
      var prev := DecodeRows(t, ds, n - 1, bits).value;
      var p := Program(t, Rows(bits), MAX_EXPANDED_DESCRIPTORS);
      var g := Progress(Fresh(prev.pos, prev.localWidth), prev.total);
      CallEvolves(p, ds, 0, g);
      var one := Call(p, ds, 0, g).value.m.out;
      assert one == [one[0]] && Volume([[]]) == 0;
      assert Volume(one) == |one[0]| by { assert one[..0] == []; }
      assert (prev.values + one)[..n - 1] == prev.values;
    }
  }

  /** All subsets of compressed data together are within the budget, and they are aligned. */
  lemma ColumnsBounded(t: Tables, ds: seq<Descriptor>, n: nat, bits: seq<bool>)
    requires DecodeColumns(t, ds, n, bits).Ok?
    ensures var r := DecodeColumns(t, ds, n, bits).value;
      Volume(r.m.out) <= r.total <= MAX_EXPANDED_DESCRIPTORS && r.m.pos <= |bits| && Aligned(r.m.out)
  {
    hide Call;
    CallEvolves(Program(t, Columns(bits), MAX_EXPANDED_DESCRIPTORS), ds, 0, Progress(Start.(out := Empty(n)), 0));
    NothingInEmpty(n);
  }

  lemma {:induction false} NothingInEmpty(n: nat)
    ensures Volume(Empty(n)) == 0
  {
    if n > 0 {
      NothingInEmpty(n - 1);
      assert Empty(n)[..n - 1] == Empty(n - 1);
    }
  }

  /** Sequences of Table D that begin with one another, round and round. */
  predicate HeadCycle(t: Tables, codes: set<nat>) {
    forall c :: c in codes ==>
      var d := NewDescriptor(c);
      d.f == 3 && !d.IsLocal() && d.Code() == c && c in t.d && t.d[c] != [] && t.d[c][0] in codes
  }

  /** Such a cycle at the head of a template is refused for any payload: the depth or the budget ends it. */
  lemma {:induction false} CyclesAreRefused(p: Program, codes: set<nat>, ds: seq<Descriptor>, depth: nat, g: Progress)
    requires HeadCycle(p.t, codes) && ds != [] && ds[0].Code() in codes && ds[0] == NewDescriptor(ds[0].Code())
    requires depth <= MAX_RECURSION_DEPTH && g.m.Ready(p.src.Size())
    ensures Call(p, ds, depth, g) == Err(LimitExceeded)
    decreases MAX_RECURSION_DEPTH - depth
  {
    if depth < MAX_RECURSION_DEPTH {
      var d, h := ds[0], Progress(g.m, g.total + p.src.Charge(|g.m.out|));
      CyclesAreRefused(p, codes, Nested(p.t.d[d.Code()]), depth + 1, h);
      assert Proceed(p, ds, 0, depth + 1, h) == Err(LimitExceeded);
      assert Step(p, ds, 0, depth + 1, g) == Err(LimitExceeded);
    }
  }

  /**
    Some sequence in codes stands in ds from index i on where every complete run gets to: behind any
    leaves, sequences and replications, and in blocks that are repeated a fixed number of times.
   */
  predicate Enters(ds: seq<Descriptor>, i: nat, codes: set<nat>)
    requires i <= |ds|
    decreases |ds|, |ds| - i
  {
    if i == |ds| then false else
    var d := ds[i];
    if Leafy(d) then Enters(ds, i + 1, codes)
    else if d.f == 3 then d.Code() in codes || Enters(ds, i + 1, codes)
    else if d.f != 1 then false
    else if d.y > 0 then
      i + 1 + d.x <= |ds| && (Enters(ds[i + 1..i + 1 + d.x], 0, codes) || Enters(ds, i + 1 + d.x, codes))
    else i + 2 + d.x <= |ds| && Enters(ds, i + 2 + d.x, codes)
  }

  /** Sequences of Table D each of which enters one of them again. */
  predicate Cycle(t: Tables, codes: set<nat>) {
    forall c :: c in codes && c in t.d ==> Enters(Nested(t.d[c]), 0, codes)
  }

  /** A round of the loop that succeeds: what it called with success, and where it leads. */
  lemma StepLeads(p: Program, ds: seq<Descriptor>, i: nat, depth: nat, g: Progress)
    requires i < |ds| && depth <= MAX_RECURSION_DEPTH && g.m.Ready(p.src.Size())
    requires Step(p, ds, i, depth, g).Ok?
    ensures var d, h, to := ds[i], Progress(g.m, g.total + p.src.Charge(|g.m.out|)), Step(p, ds, i, depth, g).value.i;
      if Leafy(d) then to == i + 1
      else if d.f == 3 then d.Code() in p.t.d && Call(p, Nested(p.t.d[d.Code()]), depth, h).Ok? && to == i + 1
      else if d.f != 1 then to == i
      else if d.y > 0 then
        to == i + 1 + d.x <= |ds| && Call(p, ds[i + 1..to], depth, h).Ok?
      else to == i + 2 + d.x
  {
    hide Source.Leaf, Source.Count, Call, Leafy, Nested;
    var d, h := ds[i], Progress(g.m, g.total + p.src.Charge(|g.m.out|));
    assert Step(p, ds, i, depth, g) == Proceed(p, ds, i, depth, h);
    if !Leafy(d) && d.f == 1 && d.y > 0 {
      assert Replicate(p, ds, i, g.m) == Ok(Replication(g.m, d.y, i + 1));
      assert Repeat(p, ds[i + 1..i + 1 + d.x], d.y, depth, h).Ok?;
    }
  }

  lemma {:induction false} RunCannotEnd(p: Program, codes: set<nat>, ds: seq<Descriptor>, i: nat, depth: nat,
                                         g: Progress)
    requires Cycle(p.t, codes) && i <= |ds| && Enters(ds, i, codes)
    requires depth <= MAX_RECURSION_DEPTH && g.m.Ready(p.src.Size())
    ensures Run(p, ds, i, depth, g).Err?
    decreases MAX_RECURSION_DEPTH - depth, p.Left(g.total), 2
  {
    hide Step, Call, Cycle, Leafy, Nested;
    var d, h := ds[i], Progress(g.m, g.total + p.src.Charge(|g.m.out|));
    var step := Step(p, ds, i, depth, g);
    if step.Ok? {
      StepLeads(p, ds, i, depth, g);
      if d.f == 3 && !Leafy(d) && d.Code() in codes {
        NestedEnters(p.t, codes, d.Code());
        CallCannotEnd(p, codes, Nested(p.t.d[d.Code()]), depth, h);
        assert false;
      } else if !Leafy(d) && d.f == 1 && d.y > 0 && Enters(ds[i + 1..i + 1 + d.x], 0, codes) {
        CallCannotEnd(p, codes, ds[i + 1..i + 1 + d.x], depth, h);
        assert false;
      } else {
        RunCannotEnd(p, codes, ds, step.value.i, depth, step.value.g);
      }
    }
  }

  lemma NestedEnters(t: Tables, codes: set<nat>, c: nat)
    requires Cycle(t, codes) && c in codes && c in t.d
    ensures Enters(Nested(t.d[c]), 0, codes)
  {
  }

  lemma {:induction false} CallCannotEnd(p: Program, codes: set<nat>, ds: seq<Descriptor>, depth: nat, g: Progress)
    requires Cycle(p.t, codes) && Enters(ds, 0, codes)
    requires depth <= MAX_RECURSION_DEPTH && g.m.Ready(p.src.Size())
    ensures Call(p, ds, depth, g).Err?
    decreases MAX_RECURSION_DEPTH - depth, p.Left(g.total), 3
  {
    hide Cycle, Enters;
    if depth < MAX_RECURSION_DEPTH {
      RunCannotEnd(p, codes, ds, 0, depth + 1, g);
    }
  }

  /** A template that enters a cycle of Table D at any place decodes from no payload, by neither decoder. */
  lemma CyclesNeverDecode(t: Tables, codes: set<nat>, ds: seq<Descriptor>, n: nat, bits: seq<bool>)
    requires Cycle(t, codes) && Enters(ds, 0, codes)
    ensures n > 0 ==> DecodeRows(t, ds, n, bits).Err?
    ensures DecodeColumns(t, ds, n, bits).Err?
  {
    hide Call, Cycle, Enters;
    var start := Progress(Start.(out := Empty(n)), 0);
    CallCannotEnd(Program(t, Columns(bits), MAX_EXPANDED_DESCRIPTORS), codes, ds, 0, start);
    if n > 0 {
      var prev := DecodeRows(t, ds, n - 1, bits);
      if prev.Ok? {
        var g := Progress(Fresh(prev.value.pos, prev.value.localWidth), prev.value.total);
        CallCannotEnd(Program(t, Rows(bits), MAX_EXPANDED_DESCRIPTORS), codes, ds, 0, g);
      }
    }
  }

  /** The increments of a count of w bits at m, one for each subset, are all there. */
  predicate IncrementsThere(bits: seq<bool>, m: Machine, w: nat)
    requires m.pos + w + 6 <= |bits|
  {
    !ReadIncrements(bits, m.pos + w + 6, Cut(bits, m.pos + w, 6), |m.out|).exhausted
  }

  /**
    Which delayed factors the two decoders take, for every width operator 201 may leave them: the row
    decoder those of 1 to 64 bits; the column decoder any that is cut off before its six bits of NBINC
    end, however wide, and otherwise those of 0 to 64 bits whose increments are there.
   */
  lemma FactorWidths(t: Tables, bits: seq<bool>, d: Descriptor, m: Machine)
    requires m.Ready(|bits|) && d.Code() in t.b
    ensures var w := t.b[d.Code()].width + m.ops.dataWidthChange;
      var row, column := RowCount(t, bits, d, m), ColumnCount(t, bits, d, m);
      && (row.Ok? <==> 0 < w <= 64)
      && (column.Ok? <==> m.Short(bits, w + 6) || (0 <= w <= 64 && IncrementsThere(bits, m, w)))
      && (!row.Ok? && column.Ok? <==>
           (w <= 0 || w > 64) && (m.Short(bits, w + 6) || (w == 0 && IncrementsThere(bits, m, 0))))
      && (row.Ok? && !column.Ok? <==>
           0 < w <= 64 && !m.Short(bits, w + 6) && !IncrementsThere(bits, m, w))
  {
  }

  function FactorTables(width: nat): Tables {
    Tables(map[31001 := Entry("Factor", "Numeric", 0, 0, width)], map[])
  }

  /** Operator 201 with operand y, and a delayed replication under it. */
  function FactorTemplate(y: nat): seq<Descriptor> {
    [Descriptor(2, 1, y), Descriptor(1, 1, 0), Descriptor(0, 31, 1), Descriptor(0, 31, 1)]
  }

  /** What is left of a factor of some width under operator 201 with operand y. */
  function FactorWidth(width: nat, y: nat): int {
    width + Operate(Neutral, 1, y).dataWidthChange
  }

  lemma FactorStep(p: Program, width: nat, y: nat, m: Machine, m1: Machine)
    requires p.t == FactorTables(width) && !p.src.Matrix? && p.limit == MAX_EXPANDED_DESCRIPTORS
    requires m == Fresh(0, 0) && m1 == m.(ops := Operate(Neutral, 1, y)) && p.src.Size() == 0
    ensures Step(p, FactorTemplate(y), 0, 1, Progress(m, 0)) == Ok(Spot(1, Progress(m1, 1)))
  {
  }

  /** The rest of the template on an empty payload stands or falls with the factor. */
  lemma FactorDecides(p: Program, width: nat, y: nat, m1: Machine)
    requires p.t == FactorTables(width) && !p.src.Matrix? && p.limit == MAX_EXPANDED_DESCRIPTORS
    requires m1 == Fresh(0, 0).(ops := Operate(Neutral, 1, y)) && p.src.Size() == 0
    ensures var count := p.src.Count(p.t, Descriptor(0, 31, 1), m1);
      var r := Run(p, FactorTemplate(y), 1, 1, Progress(m1, 1));
      if count.Ok? then count.value.1 == 0 && r.Ok? else r == Err(count.error)
  {
    hide Operate;
    var ds := FactorTemplate(y);
    var count := p.src.Count(p.t, ds[2], m1);
    var rep := Replicate(p, ds, 1, m1);
    if count.Ok? {
      NothingCounted(p, width, m1);
      var m2 := count.value.0;
      assert rep == Ok(Replication(m2, 0, 3));
      assert Repeat(p, ds[3..4], 0, 1, Progress(m2, 2)) == Ok(Progress(m2, 2));
      assert Step(p, ds, 1, 1, Progress(m1, 1)) == Ok(Spot(4, Progress(m2, 2)));
      assert Run(p, ds, 4, 1, Progress(m2, 2)) == Ok(Progress(m2, 2));
    } else {
      assert rep == Err(count.error);
      assert Step(p, ds, 1, 1, Progress(m1, 1)) == Err(count.error);
    }
  }

  lemma NothingCounted(p: Program, width: nat, m: Machine)
    requires p.t == FactorTables(width) && !p.src.Matrix? && m.Ready(p.src.Size()) && p.src.Size() == 0
    ensures var count := p.src.Count(p.t, Descriptor(0, 31, 1), m); count.Ok? ==> count.value.1 == 0
  {
  }

  /**
    The same template on an empty payload, for every width in Table B and every operand: the row
    decoder takes exactly factors left with 1 to 64 bits, the column decoder all with more than -6.
   */
  lemma DecodersPart(width: nat, y: nat)
    ensures var w, t, ds := FactorWidth(width, y), FactorTables(width), FactorTemplate(y);
      && (if 0 < w <= 64 then DecodeRows(t, ds, 1, []).Ok? else DecodeRows(t, ds, 1, []) == Err(InvalidBUFR))
      && (if w > -6 then DecodeColumns(t, ds, 1, []).Ok? else DecodeColumns(t, ds, 1, []) == Err(BadBitCount))
  {
    var bits: seq<bool> := [];
    var t, ds := FactorTables(width), FactorTemplate(y);
    var p, q := Program(t, Rows(bits), MAX_EXPANDED_DESCRIPTORS), Program(t, Columns(bits), MAX_EXPANDED_DESCRIPTORS);
    var m := Fresh(0, 0);
    var m1 := m.(ops := Operate(Neutral, 1, y));
    assert Empty(1) == [[]];
    FactorStep(p, width, y, m, m1);
    FactorStep(q, width, y, m, m1);
    FactorDecides(p, width, y, m1);
    FactorDecides(q, width, y, m1);
    assert DecodeRows(t, ds, 0, bits) == Ok(Subsets([], 0, 0, 0));
    assert Call(p, ds, 0, Progress(m, 0)) == Run(p, ds, 1, 1, Progress(m1, 1));
    assert Call(q, ds, 0, Progress(m, 0)) == Run(q, ds, 1, 1, Progress(m1, 1));
  }
}
