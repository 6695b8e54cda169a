/**
  What every run of the interpreter keeps, whatever the descriptors, tables and payload: the cursor
  never goes back or past the end and freezes once the stream ran out, the values emitted over all
  subsets are paid for by the expansion budget, and compressed subsets stay aligned.
 */
module BufrBounds {
  import opened BitReading
  import opened BufrTypes
  import opened BufrMachine
  import opened BufrLeaves
  import opened BufrInterpreter

  /** How many values all subsets hold together. */
  function Volume(out: seq<seq<Value>>): nat {
    if out == [] then 0 else Volume(out[..|out| - 1]) + |out[|out| - 1]|
  }

  /** The same kind of value: descriptor, name and unit. */
  predicate SameLabel(a: Value, b: Value) {
    a.descriptor == b.descriptor && a.name == b.name && a.unit == b.unit
  }

  predicate SameLabels(a: seq<Value>, b: seq<Value>) {
    |a| == |b| && forall k :: 0 <= k < |a| ==> SameLabel(a[k], b[k])
  }

  /** All subsets have equal length and the same descriptor at each index. */
  predicate Aligned(out: seq<seq<Value>>) {
    forall r, s :: 0 <= r < |out| && 0 <= s < |out| ==> SameLabels(out[r], out[s])
  }

  /** One value more for every subset, with the same label in all of them. */
  predicate Grown(a: seq<seq<Value>>, b: seq<seq<Value>>) {
    && |b| == |a|
    && (forall s :: 0 <= s < |a| ==> |b[s]| == |a[s]| + 1 && b[s][..|a[s]|] == a[s])
    && (forall r, s :: 0 <= r < |a| && 0 <= s < |a| ==> SameLabel(b[r][|a[r]|], b[s][|a[s]|]))
  }

  lemma {:induction false} VolumeGrown(a: seq<seq<Value>>, b: seq<seq<Value>>)
    requires Grown(a, b)
    ensures Volume(b) == Volume(a) + |a|
  {
    if a != [] {
      VolumeGrown(a[..|a| - 1], b[..|b| - 1]);
    }
  }

  lemma AlignedGrown(a: seq<seq<Value>>, b: seq<seq<Value>>)
    requires Grown(a, b) && Aligned(a)
    ensures Aligned(b)
  {
    forall r, s | 0 <= r < |a| && 0 <= s < |a|
      ensures SameLabels(b[r], b[s])
    {
      assert SameLabels(a[r], a[s]);
      assert SameLabel(b[r][|a[r]|], b[s][|a[s]|]);
      assert forall k :: 0 <= k < |a[r]| ==> b[r][k] == a[r][k] && b[s][k] == a[s][k];
    }
  }

  /** What a leaf or a count may do: the cursor advances, but not once the stream ran out. */
  predicate Steps(a: Machine, b: Machine) {
    && a.pos <= b.pos
    && (a.exhausted ==> b.exhausted && b.pos == a.pos)
    && (b.out == a.out || Grown(a.out, b.out))
  }

  lemma RowLeafSteps(t: Tables, bits: seq<bool>, d: Descriptor, m: Machine)
    requires m.Ready(|bits|) && RowLeaf(t, bits, d, m).Ok?
    ensures Steps(m, RowLeaf(t, bits, d, m).value)
  {
    hide RowField, RowOperator;
    if !d.IsLocal() && d.f == 2 {
      RowOperatorSteps(bits, d, m);
    } else if !d.IsLocal() {
      var e := t.b[d.Code()];
      RowFieldSteps(bits, d, e, RowAssociated(bits, d.Code(), m));
      if m.ops.bitmapRemaining > 0 {
        var m' := m.(ops := m.ops.(bitmapRemaining := m.ops.bitmapRemaining - 1));
        RowFieldSteps(bits, d, e, RowAssociated(bits, d.Code(), m'));
      }
    }
  }

  lemma RowOperatorSteps(bits: seq<bool>, d: Descriptor, m: Machine)
    requires m.Ready(|bits|)
    ensures Steps(m, RowOperator(bits, d, m))
  {
    hide TextDatum, Octets, Operate, ReadFlags;
  }

  lemma RowFieldSteps(bits: seq<bool>, d: Descriptor, e: Entry, m: Machine)
    requires m.Ready(|bits|)
    ensures var r := RowField(bits, d, e, m); r.Ok? ==> Steps(m, r.value)
  {
  }

  lemma ColumnLeafSteps(t: Tables, bits: seq<bool>, d: Descriptor, m: Machine)
    requires m.Ready(|bits|) && ColumnLeaf(t, bits, d, m).Ok?
    ensures Steps(m, ColumnLeaf(t, bits, d, m).value)
  {
  }

  lemma CountSteps(t: Tables, bits: seq<bool>, d: Descriptor, m: Machine)
    requires m.Ready(|bits|)
    ensures RowCount(t, bits, d, m).Ok? ==> Steps(m, RowCount(t, bits, d, m).value.0)
    ensures ColumnCount(t, bits, d, m).Ok? ==> Steps(m, ColumnCount(t, bits, d, m).value.0)
  {
  }

  /** Leaf by leaf, a machine is brought from a to b at a price. */
  predicate Evolves(p: Program, a: Progress, b: Progress) {
    && a.m.pos <= b.m.pos
    && (a.m.exhausted ==> b.m.exhausted && b.m.pos == a.m.pos)
    && |b.m.out| == |a.m.out|
    && Volume(b.m.out) - Volume(a.m.out) <= b.total - a.total
    && (a.total <= p.limit ==> b.total <= p.limit)
    && (Aligned(a.m.out) ==> Aligned(b.m.out))
  }

  predicate FromBits(src: Source, n: nat) {
    (src.Rows? && n == 1) || src.Columns?
  }

  /** b is one descriptor further than a, which was charged before. */
  predicate Earns(p: Program, a: Machine, b: Machine) {
    && a.pos <= b.pos
    && (a.exhausted ==> b.exhausted && b.pos == a.pos)
    && |b.out| == |a.out|
    && Volume(b.out) <= Volume(a.out) + p.src.Charge(|a.out|)
    && (Aligned(a.out) ==> Aligned(b.out))
  }

  lemma LeafEarns(p: Program, d: Descriptor, m: Machine)
    requires FromBits(p.src, |m.out|) && m.Ready(p.src.Size())
    ensures var r := p.src.Leaf(p.t, d, m); r.Ok? ==> Earns(p, m, r.value)
    ensures var r := p.src.Count(p.t, d, m); r.Ok? ==> Earns(p, m, r.value.0)
  {
    var leaf, count := p.src.Leaf(p.t, d, m), p.src.Count(p.t, d, m);
    if leaf.Ok? {
      if p.src.Rows? { RowLeafSteps(p.t, p.src.bits, d, m); } else { ColumnLeafSteps(p.t, p.src.bits, d, m); }
      GrowthPaid(p, m, leaf.value);
    }
    if count.Ok? {
      CountSteps(p.t, p.src.bits, d, m);
      GrowthPaid(p, m, count.value.0);
    }
  }

  lemma GrowthPaid(p: Program, a: Machine, b: Machine)
    requires FromBits(p.src, |a.out|) && Steps(a, b)
    ensures Volume(b.out) <= Volume(a.out) + p.src.Charge(|a.out|)
    ensures |b.out| == |a.out| && (Aligned(a.out) ==> Aligned(b.out))
  {
    if b.out != a.out {
      VolumeGrown(a.out, b.out);
      if Aligned(a.out) {
        AlignedGrown(a.out, b.out);
      }
    }
  }

  lemma {:induction false} StepEvolves(p: Program, ds: seq<Descriptor>, i: nat, depth: nat, g: Progress)
    requires i < |ds| && depth <= MAX_RECURSION_DEPTH && g.m.Ready(p.src.Size())
    requires FromBits(p.src, |g.m.out|)
    ensures var r := Step(p, ds, i, depth, g); r.Ok? ==> Evolves(p, g, r.value.g)
    decreases MAX_RECURSION_DEPTH - depth, p.Left(g.total), 1
  {
    hide Volume, Aligned, RowLeaf, ColumnLeaf, RowCount, ColumnCount, Call, Repeat;
    var total := g.total + p.src.Charge(|g.m.out|);
    var d := ds[i];
    if total <= p.limit {
      if Leafy(d) {
        LeafEarns(p, d, g.m);
      } else if d.f == 3 && d.Code() in p.t.d {
        CallEvolves(p, Nested(p.t.d[d.Code()]), depth, Progress(g.m, total));
      } else if d.f == 1 {
        var rep := Replicate(p, ds, i, g.m);
        if rep.Ok? {
          if d.y == 0 {
            LeafEarns(p, ds[i + 1], g.m);
          }
          var block := ds[rep.value.start..rep.value.start + d.x];
          RepeatEvolves(p, block, rep.value.count, depth, Progress(rep.value.m, total));
        }
      }
    }
  }

  lemma {:induction false} RunEvolves(p: Program, ds: seq<Descriptor>, i: nat, depth: nat, g: Progress)
    requires i <= |ds| && depth <= MAX_RECURSION_DEPTH && g.m.Ready(p.src.Size())
    requires FromBits(p.src, |g.m.out|)
    ensures var r := Run(p, ds, i, depth, g); r.Ok? ==> Evolves(p, g, r.value)
    decreases MAX_RECURSION_DEPTH - depth, p.Left(g.total), 2
  {
    if i < |ds| {
      StepEvolves(p, ds, i, depth, g);
      var step := Step(p, ds, i, depth, g);
      if step.Ok? {
        RunEvolves(p, ds, step.value.i, depth, step.value.g);
      }
    }
  }

  lemma {:induction false} CallEvolves(p: Program, ds: seq<Descriptor>, depth: nat, g: Progress)
    requires depth <= MAX_RECURSION_DEPTH && g.m.Ready(p.src.Size())
    requires FromBits(p.src, |g.m.out|)
    ensures var r := Call(p, ds, depth, g); r.Ok? ==> Evolves(p, g, r.value)
    decreases MAX_RECURSION_DEPTH - depth, p.Left(g.total), 3
  {
    if depth + 1 <= MAX_RECURSION_DEPTH {
      RunEvolves(p, ds, 0, depth + 1, g);
    }
  }

  lemma {:induction false} RepeatEvolves(p: Program, block: seq<Descriptor>, count: int, depth: nat, g: Progress)
    requires depth <= MAX_RECURSION_DEPTH && g.m.Ready(p.src.Size())
    requires FromBits(p.src, |g.m.out|)
    ensures var r := Repeat(p, block, count, depth, g); r.Ok? ==> Evolves(p, g, r.value)
    decreases MAX_RECURSION_DEPTH - depth, p.Left(g.total), if count > 0 then count + 3 else 0
  {
    if count > 0 {
      CallEvolves(p, block, depth, g);
      var once := Call(p, block, depth, g);
      if once.Ok? {
        RepeatEvolves(p, block, count - 1, depth, once.value);
      }
    }
  }
}
