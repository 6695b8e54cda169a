/**
  From leaves to whole templates: the row decoder on the row layout of a matrix and the column
  decoder on its column layout give the same subsets, and run out of budget for the same matrices.
 */
module BufrEquivalence {
  import opened Bits
  import opened BufrTypes
  import opened BufrMachine
  import opened BufrLeaves
  import opened BufrLayout
  import opened BufrInterpreter
  import opened BufrTransposition

  /** c charged k times. */
  function Cost(c: nat, k: nat): nat {
    if k == 0 then 0 else Cost(c, k - 1) + c
  }

  lemma {:induction false} CostAdd(c: nat, a: nat, b: nat)
    ensures Cost(c, a + b) == Cost(c, a) + Cost(c, b)
  {
    if b > 0 {
      CostAdd(c, a, b - 1);
    }
  }

  /** q interprets the matrix in view, p interprets bits laid out from it. */
  predicate Paired(v: View, q: Program, p: Program) {
    v.Fits(p.src) && q.src == Matrix(v.cols) && q.t == p.t
  }

  function Unit(v: View, p: Program): nat {
    if p.src.Rows? then 1 else v.n
  }

  predicate Twins(v: View, p: Program, gm: Progress, g: Progress)
    requires v.Fits(p.src)
  {
    && Mirrors(v, p.src, gm.m, g.m) && g.total <= p.limit
    && g.m.Ready(p.src.Size()) && p.src.Charge(|g.m.out|) == Unit(v, p)
  }

  /** What k charges of c do to a budget of which spent is gone. */
  predicate Budgeted(limit: nat, c: nat, k: nat, spent: nat, r: Result<Progress>) {
    var due := spent + Cost(c, k);
    if due <= limit then r.Ok? && r.value.total == due else r == Err(LimitExceeded)
  }

  lemma BudgetedThrough(limit: nat, c: nat, j: nat, k: nat, spent: nat, r: Result<Progress>, s: Result<Progress>)
    requires Budgeted(limit, c, j, spent, r)
    requires if r.Ok? then Budgeted(limit, c, k, r.value.total, s) else s == r
    ensures Budgeted(limit, c, j + k, spent, s)
  {
    CostAdd(c, j, k);
  }

  /** From twins gm and g: if the matrix run gets to rm, the run from bits gets to rm's twin or overdraws. */
  predicate Tracks(v: View, p: Program, gm: Progress, g: Progress, rm: Progress, r: Result<Progress>)
    requires v.Fits(p.src)
  {
    && gm.total <= rm.total
    && Budgeted(p.limit, Unit(v, p), rm.total - gm.total, g.total, r)
    && (r.Ok? ==> Twins(v, p, rm, r.value))
  }

  lemma TracksThrough(v: View, p: Program, gm: Progress, g: Progress, rm: Progress, r: Result<Progress>,
                      sm: Progress, s: Result<Progress>)
    requires v.Fits(p.src) && Tracks(v, p, gm, g, rm, r)
    requires rm.total <= sm.total
    requires if r.Ok? then Tracks(v, p, rm, r.value, sm, s) else s == r
    ensures Tracks(v, p, gm, g, sm, s)
  {
    hide Mirrors, View.Fits;
    BudgetedThrough(p.limit, Unit(v, p), rm.total - gm.total, sm.total - rm.total, g.total, r, s);
  }

  function At(r: Result<Spot>): Result<Progress> {
    if r.Err? then Err(r.error) else Ok(r.value.g)
  }

  lemma ReplicateTwins(v: View, q: Program, p: Program, ds: seq<Descriptor>, i: nat, mm: Machine, m: Machine)
    requires Paired(v, q, p) && Mirrors(v, p.src, mm, m) && i < |ds|
    requires mm.Ready(q.src.Size()) && Replicate(q, ds, i, mm).Ok?
    ensures var rm, r := Replicate(q, ds, i, mm).value, Replicate(p, ds, i, m);
      r.Ok? && r.value.count == rm.count && r.value.start == rm.start && Mirrors(v, p.src, rm.m, r.value.m)
  {
    if ds[i].y == 0 {
      if p.src.Rows? {
        RowCountMirrors(v, p.t, p.src.bits, ds[i + 1], mm, m);
      } else {
        ColumnCountMirrors(v, p.t, p.src.bits, ds[i + 1], mm, m);
      }
    }
  }

  lemma {:induction false} StepTracks(v: View, q: Program, p: Program, ds: seq<Descriptor>, i: nat, depth: nat,
                                      gm: Progress, g: Progress)
    requires Paired(v, q, p) && Twins(v, p, gm, g) && gm.m.Ready(q.src.Size())
    requires i < |ds| && depth <= MAX_RECURSION_DEPTH && Step(q, ds, i, depth, gm).Ok?
    ensures var sm, s := Step(q, ds, i, depth, gm).value, Step(p, ds, i, depth, g);
      Tracks(v, p, gm, g, sm.g, At(s)) && (s.Ok? ==> s.value.i == sm.i)
    decreases MAX_RECURSION_DEPTH - depth, q.Left(gm.total), 1
  {
    hide Proceed, Mirrors, View.Fits;
    var hm, h := Progress(gm.m, gm.total + 1), Progress(g.m, g.total + p.src.Charge(|g.m.out|));
    var sm, s := Step(q, ds, i, depth, gm).value, Step(p, ds, i, depth, g);
    FirstCharge(v, p, gm, g);
    if h.total <= p.limit {
      ProceedTracks(v, q, p, ds, i, depth, hm, h);
    }
    TracksThrough(v, p, gm, g, hm, if h.total <= p.limit then Ok(h) else Err(LimitExceeded), sm.g, At(s));
  }

  lemma {:induction false} ProceedTracks(v: View, q: Program, p: Program, ds: seq<Descriptor>, i: nat, depth: nat,
                                         gm: Progress, g: Progress)
    requires Paired(v, q, p) && Twins(v, p, gm, g) && gm.m.Ready(q.src.Size())
    requires i < |ds| && depth <= MAX_RECURSION_DEPTH && Proceed(q, ds, i, depth, gm).Ok?
    ensures var sm, s := Proceed(q, ds, i, depth, gm).value, Proceed(p, ds, i, depth, g);
      Tracks(v, p, gm, g, sm.g, At(s)) && (s.Ok? ==> s.value.i == sm.i)
    decreases MAX_RECURSION_DEPTH - depth, q.Left(gm.total), MAX_REPLICATION_COUNT + 4
  {
    hide Mirrors, View.Fits, Replicate, MatrixLeaf, RowLeaf, ColumnLeaf;
    var d := ds[i];
    if Leafy(d) {
      LeafMirrors(v, p.t, p.src, d, gm.m, g.m);
    } else if d.f == 3 {
      CallTracks(v, q, p, Nested(p.t.d[d.Code()]), depth, gm, g);
    } else if d.f == 1 {
      ReplicateTwins(v, q, p, ds, i, gm.m, g.m);
      var rm, r := Replicate(q, ds, i, gm.m).value, Replicate(p, ds, i, g.m).value;
      var block := ds[rm.start..rm.start + d.x];
      RepeatTracks(v, q, p, block, rm.count, depth, Progress(rm.m, gm.total), Progress(r.m, g.total));
    }
  }

  lemma FirstCharge(v: View, p: Program, gm: Progress, g: Progress)
    requires v.Fits(p.src) && Twins(v, p, gm, g)
    ensures var total := g.total + p.src.Charge(|g.m.out|);
      Tracks(v, p, gm, g, Progress(gm.m, gm.total + 1),
             if total <= p.limit then Ok(Progress(g.m, total)) else Err(LimitExceeded))
  {
    assert Cost(Unit(v, p), 1) == Unit(v, p);
  }

  lemma {:induction false} RunTracks(v: View, q: Program, p: Program, ds: seq<Descriptor>, i: nat, depth: nat,
                                     gm: Progress, g: Progress)
    requires Paired(v, q, p) && Twins(v, p, gm, g) && gm.m.Ready(q.src.Size())
    requires i <= |ds| && depth <= MAX_RECURSION_DEPTH && Run(q, ds, i, depth, gm).Ok?
    ensures Tracks(v, p, gm, g, Run(q, ds, i, depth, gm).value, Run(p, ds, i, depth, g))
    decreases MAX_RECURSION_DEPTH - depth, q.Left(gm.total), 2
  {
    hide Mirrors, View.Fits, Step;
    if i < |ds| {
      StepTracks(v, q, p, ds, i, depth, gm, g);
      var sm, s := Step(q, ds, i, depth, gm).value, Step(p, ds, i, depth, g);
      if s.Ok? {
        RunTracks(v, q, p, ds, sm.i, depth, sm.g, s.value.g);
      }
      TracksThrough(v, p, gm, g, sm.g, At(s), Run(q, ds, i, depth, gm).value, Run(p, ds, i, depth, g));
    }
  }

  lemma {:induction false} CallTracks(v: View, q: Program, p: Program, ds: seq<Descriptor>, depth: nat,
                                      gm: Progress, g: Progress)
    requires Paired(v, q, p) && Twins(v, p, gm, g) && gm.m.Ready(q.src.Size())
    requires depth <= MAX_RECURSION_DEPTH && Call(q, ds, depth, gm).Ok?
    ensures Tracks(v, p, gm, g, Call(q, ds, depth, gm).value, Call(p, ds, depth, g))
    decreases MAX_RECURSION_DEPTH - depth, q.Left(gm.total), 3
  {
    hide Mirrors, View.Fits;
    RunTracks(v, q, p, ds, 0, depth + 1, gm, g);
  }

  lemma {:induction false} RepeatTracks(v: View, q: Program, p: Program, block: seq<Descriptor>, count: int,
                                        depth: nat, gm: Progress, g: Progress)
    requires Paired(v, q, p) && Twins(v, p, gm, g) && gm.m.Ready(q.src.Size())
    requires depth <= MAX_RECURSION_DEPTH && Repeat(q, block, count, depth, gm).Ok?
    ensures Tracks(v, p, gm, g, Repeat(q, block, count, depth, gm).value, Repeat(p, block, count, depth, g))
    decreases MAX_RECURSION_DEPTH - depth, q.Left(gm.total), if count > 0 then count + 3 else 0
  {
    hide Mirrors, View.Fits, Call;
    if count > 0 {
      CallTracks(v, q, p, block, depth, gm, g);
      var om, o := Call(q, block, depth, gm).value, Call(p, block, depth, g);
      if o.Ok? {
        RepeatTracks(v, q, p, block, count - 1, depth, om, o.value);
      }
      TracksThrough(v, p, gm, g, om, o, Repeat(q, block, count, depth, gm).value, Repeat(p, block, count, depth, g));
    }
  }
  // ----- The two decoders -----

  const Start := Machine(Neutral, 0, false, [])

  /** The subsets decoded so far, the cursor, the descriptors charged, and the last skipped width. */
  datatype Subsets = Subsets(values: seq<seq<Value>>, pos: nat, total: nat, localWidth: nat)

  /** Where a subset of row-wise data starts: operators afresh, but the width of operator 206 stays. */
  function Fresh(pos: nat, localWidth: nat): Machine {
    Machine(Neutral.(localWidth := localWidth), pos, false, [[]])
  }

  /** The first k subsets of row-wise data. The budget is one for all of them. */
  function DecodeRows(t: Tables, ds: seq<Descriptor>, k: nat, bits: seq<bool>): (r: Result<Subsets>)
    ensures r.Ok? ==> r.value.pos <= |bits| && |r.value.values| == k
  {
    if k == 0 then Ok(Subsets([], 0, 0, 0)) else
    var prev := DecodeRows(t, ds, k - 1, bits);
    if prev.Err? then prev else
    var p := Program(t, Rows(bits), MAX_EXPANDED_DESCRIPTORS);
    var r := Call(p, ds, 0, Progress(Fresh(prev.value.pos, prev.value.localWidth), prev.value.total));
    if r.Err? then Err(r.error)
    else Ok(Subsets(prev.value.values + r.value.m.out, r.value.m.pos, r.value.total, r.value.m.ops.localWidth))
  }

  function Empty(n: nat): (out: seq<seq<Value>>)
    ensures |out| == n
  {
    seq(n, s => [])
  }

  /** All n subsets of column-compressed data at once. */
  function DecodeColumns(t: Tables, ds: seq<Descriptor>, n: nat, bits: seq<bool>): (r: Result<Progress>) {
    Call(Program(t, Columns(bits), MAX_EXPANDED_DESCRIPTORS), ds, 0, Progress(Start.(out := Empty(n)), 0))
  }

  /** The template interpreted over the matrix, with any budget. */
  function Expand(t: Tables, ds: seq<Descriptor>, n: nat, cols: seq<Column>, limit: nat): (r: Result<Progress>)
    ensures r.Ok? ==> |r.value.m.out| == n && r.value.m.pos <= |cols|
  {
    Call(Program(t, Matrix(cols), limit), ds, 0, Progress(Start.(out := Empty(n)), 0))
  }

  /** The matrix is one value for each field of the expanded template in each of n subsets. */
  predicate Template(t: Tables, ds: seq<Descriptor>, n: nat, cols: seq<Column>, limit: nat) {
    var r := Expand(t, ds, n, cols, limit);
    n >= 1 && AllValid(cols, n) && r.Ok? && r.value.m.pos == |cols|
  }

  lemma {:induction false} CostIsProduct(c: nat, k: nat)
    ensures Cost(c, k) == c * k
  {
    if k > 0 {
      CostIsProduct(c, k - 1);
      assert c * k == c * (k - 1) + c;
    }
  }

  /** One subset of the row layout, from wherever the previous one ended. */
  lemma RowDecoded(t: Tables, ds: seq<Descriptor>, n: nat, cols: seq<Column>, limit: nat, s: nat,
                   bits: seq<bool>, pos: nat, total: nat)
    requires Template(t, ds, n, cols, limit) && s < n && total <= MAX_EXPANDED_DESCRIPTORS
    requires Holds(bits, pos, RowBits(cols, s))
    ensures var rm := Expand(t, ds, n, cols, limit).value;
      var r := Call(Program(t, Rows(bits), MAX_EXPANDED_DESCRIPTORS), ds, 0,
                    Progress(Fresh(pos, 0), total));
      if total + rm.total <= MAX_EXPANDED_DESCRIPTORS then
        && r.Ok? && r.value.total == total + rm.total
        && r.value.m.out == [rm.m.out[s]] && r.value.m.pos == pos + |RowBits(cols, s)|
        && r.value.m.ops.localWidth == 0
      else r == Err(LimitExceeded)
  {
    var v := View(cols, n, s, pos);
    var q, p := Program(t, Matrix(cols), limit), Program(t, Rows(bits), MAX_EXPANDED_DESCRIPTORS);
    var gm := Progress(Start.(out := Empty(n)), 0);
    CallTracks(v, q, p, ds, 0, gm, Progress(Fresh(pos, 0), total));
    var rm := Expand(t, ds, n, cols, limit).value;
    CostIsProduct(1, rm.total);
    assert RowFields(cols, s)[..rm.m.pos] == RowFields(cols, s);
  }

  lemma {:induction false} RowsDecoded(t: Tables, ds: seq<Descriptor>, n: nat, cols: seq<Column>, limit: nat,
                                       k: nat, bits: seq<bool>)
    requires Template(t, ds, n, cols, limit) && k <= n
    requires Holds(bits, 0, RowsBits(cols, n))
    ensures var rm, r := Expand(t, ds, n, cols, limit).value, DecodeRows(t, ds, k, bits);
      var due := Cost(rm.total, k);
      if due <= MAX_EXPANDED_DESCRIPTORS
      then r == Ok(Subsets(rm.m.out[..k], |Concat(SubsetFields(cols, n)[..k])|, due, 0))
      else r == Err(LimitExceeded)
  {
    hide RowBits, AllValid, Expand, Call, Holds;
    if k > 0 {
      var rm := Expand(t, ds, n, cols, limit).value;
      RowsDecoded(t, ds, n, cols, limit, k - 1, bits);
      var prev := DecodeRows(t, ds, k - 1, bits);
      if prev.Ok? {
        NextField(bits, 0, SubsetFields(cols, n), k - 1);
        RowDecoded(t, ds, n, cols, limit, k - 1, bits, prev.value.pos, prev.value.total);
        assert rm.m.out[..k] == rm.m.out[..k - 1] + [rm.m.out[k - 1]];
      }
    }
  }

  lemma ColumnsDecoded(t: Tables, ds: seq<Descriptor>, n: nat, cols: seq<Column>, limit: nat, bits: seq<bool>)
    requires Template(t, ds, n, cols, limit)
    requires Holds(bits, 0, ColumnsBits(cols, n))
    ensures var rm, r := Expand(t, ds, n, cols, limit).value, DecodeColumns(t, ds, n, bits);
      if Cost(n, rm.total) <= MAX_EXPANDED_DESCRIPTORS then r.Ok? && r.value.m.out == rm.m.out
      else r == Err(LimitExceeded)
  {
    var v := View(cols, n, 0, 0);
    var q, p := Program(t, Matrix(cols), limit), Program(t, Columns(bits), MAX_EXPANDED_DESCRIPTORS);
    var g := Progress(Start.(out := Empty(n)), 0);
    CallTracks(v, q, p, ds, 0, g, g);
  }

  /**
    Main result. However a matrix of values is laid out, decoding the row layout and decoding the
    column layout give the same subsets, namely those of the matrix; and both are refused exactly
    when n times the expanded template is over the budget.
   */
  lemma CompressedMeansTheSame(t: Tables, ds: seq<Descriptor>, n: nat, cols: seq<Column>, limit: nat,
                               rowData: seq<bool>, columnData: seq<bool>)
    requires Template(t, ds, n, cols, limit)
    requires Holds(rowData, 0, RowsBits(cols, n)) && Holds(columnData, 0, ColumnsBits(cols, n))
    ensures var rows, columns := DecodeRows(t, ds, n, rowData), DecodeColumns(t, ds, n, columnData);
      var expanded := Expand(t, ds, n, cols, limit).value;
      if n * expanded.total <= MAX_EXPANDED_DESCRIPTORS then
        rows.Ok? && columns.Ok? && rows.value.values == columns.value.m.out == expanded.m.out
      else
        rows == Err(LimitExceeded) && columns == Err(LimitExceeded)
  {
    var expanded := Expand(t, ds, n, cols, limit).value;
    RowsDecoded(t, ds, n, cols, limit, n, rowData);
    ColumnsDecoded(t, ds, n, cols, limit, columnData);
    CostIsProduct(n, expanded.total);
    CostIsProduct(expanded.total, n);
    assert expanded.m.out[..n] == expanded.m.out;
  }
}
