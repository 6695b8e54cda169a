/**
  The template language itself: sequences, replication, recursion depth and the expansion budget.
  Both interpreters of the decoder run it; they differ in their leaves and in what they charge.
 */
module BufrInterpreter {
  import opened BufrTypes
  import opened BufrMachine
  import opened BufrLeaves
  import opened BufrLayout

  /** Where values come from: row-wise bits, column-compressed bits, or the matrix itself. */
  datatype Source = Rows(bits: seq<bool>) | Columns(bits: seq<bool>) | Matrix(cols: seq<Column>) {
    function Size(): nat {
      if Matrix? then |cols| else |bits|
    }

    /** What one descriptor costs: each of the n subsets, but at least one. */
    function Charge(n: nat): (c: nat)
      ensures c >= 1
    {
      if Columns? && n > 1 then n else 1
    }

    function Leaf(t: Tables, d: Descriptor, m: Machine): (r: Result<Machine>)
      requires m.Ready(Size())
      ensures r.Ok? ==> r.value.Ready(Size()) && |r.value.out| == |m.out|
    {
      match this
      case Rows(bits) => RowLeaf(t, bits, d, m)
      case Columns(bits) => ColumnLeaf(t, bits, d, m)
      case Matrix(cols) => MatrixLeaf(t, cols, d, m)
    }

    function Count(t: Tables, d: Descriptor, m: Machine): (r: Result<(Machine, int)>)
      requires m.Ready(Size())
      ensures r.Ok? ==> r.value.0.Ready(Size()) && |r.value.0.out| == |m.out|
    {
      match this
      case Rows(bits) => RowCount(t, bits, d, m)
      case Columns(bits) => ColumnCount(t, bits, d, m)
      case Matrix(cols) => MatrixCount(t, cols, d, m)
    }
  }

  /** What stays fixed during a run. */
  datatype Program = Program(t: Tables, src: Source, limit: nat) {
    /** The budget that is left, with room for the descriptor that overruns it. */
    function Left(total: nat): nat {
      if total <= limit then limit - total + 1 else 0
    }
  }

  /** A machine and the descriptors charged so far. */
  datatype Progress = Progress(m: Machine, total: nat)

  predicate Leafy(d: Descriptor) {
    d.IsLocal() || d.f == 0 || d.f == 2
  }

  /** The block a replication descriptor repeats: how often, where it starts, and the machine. */
  datatype Replication = Replication(m: Machine, count: int, start: nat)

  function Replicate(p: Program, ds: seq<Descriptor>, i: nat, m: Machine): (r: Result<Replication>)
    requires i < |ds| && m.Ready(p.src.Size())
    ensures r.Ok? ==> r.value.m.Ready(p.src.Size()) && |r.value.m.out| == |m.out|
    ensures r.Ok? ==> i < r.value.start && r.value.start + ds[i].x <= |ds| && ds[i].x > 0
    ensures r.Ok? ==> r.value.count <= MAX_REPLICATION_COUNT
  {
    var d := ds[i];
    if d.x == 0 then Err(InvalidBUFR)
    else if d.y != 0 then
      if d.y > MAX_REPLICATION_COUNT then Err(LimitExceeded)
      else if i + 1 + d.x > |ds| then Err(Truncated)
      else Ok(Replication(m, d.y, i + 1))
    else if i + 1 >= |ds| then Err(Truncated)
    else
      var counted := p.src.Count(p.t, ds[i + 1], m);
      if counted.Err? then Err(counted.error)
      else if counted.value.1 > MAX_REPLICATION_COUNT then Err(LimitExceeded)
      else if i + 2 + d.x > |ds| then Err(Truncated)
      else Ok(Replication(counted.value.0, counted.value.1, i + 2))
  }

  /** The index of the next descriptor, and the progress made on the way there. */
  datatype Spot = Spot(i: nat, g: Progress)

  /** One round of the loop over ds: charge first, then proceed. */
  function Step(p: Program, ds: seq<Descriptor>, i: nat, depth: nat, g: Progress): (r: Result<Spot>)
    requires i < |ds| && depth <= MAX_RECURSION_DEPTH && g.m.Ready(p.src.Size())
    ensures r.Ok? ==> r.value.g.m.Ready(p.src.Size()) && |r.value.g.m.out| == |g.m.out|
    ensures r.Ok? ==> i <= r.value.i <= |ds| && g.total < r.value.g.total && g.total < p.limit
    decreases MAX_RECURSION_DEPTH - depth, p.Left(g.total), 1
  {
    var total := g.total + p.src.Charge(|g.m.out|);
    if total > p.limit then Err(LimitExceeded) else Proceed(p, ds, i, depth, Progress(g.m, total))
  }

  /** Obeys ds[i]. A descriptor with F above 3 does not advance: only the budget ends it. */
  function Proceed(p: Program, ds: seq<Descriptor>, i: nat, depth: nat, g: Progress): (r: Result<Spot>)
    requires i < |ds| && depth <= MAX_RECURSION_DEPTH && g.m.Ready(p.src.Size())
    ensures r.Ok? ==> r.value.g.m.Ready(p.src.Size()) && |r.value.g.m.out| == |g.m.out|
    ensures r.Ok? ==> i <= r.value.i <= |ds| && g.total <= r.value.g.total
    decreases MAX_RECURSION_DEPTH - depth, p.Left(g.total), MAX_REPLICATION_COUNT + 4
  {
    var d := ds[i];
    if Leafy(d) then
      var leaf := p.src.Leaf(p.t, d, g.m);
      if leaf.Err? then Err(leaf.error) else Ok(Spot(i + 1, Progress(leaf.value, g.total)))
    else if d.f == 3 then
      if d.Code() !in p.t.d then Err(UnknownDescriptor(d)) else
      var nested := Call(p, Nested(p.t.d[d.Code()]), depth, g);
      if nested.Err? then Err(nested.error) else Ok(Spot(i + 1, nested.value))
    else if d.f == 1 then
      var rep := Replicate(p, ds, i, g.m);
      if rep.Err? then Err(rep.error) else
      var next := rep.value.start + d.x;
      var done := Repeat(p, ds[rep.value.start..next], rep.value.count, depth, Progress(rep.value.m, g.total));
      if done.Err? then Err(done.error) else Ok(Spot(next, done.value))
    else Ok(Spot(i, g))
  }

  /** Interprets ds from index i on. */
  function Run(p: Program, ds: seq<Descriptor>, i: nat, depth: nat, g: Progress): (r: Result<Progress>)
    requires i <= |ds| && depth <= MAX_RECURSION_DEPTH && g.m.Ready(p.src.Size())
    ensures r.Ok? ==> r.value.m.Ready(p.src.Size()) && |r.value.m.out| == |g.m.out|
    ensures r.Ok? ==> g.total <= r.value.total
    decreases MAX_RECURSION_DEPTH - depth, p.Left(g.total), 2
  {
    if i == |ds| then Ok(g) else
    var step := Step(p, ds, i, depth, g);
    if step.Err? then Err(step.error) else Run(p, ds, step.value.i, depth, step.value.g)
  }

  /** One level deeper, for a whole descriptor list. */
  function Call(p: Program, ds: seq<Descriptor>, depth: nat, g: Progress): (r: Result<Progress>)
    requires depth <= MAX_RECURSION_DEPTH && g.m.Ready(p.src.Size())
    ensures r.Ok? ==> r.value.m.Ready(p.src.Size()) && |r.value.m.out| == |g.m.out|
    ensures r.Ok? ==> g.total <= r.value.total
    decreases MAX_RECURSION_DEPTH - depth, p.Left(g.total), 3
  {
    if depth + 1 > MAX_RECURSION_DEPTH then Err(LimitExceeded)
    else Run(p, ds, 0, depth + 1, g)
  }

  function Repeat(p: Program, block: seq<Descriptor>, count: int, depth: nat, g: Progress): (r: Result<Progress>)
    requires depth <= MAX_RECURSION_DEPTH && g.m.Ready(p.src.Size())
    ensures r.Ok? ==> r.value.m.Ready(p.src.Size()) && |r.value.m.out| == |g.m.out|
    ensures r.Ok? ==> g.total <= r.value.total
    decreases MAX_RECURSION_DEPTH - depth, p.Left(g.total),
              if count > 0 then count + 3 else 0
  {
    if count <= 0 then Ok(g) else
    var once := Call(p, block, depth, g);
    if once.Err? then once else Repeat(p, block, count - 1, depth, once.value)
  }
}
