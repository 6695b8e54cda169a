/**
  What a template stands for: the flat list of elements, operators and delayed counts that is left when
  every Table D sequence is replaced by its members and every replicated block by its copies. Both
  decoders give exactly what the flat list gives, one item after the other.
 */
module BufrExpansion {
  import opened Options
  import opened BufrTypes
  import opened BufrMachine
  import opened BufrLeaves
  import opened BufrInterpreter
  import opened BufrEquivalence
  import opened BufrGuarantees
  import opened BufrTruncation

  // ----- Flat lists -----

  datatype Item = Element(descriptor: Descriptor) | Factor(descriptor: Descriptor)

  function ObeyItem(t: Tables, src: Source, item: Item, m: Machine): (r: Result<Machine>)
    requires m.Ready(src.Size())
    ensures r.Ok? ==> r.value.Ready(src.Size()) && |r.value.out| == |m.out|
  {
    match item
    case Element(d) => src.Leaf(t, d, m)
    case Factor(d) =>
      var counted := src.Count(t, d, m);
      if counted.Err? then Err(counted.error) else Ok(counted.value.0)
  }

  predicate Fits(src: Source, m: Result<Machine>) {
    m.Ok? ==> m.value.Ready(src.Size())
  }

  /** The items one after the other, up to the first error. */
  function Obey(t: Tables, src: Source, items: seq<Item>, m: Result<Machine>): (r: Result<Machine>)
    requires Fits(src, m)
    ensures Fits(src, r) && (m.Err? ==> r == m)
    ensures r.Ok? ==> |r.value.out| == |m.value.out|
  {
    if items == [] || m.Err? then m else Obey(t, src, items[1..], ObeyItem(t, src, items[0], m.value))
  }

  lemma {:induction false} ObeyBoth(t: Tables, src: Source, a: seq<Item>, b: seq<Item>, m: Result<Machine>)
    requires Fits(src, m)
    ensures Obey(t, src, a + b, m) == Obey(t, src, b, Obey(t, src, a, m))
  {
    hide ObeyItem;
    if a == [] || m.Err? {
      assert [] + b == b;
    } else {
      assert (a + b)[0] == a[0] && (a + b)[1..] == a[1..] + b;
      ObeyBoth(t, src, a[1..], b, ObeyItem(t, src, a[0], m.value));
    }
  }

  // ----- Spelling out -----

  /** The members of a sequence, each from its six digits. */
  function Members(codes: seq<nat>): seq<Descriptor> {
    if codes == [] then [] else
    [Descriptor(codes[0] / 100000, codes[0] % 100000 / 1000, codes[0] % 1000)] + Members(codes[1..])
  }

  /** The flat list, how many descriptors were met on the way, and why it ends early, if it does. */
  datatype Spelling = Spelling(items: seq<Item>, cost: nat, stop: Option<Error>)

  function Then(a: Spelling, b: Spelling): Spelling {
    Spelling(a.items + b.items, a.cost + b.cost, b.stop)
  }

  function Met(items: seq<Item>, s: Spelling): Spelling {
    Spelling(items + s.items, s.cost + 1, s.stop)
  }

  /** How many descriptors of a list its first one takes with it. */
  function Span(d: Descriptor): nat {
    if d.f != 1 then 1 else if d.y > 0 then 1 + d.x else 2 + d.x
  }

  /** How often the block behind a delayed factor stands, read from m; never once there was an error. */
  function CountAt(t: Tables, src: Source, d: Descriptor, m: Result<Machine>): int
    requires Fits(src, m)
  {
    if m.Err? then 0 else
    var counted := src.Count(t, d, m.value);
    if counted.Err? then 0 else counted.value.1
  }

  function Spell(t: Tables, src: Source, ds: seq<Descriptor>, levels: nat, m: Result<Machine>): Spelling
    requires Fits(src, m)
    decreases levels, 2, |ds|
  {
    if ds == [] then Spelling([], 0, None) else
    var first := SpellFirst(t, src, ds, levels, m);
    if first.stop.Some? || Span(ds[0]) > |ds| then first
    else Then(first, Spell(t, src, ds[Span(ds[0])..], levels, Obey(t, src, first.items, m)))
  }

  function SpellFirst(t: Tables, src: Source, ds: seq<Descriptor>, levels: nat, m: Result<Machine>): Spelling
    requires Fits(src, m) && ds != []
    decreases levels, 1, 0
  {
    var d := ds[0];
    if Leafy(d) then Spelling([Element(d)], 1, None)
    else if d.f == 3 then
      if d.Code() !in t.d then Spelling([], 1, Some(UnknownDescriptor(d)))
      else if levels == 0 then Spelling([], 1, Some(LimitExceeded))
      else Met([], Spell(t, src, Members(t.d[d.Code()]), levels - 1, m))
    else if d.f != 1 then Spelling([], 1, Some(LimitExceeded))
    else if d.x == 0 then Spelling([], 1, Some(InvalidBUFR))
    else if d.y > 0 then
      if d.y > MAX_REPLICATION_COUNT then Spelling([], 1, Some(LimitExceeded))
      else if 1 + d.x > |ds| then Spelling([], 1, Some(Truncated))
      else Met([], Copies(t, src, ds[1..1 + d.x], d.y, levels, m))
    else if |ds| == 1 then Spelling([], 1, Some(Truncated))
    else
      var factor, count := [Factor(ds[1])], CountAt(t, src, ds[1], m);
      if count > MAX_REPLICATION_COUNT then Spelling(factor, 1, Some(LimitExceeded))
      else if 2 + d.x > |ds| then Spelling(factor, 1, Some(Truncated))
      else Met(factor, Copies(t, src, ds[2..2 + d.x], count, levels, Obey(t, src, factor, m)))
  }

  /** The block as often as the count says, one copy behind the other. */
  function Copies(t: Tables, src: Source, block: seq<Descriptor>, count: int, levels: nat, m: Result<Machine>): Spelling
    requires Fits(src, m)
    decreases levels, 0, if count > 0 then count else 0
  {
    if count <= 0 then Spelling([], 0, None)
    else if levels == 0 then Spelling([], 0, Some(LimitExceeded))
    else
      var one := Spell(t, src, block, levels - 1, m);
      if one.stop.Some? then one
      else Then(one, Copies(t, src, block, count - 1, levels, Obey(t, src, one.items, m)))
  }

  // ----- The decoders give what the flat list gives -----

  lemma {:induction false} MembersAreNested(codes: seq<nat>)
    ensures Members(codes) == Nested(codes)
  {
    if codes != [] {
      MembersAreNested(codes[1..]);
      assert Nested(codes) == [NewDescriptor(codes[0])] + Nested(codes[1..]);
    }
  }

  function Due(p: Program, g: Progress, s: Spelling): nat {
    g.total + Cost(p.src.Charge(|g.m.out|), s.cost)
  }

  /** The result r from g is what the spelling says: the machine, the first error, or the budget overdrawn. */
  predicate Follows(p: Program, g: Progress, s: Spelling, r: Result<Progress>)
    requires g.m.Ready(p.src.Size())
  {
    var o := Obey(p.t, p.src, s.items, Ok(g.m));
    if Due(p, g, s) > p.limit then r.Err?
    else if o.Err? then r == Err(o.error)
    else if s.stop.Some? then r == Err(s.stop.value)
    else r == Ok(Progress(o.value, Due(p, g, s)))
  }

  /** One after the other. */
  lemma {:induction false} FollowsBoth(p: Program, g: Progress, a: Spelling, ra: Result<Progress>, b: Spelling, r: Result<Progress>)
    requires g.m.Ready(p.src.Size()) && a.stop.None? && Follows(p, g, a, ra)
    requires ra.Ok? ==> ra.value.m.Ready(p.src.Size()) && Follows(p, ra.value, b, r)
    requires ra.Err? ==> r == ra
    ensures Follows(p, g, Then(a, b), r)
  {
    hide Cost, Obey, Source.Charge;
    ObeyBoth(p.t, p.src, a.items, b.items, Ok(g.m));
    CostAdd(p.src.Charge(|g.m.out|), a.cost, b.cost);
  }

  /** One descriptor is charged, and perhaps a count read, before the rest. */
  lemma {:induction false} FollowsMet(p: Program, g: Progress, items: seq<Item>, m: Machine, s: Spelling, r: Result<Progress>)
    requires g.m.Ready(p.src.Size()) && m.Ready(p.src.Size()) && |m.out| == |g.m.out|
    requires Obey(p.t, p.src, items, Ok(g.m)) == Ok(m)
    requires Follows(p, Progress(m, g.total + p.src.Charge(|g.m.out|)), s, r)
    ensures Follows(p, g, Met(items, s), r)
  {
    hide Cost, Obey, Source.Charge;
    ObeyBoth(p.t, p.src, items, s.items, Ok(g.m));
    CostAdd(p.src.Charge(|g.m.out|), s.cost, 1);
    CostOfOne(p.src.Charge(|g.m.out|));
  }

  lemma CostOfOne(c: nat)
    ensures Cost(c, 1) == c && Cost(c, 0) == 0
  {
    assert Cost(c, 1) == Cost(c, 0) + c;
  }

  lemma {:induction false} CostCovers(c: nat, k: nat)
    requires k >= 1
    ensures Cost(c, k) >= c
  {
    if k > 1 {
      CostCovers(c, k - 1);
    }
  }

  lemma {:induction false} StuckAtLimit(p: Program, ds: seq<Descriptor>, i: nat, depth: nat, g: Progress)
    requires i < |ds| && depth <= MAX_RECURSION_DEPTH && g.m.Ready(p.src.Size())
    requires !Leafy(ds[i]) && ds[i].f != 1 && ds[i].f != 3
    ensures Run(p, ds, i, depth, g) == Err(LimitExceeded)
    decreases p.Left(g.total)
  {
    hide Call, Repeat, Replicate;
    var h := Progress(g.m, g.total + p.src.Charge(|g.m.out|));
    if h.total <= p.limit {
      assert Step(p, ds, i, depth, g) == Ok(Spot(i, h));
      StuckAtLimit(p, ds, i, depth, h);
    }
  }

  function Gone(step: Result<Spot>): Result<Progress> {
    if step.Err? then Err(step.error) else Ok(step.value.g)
  }

  function Levels(depth: nat): nat
    requires depth <= MAX_RECURSION_DEPTH
  {
    MAX_RECURSION_DEPTH - depth
  }

  lemma {:induction false} FirstSpells(p: Program, ds: seq<Descriptor>, i: nat, depth: nat, g: Progress)
    requires i < |ds| && depth <= MAX_RECURSION_DEPTH && g.m.Ready(p.src.Size()) && g.total <= p.limit
    requires Leafy(ds[i]) || ds[i].f == 1 || ds[i].f == 3
    ensures var step := Step(p, ds, i, depth, g);
      && Follows(p, g, SpellFirst(p.t, p.src, ds[i..], Levels(depth), Ok(g.m)), Gone(step))
      && (step.Ok? ==> step.value.i == i + Span(ds[i]))
    decreases MAX_RECURSION_DEPTH - depth, p.Left(g.total), 1
  {
    var d, h := ds[i], Progress(g.m, g.total + p.src.Charge(|g.m.out|));
    if h.total > p.limit {
      TooDear(p, g, SpellFirst(p.t, p.src, ds[i..], Levels(depth), Ok(g.m)), Gone(Step(p, ds, i, depth, g)));
    } else if Leafy(d) {
      LeafSpells(p, ds, i, depth, g);
    } else if d.f == 3 {
      SequenceSpells(p, ds, i, depth, g);
    } else if d.y > 0 {
      FixedSpells(p, ds, i, depth, g);
    } else {
      DelayedSpells(p, ds, i, depth, g);
    }
  }

  lemma {:induction false} TooDear(p: Program, g: Progress, s: Spelling, r: Result<Progress>)
    requires g.m.Ready(p.src.Size()) && s.cost >= 1 && r.Err?
    requires g.total + p.src.Charge(|g.m.out|) > p.limit
    ensures Follows(p, g, s, r)
  {
    CostCovers(p.src.Charge(|g.m.out|), s.cost);
  }

  lemma {:induction false} LeafSpells(p: Program, ds: seq<Descriptor>, i: nat, depth: nat, g: Progress)
    requires i < |ds| && depth <= MAX_RECURSION_DEPTH && g.m.Ready(p.src.Size()) && Leafy(ds[i])
    requires g.total + p.src.Charge(|g.m.out|) <= p.limit
    ensures var step := Step(p, ds, i, depth, g);
      && Follows(p, g, SpellFirst(p.t, p.src, ds[i..], Levels(depth), Ok(g.m)), Gone(step))
      && (step.Ok? ==> step.value.i == i + Span(ds[i]))
  {
    hide Source.Leaf, Source.Count, Cost;
    var d := ds[i];
    CostOfOne(p.src.Charge(|g.m.out|));
    var leaf := p.src.Leaf(p.t, d, g.m);
    assert Obey(p.t, p.src, [Element(d)], Ok(g.m)) == leaf by {
      assert [Element(d)][1..] == [];
      assert Obey(p.t, p.src, [], leaf) == leaf;
    }
  }

  /** The step before the spelling of what it calls: the descriptor is met. */
  lemma {:induction false} SequenceSpells(p: Program, ds: seq<Descriptor>, i: nat, depth: nat, g: Progress)
    requires i < |ds| && depth <= MAX_RECURSION_DEPTH && g.m.Ready(p.src.Size()) && !Leafy(ds[i]) && ds[i].f == 3
    requires g.total + p.src.Charge(|g.m.out|) <= p.limit
    ensures var step := Step(p, ds, i, depth, g);
      && Follows(p, g, SpellFirst(p.t, p.src, ds[i..], Levels(depth), Ok(g.m)), Gone(step))
      && (step.Ok? ==> step.value.i == i + Span(ds[i]))
    decreases MAX_RECURSION_DEPTH - depth, p.Left(g.total), 0
  {
    hide Cost, Call, Spell, Nested, Leafy, Repeat;
    var d, h := ds[i], Progress(g.m, g.total + p.src.Charge(|g.m.out|));
    CostOfOne(p.src.Charge(|g.m.out|));
    if d.Code() in p.t.d {
      MembersAreNested(p.t.d[d.Code()]);
      CallSpells(p, Nested(p.t.d[d.Code()]), depth, h);
      if depth < MAX_RECURSION_DEPTH {
        FollowsMet(p, g, [], g.m, Spell(p.t, p.src, Members(p.t.d[d.Code()]), Levels(depth) - 1, Ok(g.m)),
                   Call(p, Nested(p.t.d[d.Code()]), depth, h));
      }
    }
  }

  lemma {:induction false} FixedSpells(p: Program, ds: seq<Descriptor>, i: nat, depth: nat, g: Progress)
    requires i < |ds| && depth <= MAX_RECURSION_DEPTH && g.m.Ready(p.src.Size()) && ds[i].f == 1 && ds[i].y > 0
    requires g.total + p.src.Charge(|g.m.out|) <= p.limit
    ensures var step := Step(p, ds, i, depth, g);
      && Follows(p, g, SpellFirst(p.t, p.src, ds[i..], Levels(depth), Ok(g.m)), Gone(step))
      && (step.Ok? ==> step.value.i == i + Span(ds[i]))
    decreases MAX_RECURSION_DEPTH - depth, p.Left(g.total), 0
  {
    hide Cost, Copies, Repeat, Call, Source.Count;
    var d, h := ds[i], Progress(g.m, g.total + p.src.Charge(|g.m.out|));
    CostOfOne(p.src.Charge(|g.m.out|));
    if 0 < d.x && d.y <= MAX_REPLICATION_COUNT && i + 1 + d.x <= |ds| {
      var block := ds[i + 1..i + 1 + d.x];
      assert ds[i..][1..1 + d.x] == block;
      RepeatSpells(p, block, d.y, depth, h);
      FollowsMet(p, g, [], g.m, Copies(p.t, p.src, block, d.y, Levels(depth), Ok(g.m)), Repeat(p, block, d.y, depth, h));
    }
  }

  lemma {:induction false} DelayedSpells(p: Program, ds: seq<Descriptor>, i: nat, depth: nat, g: Progress)
    requires i < |ds| && depth <= MAX_RECURSION_DEPTH && g.m.Ready(p.src.Size()) && ds[i].f == 1 && ds[i].y == 0
    requires g.total + p.src.Charge(|g.m.out|) <= p.limit
    ensures var step := Step(p, ds, i, depth, g);
      && Follows(p, g, SpellFirst(p.t, p.src, ds[i..], Levels(depth), Ok(g.m)), Gone(step))
      && (step.Ok? ==> step.value.i == i + Span(ds[i]))
    decreases MAX_RECURSION_DEPTH - depth, p.Left(g.total), 0
  {
    hide Cost, Copies, Repeat, Call, Source.Count;
    var d, total := ds[i], g.total + p.src.Charge(|g.m.out|);
    CostOfOne(p.src.Charge(|g.m.out|));
    if 0 < d.x && i + 1 < |ds| {
      var counted, factor := p.src.Count(p.t, ds[i + 1], g.m), [Factor(ds[i + 1])];
      assert Obey(p.t, p.src, factor, Ok(g.m)) == ObeyItem(p.t, p.src, factor[0], g.m) by {
        assert factor[1..] == [];
      }
      if counted.Err? {
        NoCopies(p, ds, i, depth, g);
      } else if counted.value.1 <= MAX_REPLICATION_COUNT && i + 2 + d.x <= |ds| {
        var block, m := ds[i + 2..i + 2 + d.x], counted.value.0;
        assert ds[i..][2..2 + d.x] == block;
        RepeatSpells(p, block, counted.value.1, depth, Progress(m, total));
        FollowsMet(p, g, factor, m, Copies(p.t, p.src, block, counted.value.1, Levels(depth), Ok(m)),
                   Repeat(p, block, counted.value.1, depth, Progress(m, total)));
      }
    }
  }

  lemma {:induction false} NoCopies(p: Program, ds: seq<Descriptor>, i: nat, depth: nat, g: Progress)
    requires i + 1 < |ds| && depth <= MAX_RECURSION_DEPTH && g.m.Ready(p.src.Size()) && ds[i].f == 1 && ds[i].y == 0
    requires ds[i].x > 0 && p.src.Count(p.t, ds[i + 1], g.m).Err?
    ensures var s := SpellFirst(p.t, p.src, ds[i..], Levels(depth), Ok(g.m));
      s.cost == 1 && s.items == [Factor(ds[i + 1])]
  {
  }

  lemma {:induction false} RunSpells(p: Program, ds: seq<Descriptor>, i: nat, depth: nat, g: Progress)
    requires i <= |ds| && depth <= MAX_RECURSION_DEPTH && g.m.Ready(p.src.Size()) && g.total <= p.limit
    ensures Follows(p, g, Spell(p.t, p.src, ds[i..], Levels(depth), Ok(g.m)), Run(p, ds, i, depth, g))
    decreases MAX_RECURSION_DEPTH - depth, p.Left(g.total), 2
  {
    hide Step, SpellFirst, Follows, Cost, Leafy;
    var r := Run(p, ds, i, depth, g);
    if i == |ds| {
      NothingSpelled(p, g);
    } else if !Leafy(ds[i]) && ds[i].f != 1 && ds[i].f != 3 {
      StuckAtLimit(p, ds, i, depth, g);
      StuckSpells(p, ds, i, depth, g);
    } else {
      FirstSpells(p, ds, i, depth, g);
      var step, rest := Step(p, ds, i, depth, g), ds[i..];
      var first := SpellFirst(p.t, p.src, rest, Levels(depth), Ok(g.m));
      if step.Ok? {
        Stopped(p, g, first, Gone(step));
      }
      if first.stop.None? && Span(rest[0]) <= |rest| {
        assert rest[Span(rest[0])..] == ds[i + Span(ds[i])..];
        var b := Spell(p.t, p.src, rest[Span(rest[0])..], Levels(depth), Obey(p.t, p.src, first.items, Ok(g.m)));
        if step.Ok? {
          RunSpells(p, ds, step.value.i, depth, step.value.g);
        }
        FollowsBoth(p, g, first, Gone(step), b, r);
      }
    }
  }

  lemma NothingSpelled(p: Program, g: Progress)
    requires g.m.Ready(p.src.Size()) && g.total <= p.limit
    ensures Follows(p, g, Spelling([], 0, None), Ok(g))
  {
  }

  lemma {:induction false} StuckSpells(p: Program, ds: seq<Descriptor>, i: nat, depth: nat, g: Progress)
    requires i < |ds| && depth <= MAX_RECURSION_DEPTH && g.m.Ready(p.src.Size())
    requires !Leafy(ds[i]) && ds[i].f != 1 && ds[i].f != 3
    ensures Follows(p, g, Spell(p.t, p.src, ds[i..], Levels(depth), Ok(g.m)), Err(LimitExceeded))
  {
  }

  /** A result follows a spelling with success only if that goes on. */
  lemma Stopped(p: Program, g: Progress, s: Spelling, r: Result<Progress>)
    requires g.m.Ready(p.src.Size()) && Follows(p, g, s, r) && r.Ok?
    ensures s.stop.None? && Obey(p.t, p.src, s.items, Ok(g.m)) == Ok(r.value.m) && r.value.total <= p.limit
  {
  }

  lemma {:induction false} CallSpells(p: Program, ds: seq<Descriptor>, depth: nat, g: Progress)
    requires depth <= MAX_RECURSION_DEPTH && g.m.Ready(p.src.Size()) && g.total <= p.limit
    ensures if depth == MAX_RECURSION_DEPTH then Call(p, ds, depth, g) == Err(LimitExceeded)
      else Follows(p, g, Spell(p.t, p.src, ds, Levels(depth) - 1, Ok(g.m)), Call(p, ds, depth, g))
    decreases MAX_RECURSION_DEPTH - depth, p.Left(g.total), 3
  {
    hide Spell, Run, Follows;
    if depth < MAX_RECURSION_DEPTH {
      RunSpells(p, ds, 0, depth + 1, g);
      assert ds[0..] == ds;
    }
  }

  lemma {:induction false} RepeatSpells(p: Program, block: seq<Descriptor>, count: int, depth: nat, g: Progress)
    requires depth <= MAX_RECURSION_DEPTH && g.m.Ready(p.src.Size()) && g.total <= p.limit
    ensures Follows(p, g, Copies(p.t, p.src, block, count, Levels(depth), Ok(g.m)), Repeat(p, block, count, depth, g))
    decreases MAX_RECURSION_DEPTH - depth, p.Left(g.total), if count > 0 then count + 3 else 0
  {
    hide Spell, Call, Follows, Cost;
    if count <= 0 {
      NothingSpelled(p, g);
    } else {
      CallSpells(p, block, depth, g);
      if depth == MAX_RECURSION_DEPTH {
        NoRoom(p, g);
      } else {
        var one, once := Spell(p.t, p.src, block, Levels(depth) - 1, Ok(g.m)), Call(p, block, depth, g);
        if once.Ok? {
          Stopped(p, g, one, once);
          RepeatSpells(p, block, count - 1, depth, once.value);
        }
        if one.stop.None? {
          FollowsBoth(p, g, one, once, Copies(p.t, p.src, block, count - 1, Levels(depth), Obey(p.t, p.src, one.items, Ok(g.m))),
                      Repeat(p, block, count, depth, g));
        }
      }
    }
  }

  lemma NoRoom(p: Program, g: Progress)
    requires g.m.Ready(p.src.Size())
    ensures Follows(p, g, Spelling([], 0, Some(LimitExceeded)), Err(LimitExceeded))
  {
  }

  // ----- Whole templates -----

  /** What decoding from a machine gives, told by the flat list: the machine and the total, or the error. */
  predicate Told(t: Tables, src: Source, s: Spelling, m: Machine, spent: nat, r: Result<Progress>)
    requires m.Ready(src.Size())
  {
    var o, due := Obey(t, src, s.items, Ok(m)), spent + Cost(src.Charge(|m.out|), s.cost);
    if due > MAX_EXPANDED_DESCRIPTORS then r.Err?
    else if o.Err? then r == Err(o.error)
    else if s.stop.Some? then r == Err(s.stop.value)
    else r == Ok(Progress(o.value, due))
  }

  /** The flat list of a template. Its sequences and blocks may be nested 63 deep. */
  function Listed(t: Tables, src: Source, ds: seq<Descriptor>, m: Machine): Spelling
    requires m.Ready(src.Size())
  {
    Spell(t, src, ds, MAX_RECURSION_DEPTH - 1, Ok(m))
  }

  /** Main result for compressed data: all subsets are what the flat list makes of the columns. */
  lemma ColumnsSpelled(t: Tables, ds: seq<Descriptor>, n: nat, bits: seq<bool>)
    ensures var m := Start.(out := Empty(n));
      Told(t, Columns(bits), Listed(t, Columns(bits), ds, m), m, 0, DecodeColumns(t, ds, n, bits))
  {
    hide Spell, Call, Obey;
    CallSpells(Program(t, Columns(bits), MAX_EXPANDED_DESCRIPTORS), ds, 0, Progress(Start.(out := Empty(n)), 0));
  }

  /** Main result for row-wise data: each subset is what the flat list makes of the bits from there on. */
  lemma RowsSpelled(t: Tables, ds: seq<Descriptor>, k: nat, bits: seq<bool>)
    requires k > 0 && DecodeRows(t, ds, k - 1, bits).Ok?
    ensures var prev, r := DecodeRows(t, ds, k - 1, bits).value, DecodeRows(t, ds, k, bits);
      var m := Fresh(prev.pos, prev.localWidth);
      var s := Listed(t, Rows(bits), ds, m);
      var o, due := Obey(t, Rows(bits), s.items, Ok(m)), prev.total + s.cost;
      if due > MAX_EXPANDED_DESCRIPTORS then r.Err?
      else if o.Err? then r == Err(o.error)
      else if s.stop.Some? then r == Err(s.stop.value)
      else r == Ok(Subsets(prev.values + o.value.out, o.value.pos, due, o.value.ops.localWidth))
  {
    hide Spell, Call, Obey, Cost;
    RowsBounded(t, ds, k - 1, bits);
    var prev := DecodeRows(t, ds, k - 1, bits).value;
    var p, g := Program(t, Rows(bits), MAX_EXPANDED_DESCRIPTORS), Progress(Fresh(prev.pos, prev.localWidth), prev.total);
    CallSpells(p, ds, 0, g);
    CostOfOnes(Listed(t, Rows(bits), ds, g.m).cost);
  }

  lemma {:induction false} CostOfOnes(k: nat)
    ensures Cost(1, k) == k
  {
    if k > 0 {
      CostOfOnes(k - 1);
    }
  }

  /** Without delayed replication a template stands for one list, whatever the payload and the subsets. */
  lemma {:induction false} OneListForAll(t: Tables, ds: seq<Descriptor>, levels: nat, src: Source, m: Result<Machine>,
                                         src': Source, m': Result<Machine>)
    requires Immediate(t, ds, levels) && Fits(src, m) && Fits(src', m')
    ensures Spell(t, src, ds, levels, m) == Spell(t, src', ds, levels, m')
    decreases levels, 2, |ds|
  {
    hide Obey, Immediate;
    if ds != [] {
      FirstForAll(t, ds, levels, src, m, src', m');
      var first, first' := SpellFirst(t, src, ds, levels, m), SpellFirst(t, src', ds, levels, m');
      var span := Span(ds[0]);
      if first.stop.None? && span <= |ds| {
        ImmediateRest(t, ds, span, levels);
        OneListForAll(t, ds[span..], levels, src, Obey(t, src, first.items, m), src', Obey(t, src', first'.items, m'));
      }
    }
  }

  lemma ImmediateRest(t: Tables, ds: seq<Descriptor>, k: nat, levels: nat)
    requires Immediate(t, ds, levels) && k <= |ds|
    ensures Immediate(t, ds[k..], levels)
  {
    forall i | 0 <= i < |ds| - k
      ensures ImmediateAt(t, ds[k..][i], levels)
    {
      assert ds[k..][i] == ds[i + k];
    }
  }

  lemma ImmediateMembers(t: Tables, ds: seq<Descriptor>, levels: nat)
    requires Immediate(t, ds, levels) && ds != [] && ds[0].f == 3 && ds[0].Code() in t.d && levels > 0
    ensures Immediate(t, Members(t.d[ds[0].Code()]), levels - 1)
  {
    MembersAreNested(t.d[ds[0].Code()]);
    assert ImmediateAt(t, ds[0], levels);
  }

  lemma {:induction false} FirstForAll(t: Tables, ds: seq<Descriptor>, levels: nat, src: Source, m: Result<Machine>,
                                       src': Source, m': Result<Machine>)
    requires Immediate(t, ds, levels) && Fits(src, m) && Fits(src', m') && ds != []
    ensures SpellFirst(t, src, ds, levels, m) == SpellFirst(t, src', ds, levels, m')
    decreases levels, 1, 0
  {
    hide Obey, SpellFirst, Spell, Copies, Members, Immediate, Leafy;
    var d := ds[0];
    if !Leafy(d) && d.f == 3 && d.Code() in t.d && levels > 0 {
      ImmediateMembers(t, ds, levels);
      OneListForAll(t, Members(t.d[d.Code()]), levels - 1, src, m, src', m');
    } else if !Leafy(d) && d.f == 1 {
      NotDelayed(t, ds, levels);
      if 1 + d.x <= |ds| && d.x > 0 {
        if levels > 0 {
          ImmediateBlock(t, ds, 1, 1 + d.x, levels - 1);
        }
        CopiesForAll(t, ds[1..1 + d.x], d.y, levels, src, m, src', m');
      }
    }
    FirstUnfolds(t, src, ds, levels, m);
    FirstUnfolds(t, src', ds, levels, m');
  }

  /** What the first descriptor is spelled as, if it is no delayed replication. */
  lemma FirstUnfolds(t: Tables, src: Source, ds: seq<Descriptor>, levels: nat, m: Result<Machine>)
    requires Fits(src, m) && ds != [] && (Leafy(ds[0]) || ds[0].f != 1 || ds[0].y > 0)
    ensures var d, s := ds[0], SpellFirst(t, src, ds, levels, m);
      if Leafy(d) then s == Spelling([Element(d)], 1, None)
      else if d.f == 3 && d.Code() in t.d && levels > 0
        then s == Met([], Spell(t, src, Members(t.d[d.Code()]), levels - 1, m))
      else if d.f == 1 && 0 < d.x && 1 + d.x <= |ds| && d.y <= MAX_REPLICATION_COUNT
        then s == Met([], Copies(t, src, ds[1..1 + d.x], d.y, levels, m))
      else s == Spelling([], 1, Some(if d.f == 3 && d.Code() !in t.d then UnknownDescriptor(d)
                                     else if d.f != 1 then LimitExceeded
                                     else if d.x == 0 then InvalidBUFR
                                     else if d.y > MAX_REPLICATION_COUNT then LimitExceeded else Truncated))
  {
    hide Obey, Spell, Copies, Members, Leafy;
  }

  lemma NotDelayed(t: Tables, ds: seq<Descriptor>, levels: nat)
    requires Immediate(t, ds, levels) && ds != [] && ds[0].f == 1
    ensures ds[0].y > 0
  {
    assert ImmediateAt(t, ds[0], levels);
  }

  lemma {:induction false} CopiesForAll(t: Tables, block: seq<Descriptor>, count: int, levels: nat, src: Source,
                                        m: Result<Machine>, src': Source, m': Result<Machine>)
    requires (levels > 0 ==> Immediate(t, block, levels - 1)) && Fits(src, m) && Fits(src', m')
    ensures Copies(t, src, block, count, levels, m) == Copies(t, src', block, count, levels, m')
    decreases levels, 0, if count > 0 then count else 0
  {
    hide Obey, Spell, Immediate;
    if count > 0 && levels > 0 {
      OneListForAll(t, block, levels - 1, src, m, src', m');
      var one := Spell(t, src, block, levels - 1, m);
      CopiesForAll(t, block, count - 1, levels, src, Obey(t, src, one.items, m), src', Obey(t, src', one.items, m'));
    }
  }

  function Elements(ds: seq<Descriptor>): seq<Item> {
    if ds == [] then [] else [Element(ds[0])] + Elements(ds[1..])
  }

  lemma {:induction false} LeavesStandForThemselves(t: Tables, src: Source, ds: seq<Descriptor>, levels: nat,
                                                    m: Result<Machine>)
    requires Fits(src, m) && forall k :: 0 <= k < |ds| ==> Leafy(ds[k])
    ensures Spell(t, src, ds, levels, m) == Spelling(Elements(ds), |ds|, None)
  {
    hide Obey;
    if ds != [] {
      LeavesStandForThemselves(t, src, ds[1..], levels, Obey(t, src, [Element(ds[0])], m));
    }
  }

  const DateTables := Tables(map[], map[301011 := [4001, 4002, 4003]])
  const Date := [Element(Descriptor(0, 4, 1)), Element(Descriptor(0, 4, 2)), Element(Descriptor(0, 4, 3))]

  lemma DateSpelled(src: Source, levels: nat, m: Result<Machine>)
    requires Fits(src, m)
    ensures Spell(DateTables, src, [Descriptor(3, 1, 11)], levels + 1, m) == Spelling(Date, 4, None)
  {
    hide Obey, Members, Elements;
    var y, mo, d := Descriptor(0, 4, 1), Descriptor(0, 4, 2), Descriptor(0, 4, 3);
    DateMembers();
    LeavesStandForThemselves(DateTables, src, [y, mo, d], levels, m);
    DateElements();
    assert [Descriptor(3, 1, 11)][1..] == [];
    assert SpellFirst(DateTables, src, [Descriptor(3, 1, 11)], levels + 1, m) == Spelling(Date, 4, None);
  }

  lemma DateElements()
    ensures Elements([Descriptor(0, 4, 1), Descriptor(0, 4, 2), Descriptor(0, 4, 3)]) == Date
  {
    var y, mo, d := Descriptor(0, 4, 1), Descriptor(0, 4, 2), Descriptor(0, 4, 3);
    assert [y, mo, d][1..] == [mo, d] && [mo, d][1..] == [d] && [d][1..] == [];
    assert Elements([d]) == [Element(d)] + Elements([]);
    assert Elements([mo, d]) == [Element(mo)] + Elements([d]);
  }

  lemma DateMembers()
    ensures Members([4001, 4002, 4003]) == [Descriptor(0, 4, 1), Descriptor(0, 4, 2), Descriptor(0, 4, 3)]
  {
    assert [4001, 4002, 4003][1..] == [4002, 4003] && [4002, 4003][1..] == [4003] && [4003][1..] == [];
    assert Members([4003]) == [Descriptor(0, 4, 3)];
    assert Members([4002, 4003]) == [Descriptor(0, 4, 2), Descriptor(0, 4, 3)];
  }

  /** For example, a date stands for year, month and day, and a date repeated twice for that twice. */
  lemma DatesStandForMembers(src: Source, m: Machine)
    requires m.Ready(src.Size())
    ensures Listed(DateTables, src, [Descriptor(3, 1, 11)], m) == Spelling(Date, 4, None)
    ensures Listed(DateTables, src, [Descriptor(1, 1, 2), Descriptor(3, 1, 11)], m) == Spelling(Date + Date, 9, None)
  {
    hide Obey, Spell, SpellFirst;
    var date, twice := [Descriptor(3, 1, 11)], [Descriptor(1, 1, 2), Descriptor(3, 1, 11)];
    DateSpelled(src, 62, Ok(m));
    DateSpelled(src, 61, Ok(m));
    var again := Obey(DateTables, src, Date, Ok(m));
    DateSpelled(src, 61, again);
    assert Copies(DateTables, src, date, 0, 63, Obey(DateTables, src, Date, again)) == Spelling([], 0, None);
    assert Copies(DateTables, src, date, 1, 63, again) == Spelling(Date + [], 4, None);
    assert Copies(DateTables, src, date, 2, 63, Ok(m)) == Spelling(Date + (Date + []), 8, None);
    TwiceSpelled(src, m);
    assert Date + (Date + []) == Date + Date;
  }

  lemma TwiceSpelled(src: Source, m: Machine)
    requires m.Ready(src.Size())
    ensures Listed(DateTables, src, [Descriptor(1, 1, 2), Descriptor(3, 1, 11)], m)
         == Then(Met([], Copies(DateTables, src, [Descriptor(3, 1, 11)], 2, 63, Ok(m))), Spelling([], 0, None))
         || Copies(DateTables, src, [Descriptor(3, 1, 11)], 2, 63, Ok(m)).stop.Some?
  {
    hide Obey, Copies;
    var twice := [Descriptor(1, 1, 2), Descriptor(3, 1, 11)];
    assert twice[1..2] == [Descriptor(3, 1, 11)] && twice[2..] == [];
  }
}
