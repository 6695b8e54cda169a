/**
  Rings of a map geometry sent as an encoded polyline: longitude then latitude, zigzag deltas, five
  bits a character. The decoder computes with doubles; every operation it makes on them is written
  with its rounding, and the decoder is proved against the same computation on integers.
 */
module Polyline {

  const MAX_SAFE := 0x1F_FFFF_FFFF_FFFF
  const TWO_TO_49 := 0x2_0000_0000_0000
  const TWO_TO_50 := 0x4_0000_0000_0000

  /** Quantised coordinates: degrees times a power of ten. */
  datatype Point = Point(lon: int, lat: int)

  datatype Fault = BadPrecision | Empty | BadCharacter | UnsafeInteger | Truncated | OddCount | TooFew | NotClosed

  datatype Outcome<+T> = Decoded(value: T) | Refused(fault: Fault)

  predicate Safe(x: int) {
    -MAX_SAFE <= x <= MAX_SAFE
  }

  predicate ValidPrecision(precision: int) {
    0 <= precision <= 9
  }

  // ----- Doubles -----

  /** The double nearest to an integer, ties to even; exact up to 2^53, even numbers only up to 2^54. */
  function Fl(x: int): (r: int)
    requires -2 * MAX_SAFE <= x <= 2 * MAX_SAFE
  {
    if -MAX_SAFE - 1 <= x <= MAX_SAFE + 1 || x % 2 == 0 then x
    else if (x - 1) % 4 == 0 then x - 1 else x + 1
  }

  /** Rounding neither makes an unsafe sum safe nor changes a safe one. */
  lemma RoundingKeepsTheVerdict(x: int)
    requires -2 * MAX_SAFE <= x <= 2 * MAX_SAFE
    ensures Safe(Fl(x)) <==> Safe(x)
    ensures Safe(x) ==> Fl(x) == x
  {
  }

  // ----- The decoder on integers, one character at a time -----

  /** The points so far, the running coordinates, and the delta being read: its value and next weight. */
  datatype State = State(prev: Point, u: nat, multiplier: nat, isLon: bool, hasMore: bool, points: seq<Point>)

  const Start := State(Point(0, 0), 0, 1, true, false, [])

  function Unzigzag(u: nat): int {
    if u % 2 != 0 then -((u + 1) / 2) else u / 2
  }

  /** A whole delta has been read. */
  function Deliver(s: State, u: nat): Outcome<State> {
    var delta := Unzigzag(u);
    if s.isLon then
      var lon := s.prev.lon + delta;
      if !Safe(lon) then Refused(UnsafeInteger)
      else Decoded(State(Point(lon, s.prev.lat), 0, 1, false, false, s.points))
    else
      var lat := s.prev.lat + delta;
      if !Safe(lat) then Refused(UnsafeInteger)
      else Decoded(State(Point(s.prev.lon, lat), 0, 1, true, false, s.points + [Point(s.prev.lon, lat)]))
  }

  function Step(s: State, code: nat): Outcome<State> {
    if code < 63 || code > 126 then Refused(BadCharacter) else
    var chunk, more := (code - 63) % 32, code - 63 >= 32;
    if s.multiplier * 32 > MAX_SAFE then Refused(UnsafeInteger) else
    var sum := Reach(chunk, s.u, s.multiplier);
    if sum > MAX_SAFE then Refused(UnsafeInteger)
    else if more then Decoded(s.(u := sum, multiplier := s.multiplier * 32, hasMore := true))
    else Deliver(s, sum)
  }

  /** The accumulator after a chunk of some weight. */
  function Reach(chunk: nat, u: nat, weight: nat): (sum: nat)
    ensures sum >= u
  {
    u + chunk * weight
  }

  function Run(s: State, codes: seq<nat>): Outcome<State>
    decreases |codes|
  {
    if codes == [] then Decoded(s) else
    var next := Step(s, codes[0]);
    if next.Refused? then next else Run(next.value, codes[1..])
  }

  predicate Closed(ring: seq<Point>) {
    ring != [] && ring[0] == ring[|ring| - 1]
  }

  function Finish(s: State): Outcome<seq<Point>> {
    if s.hasMore then Refused(Truncated)
    else if !s.isLon then Refused(OddCount)
    else if |s.points| < 4 then Refused(TooFew)
    else if !Closed(s.points) then Refused(NotClosed)
    else Decoded(s.points)
  }

  function Ring(codes: seq<nat>, precision: int): Outcome<seq<Point>> {
    if !ValidPrecision(precision) then Refused(BadPrecision)
    else if codes == [] then Refused(Empty)
    else
      var end := Run(Start, codes);
      if end.Refused? then Refused(end.fault) else Finish(end.value)
  }

  // ----- What every run keeps -----

  /** The weights a chunk may have, and the one at which the decoder gives up. */
  predicate Weight(m: nat) {
    m in {0x1, 0x20, 0x400, 0x8000, 0x10_0000, 0x200_0000, 0x4000_0000, 0x8_0000_0000, 0x100_0000_0000,
          0x2000_0000_0000, 0x4_0000_0000_0000}
  }

  predicate InRange(delta: int) {
    -TWO_TO_49 <= delta < TWO_TO_49
  }

  /** The point before point i; a ring starts from the origin. */
  function Before(ring: seq<Point>, i: nat): Point
    requires i <= |ring|
  {
    if i == 0 then Point(0, 0) else ring[i - 1]
  }

  predicate ReachablePoint(ring: seq<Point>, i: nat)
    requires i < |ring|
  {
    var from, to := Before(ring, i), ring[i];
    InRange(to.lon - from.lon) && InRange(to.lat - from.lat) && Safe(to.lon) && Safe(to.lat)
  }

  /** Every delta has at most 50 bits, and every coordinate is a safe integer. */
  predicate Reachable(ring: seq<Point>) {
    forall i :: 0 <= i < |ring| ==> ReachablePoint(ring, i)
  }

  /** Accumulator below 2^50, deltas within 2^49, coordinates within 2^53 - 1. */
  predicate Bounded(s: State) {
    && Weight(s.multiplier) && s.u < s.multiplier <= TWO_TO_50
    && Reachable(s.points) && Safe(s.prev.lon) && Safe(s.prev.lat)
    && (var last := Before(s.points, |s.points|);
        if s.isLon then s.prev == last
        else s.prev.lat == last.lat && InRange(s.prev.lon - last.lon))
  }

  lemma WeightGrows(m: nat)
    requires Weight(m)
    ensures m * 32 > MAX_SAFE <==> m == TWO_TO_50
    ensures m * 32 <= MAX_SAFE ==> Weight(m * 32) && m * 32 <= TWO_TO_50
  {
  }

  lemma OnePointMore(ring: seq<Point>, p: Point)
    requires Reachable(ring) && ReachablePoint(ring + [p], |ring|)
    ensures Reachable(ring + [p])
  {
    forall i | 0 <= i < |ring|
      ensures ReachablePoint(ring + [p], i)
    {
      assert ReachablePoint(ring, i);
    }
  }

  lemma DeliverBounded(s: State, u: nat)
    requires Bounded(s) && u < TWO_TO_50
    ensures Deliver(s, u).Decoded? ==> Bounded(Deliver(s, u).value)
  {
    if !s.isLon && Deliver(s, u).Decoded? {
      var p := Deliver(s, u).value.prev;
      assert (s.points + [p])[..|s.points|] == s.points;
      OnePointMore(s.points, p);
    }
  }

  /** What a chunk adds keeps the accumulator below the next weight: the guard on it never fires. */
  lemma ChunkFits(chunk: nat, u: nat, m: nat)
    requires Weight(m) && u < m && chunk < 32 && m * 32 <= MAX_SAFE
    ensures Reach(chunk, u, m) < m * 32 <= TWO_TO_50
  {
    WeightGrows(m);
    assert chunk * m <= 31 * m;
  }

  /** One character of a bounded run. */
  lemma StepBounded(s: State, code: nat)
    requires Bounded(s)
    ensures Weight(s.multiplier) && s.u < s.multiplier && Safe(s.prev.lon) && Safe(s.prev.lat)
    ensures Step(s, code).Decoded? ==> Bounded(Step(s, code).value)
    ensures var chunk := (code - 63) % 32;
      Step(s, code) ==
        if code < 63 || code > 126 then Refused(BadCharacter)
        else if s.multiplier * 32 > MAX_SAFE then Refused(UnsafeInteger)
        else if code - 63 >= 32 then
          Decoded(s.(u := Reach(chunk, s.u, s.multiplier), multiplier := s.multiplier * 32, hasMore := true))
        else Deliver(s, Reach(chunk, s.u, s.multiplier))
  {
    hide Weight, Deliver, Reachable, Reach;
    var chunk := (code - 63) % 32;
    if code < 63 || code > 126 || s.multiplier * 32 > MAX_SAFE {
      return;
    }
    WeightGrows(s.multiplier);
    ChunkFits(chunk, s.u, s.multiplier);
    if code - 63 < 32 {
      DeliverBounded(s, Reach(chunk, s.u, s.multiplier));
    }
  }

  lemma {:induction false} RunBounded(s: State, codes: seq<nat>)
    requires Bounded(s) && Run(s, codes).Decoded?
    ensures Bounded(Run(s, codes).value)
    decreases |codes|
  {
    hide Bounded;
    if codes != [] {
      StepBounded(s, codes[0]);
      RunBounded(Step(s, codes[0]).value, codes[1..]);
    }
  }

  lemma RunFrom(s: State, codes: seq<nat>, i: nat)
    requires i < |codes|
    ensures var next := Step(s, codes[i]);
      Run(s, codes[i..]) == if next.Refused? then next else Run(next.value, codes[i + 1..])
  {
    hide Step;
    assert codes[i..][0] == codes[i] && codes[i..][1..] == codes[i + 1..];
  }

  lemma StartBounded()
    ensures Bounded(Start)
  {
  }

  lemma RunNothing(s: State)
    ensures Run(s, []) == Decoded(s)
  {
  }

  // ----- The decoder as the program runs it -----

  /** One coordinate and its delta, summed as doubles. */
  method NextCoordinate(prev: int, delta: int) returns (r: Outcome<int>)
    requires Safe(prev) && InRange(delta)
    ensures r == if Safe(prev + delta) then Decoded(prev + delta) else Refused(UnsafeInteger)
  {
    RoundingKeepsTheVerdict(prev + delta);
    var next := Fl(prev + delta);
    r := if Safe(next) then Decoded(next) else Refused(UnsafeInteger);
  }

  /** The accumulator with one more chunk, computed as doubles: both guards and every rounding are idle. */
  method AddChunk(chunk: nat, u: nat, multiplier: nat) returns (r: Outcome<nat>)
    requires chunk < 32 && Weight(multiplier) && u < multiplier
    ensures r == if multiplier * 32 > MAX_SAFE then Refused(UnsafeInteger) else Decoded(Reach(chunk, u, multiplier))
    ensures r.Decoded? ==> r.value < multiplier * 32 <= TWO_TO_50
  {
    WeightGrows(multiplier);
    if multiplier * 32 > MAX_SAFE {
      return Refused(UnsafeInteger);
    }
    ChunkFits(chunk, u, multiplier);
    var addition := Fl(chunk * multiplier);
    if u > Fl(MAX_SAFE - addition) {
      return Refused(UnsafeInteger);
    }
    r := Decoded(Fl(u + addition));
  }

  method ReadDelta(u: nat) returns (delta: int)
    requires u < TWO_TO_50
    ensures delta == Unzigzag(u) && InRange(delta)
  {
    delta := if u % 2 != 0 then -(Fl(u + 1) / 2) else u / 2;
  }

  method DecodeRing(encoded: seq<nat>, precision: int) returns (r: Outcome<seq<Point>>)
    ensures r == Ring(encoded, precision)
  {
    hide Weight, Bounded, Run, Unzigzag, Reach, Step;
    if !ValidPrecision(precision) {
      return Refused(BadPrecision);
    }
    if |encoded| == 0 {
      return Refused(Empty);
    }
    var prevQuantLon, prevQuantLat: int := 0, 0;
    var u: nat, multiplier: nat := 0, 1;
    var isLon, hasMore := true, false;
    var positions: seq<Point> := [];
    StartBounded();
    assert encoded[0..] == encoded;
    for i := 0 to |encoded|
      invariant var s := State(Point(prevQuantLon, prevQuantLat), u, multiplier, isLon, hasMore, positions);
        Bounded(s) && Run(Start, encoded) == Run(s, encoded[i..])
    {
      ghost var s := State(Point(prevQuantLon, prevQuantLat), u, multiplier, isLon, hasMore, positions);
      var code := encoded[i];
      RunFrom(s, encoded, i);
      StepBounded(s, code);
      if code < 63 || code > 126 {
        return Refused(BadCharacter);
      }
      var chunk := (code - 63) % 32;
      hasMore := code - 63 >= 32;
      var accumulated := AddChunk(chunk, u, multiplier);
      if accumulated.Refused? {
        return Refused(accumulated.fault);
      }
      u := accumulated.value;
      if hasMore {
        multiplier := Fl(multiplier * 32);
      } else {
        var delta := ReadDelta(u);
        var next := NextCoordinate(if isLon then prevQuantLon else prevQuantLat, delta);
        if next.Refused? {
          return Refused(next.fault);
        }
        u := 0;
        multiplier := 1;
        if isLon {
          prevQuantLon := next.value;
          isLon := false;
        } else {
          prevQuantLat := next.value;
          positions := positions + [Point(prevQuantLon, prevQuantLat)];
          isLon := true;
        }
      }
    }
    assert encoded[|encoded|..] == [];
    RunNothing(State(Point(prevQuantLon, prevQuantLat), u, multiplier, isLon, hasMore, positions));
    if hasMore {
      return Refused(Truncated);
    }
    if !isLon {
      return Refused(OddCount);
    }
    if |positions| < 4 {
      return Refused(TooFew);
    }
    if positions[0] != positions[|positions| - 1] {
      return Refused(NotClosed);
    }
    r := Decoded(positions);
  }

  // ----- Polygons -----

  /** Every ring, or the fault of the first that has one. */
  function Rings(encoded: seq<seq<nat>>, precision: int): (r: Outcome<seq<seq<Point>>>)
    ensures r.Decoded? <==> forall i :: 0 <= i < |encoded| ==> Ring(encoded[i], precision).Decoded?
    ensures r.Decoded? ==> |r.value| == |encoded|
    ensures r.Decoded? ==> forall i :: 0 <= i < |encoded| ==> Ring(encoded[i], precision) == Decoded(r.value[i])
  {
    if encoded == [] then Decoded([]) else
    var k := |encoded| - 1;
    var front, last := Rings(encoded[..k], precision), Ring(encoded[k], precision);
    assert forall i :: 0 <= i < k ==> encoded[..k][i] == encoded[i];
    if front.Refused? then front
    else if last.Refused? then Refused(last.fault)
    else Decoded(front.value + [last.value])
  }

  lemma {:induction false} FirstFaultDecides(encoded: seq<seq<nat>>, precision: int, k: nat)
    requires k <= |encoded| && Rings(encoded[..k], precision).Refused?
    ensures Rings(encoded, precision) == Rings(encoded[..k], precision)
    decreases |encoded|
  {
    if k == |encoded| {
      assert encoded[..k] == encoded;
    } else {
      assert encoded[..|encoded| - 1][..k] == encoded[..k];
      FirstFaultDecides(encoded[..|encoded| - 1], precision, k);
    }
  }

  method DecodeRings(encoded: seq<seq<nat>>, precision: int) returns (r: Outcome<seq<seq<Point>>>)
    ensures r == Rings(encoded, precision)
  {
    hide Ring;
    var coordinates: seq<seq<Point>> := [];
    for i := 0 to |encoded|
      invariant Rings(encoded[..i], precision) == Decoded(coordinates)
    {
      assert encoded[..i + 1][..i] == encoded[..i];
      var ring := DecodeRing(encoded[i], precision);
      if ring.Refused? {
        FirstFaultDecides(encoded, precision, i + 1);
        return Refused(ring.fault);
      }
      coordinates := coordinates + [ring.value];
    }
    assert encoded[..|encoded|] == encoded;
    r := Decoded(coordinates);
  }

  method DecodePolygon(encoded: seq<seq<nat>>, precision: int) returns (r: Outcome<seq<seq<Point>>>)
    ensures !ValidPrecision(precision) ==> r == Refused(BadPrecision)
    ensures ValidPrecision(precision) && encoded == [] ==> r == Refused(Empty)
    ensures ValidPrecision(precision) && encoded != [] ==> r == Rings(encoded, precision)
  {
    if !ValidPrecision(precision) {
      return Refused(BadPrecision);
    }
    if |encoded| == 0 {
      return Refused(Empty);
    }
    r := DecodeRings(encoded, precision);
  }

  /** Every polygon with its rings; a polygon without rings is refused. */
  method DecodeMultiPolygon(encoded: seq<seq<seq<nat>>>, precision: int) returns (r: Outcome<seq<seq<seq<Point>>>>)
    ensures !ValidPrecision(precision) ==> r == Refused(BadPrecision)
    ensures ValidPrecision(precision) && encoded == [] ==> r == Refused(Empty)
    ensures r.Decoded? ==> |r.value| == |encoded| && forall i :: 0 <= i < |encoded| ==>
              encoded[i] != [] && Rings(encoded[i], precision) == Decoded(r.value[i])
    ensures r.Refused? && ValidPrecision(precision) && encoded != [] ==>
              exists i :: 0 <= i < |encoded|
                && (forall j :: 0 <= j < i ==> encoded[j] != [] && Rings(encoded[j], precision).Decoded?)
                && if encoded[i] == [] then r.fault == Empty else Rings(encoded[i], precision) == Refused(r.fault)
  {
    hide Rings;
    if !ValidPrecision(precision) {
      return Refused(BadPrecision);
    }
    if |encoded| == 0 {
      return Refused(Empty);
    }
    var coordinates: seq<seq<seq<Point>>> := [];
    for p := 0 to |encoded|
      invariant |coordinates| == p
      invariant forall i :: 0 <= i < p ==> encoded[i] != [] && Rings(encoded[i], precision) == Decoded(coordinates[i])
    {
      if |encoded[p]| == 0 {
        return Refused(Empty);
      }
      var polyCoords := DecodeRings(encoded[p], precision);
      if polyCoords.Refused? {
        return Refused(polyCoords.fault);
      }
      coordinates := coordinates + [polyCoords.value];
    }
    r := Decoded(coordinates);
  }
}
