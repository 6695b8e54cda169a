/**
  The encoder the ring decoder is meant for, as a specification, and the round trip: which rings come
  back, and what happens to strings the encoder did not write.
 */
module PolylineRoundTrip {
  import opened Polyline

  function Zigzag(delta: int): nat {
    if delta < 0 then -2 * delta - 1 else 2 * delta
  }

  /** Five bits a character, low bits first, 32 added while more follow. */
  function EncodeNat(v: nat): (codes: seq<nat>)
    ensures codes != [] && 63 <= codes[0] <= 126
  {
    if v < 32 then [63 + v] else [63 + 32 + v % 32] + EncodeNat(v / 32)
  }

  function EncodePoint(from: Point, to: Point): seq<nat> {
    EncodeNat(Zigzag(to.lon - from.lon)) + EncodeNat(Zigzag(to.lat - from.lat))
  }

  /** Longitude and latitude of each point as differences from the point before, from the origin on. */
  function Encode(ring: seq<Point>): seq<nat> {
    if ring == [] then [] else
    var k := |ring| - 1;
    Encode(ring[..k]) + EncodePoint(Before(ring, k), ring[k])
  }

  function Pow32(k: nat): (p: nat)
    ensures p >= 1
  {
    if k == 0 then 1 else 32 * Pow32(k - 1)
  }

  lemma Pow32Of10()
    ensures Pow32(10) == TWO_TO_50
  {
    assert Pow32(2) == 1024;
    assert Pow32(4) == 1024 * 1024;
    assert Pow32(6) == 1024 * Pow32(4);
    assert Pow32(8) == 1024 * Pow32(6);
    assert Pow32(10) == 1024 * Pow32(8);
  }

  lemma {:induction false} Pow32Monotone(a: nat, b: nat)
    requires a <= b
    ensures Pow32(a) <= Pow32(b)
  {
    if a < b {
      Pow32Monotone(a, b - 1);
    }
  }

  /** Chunk k may be read as long as its weight is below 2^50. */
  lemma WeightOf(k: nat)
    requires k <= 10
    ensures Pow32(k) * 32 > MAX_SAFE <==> k == 10
    ensures Pow32(k) <= TWO_TO_50
  {
    Pow32Of10();
    Pow32Monotone(k, 10);
    if k < 10 {
      Pow32Monotone(k + 1, 10);
    }
  }

  lemma {:induction false} RunAppend(s: State, a: seq<nat>, b: seq<nat>)
    ensures Run(s, a + b) == if Run(s, a).Refused? then Run(s, a) else Run(Run(s, a).value, b)
    decreases |a|
  {
    hide Step;
    if a == [] {
      assert a + b == b;
    } else {
      assert (a + b)[1..] == a[1..] + b;
      if Step(s, a[0]).Decoded? {
        RunAppend(Step(s, a[0]).value, a[1..], b);
      }
    }
  }

  /** v * Pow32(k) without multiplying two variables. */
  function Scaled(v: nat, k: nat): nat {
    if k == 0 then v else 32 * Scaled(v, k - 1)
  }

  lemma {:induction false} ScaledIsProduct(v: nat, k: nat)
    ensures Scaled(v, k) == v * Pow32(k)
  {
    if k > 0 {
      ScaledIsProduct(v, k - 1);
      assert v * (32 * Pow32(k - 1)) == 32 * (v * Pow32(k - 1));
    }
  }

  lemma {:induction false} ScaledSplit(v: nat, k: nat)
    ensures Scaled(v, k) == Scaled(v % 32, k) + Scaled(v / 32, k + 1)
  {
    if k > 0 {
      ScaledSplit(v, k - 1);
    }
  }

  lemma {:induction false} ScaledBound(v: nat, k: nat, n: nat)
    requires v < Pow32(n)
    ensures Scaled(v, k) + Pow32(k) <= Pow32(n + k)
  {
    if k > 0 {
      ScaledBound(v, k - 1, n);
    }
  }

  /** One chunk c of weight Pow32(k), with or without more to follow. */
  lemma ChunkRuns(s: State, c: nat, k: nat, more: bool)
    requires k < 10 && s.multiplier == Pow32(k) && s.u < s.multiplier && c < 32
    ensures var u := s.u + Scaled(c, k);
      && u < Pow32(k + 1)
      && Step(s, if more then 63 + 32 + c else 63 + c)
         == if more then Decoded(s.(u := u, multiplier := Pow32(k + 1), hasMore := true)) else Deliver(s, u)
  {
    hide Deliver, Scaled;
    WeightOf(k);
    WeightOf(k + 1);
    ScaledIsProduct(c, k);
    ScaledBound(c, k, 1);
  }

  /** The rest v of a number, read from chunk k on. */
  lemma {:induction false} NatRuns(s: State, v: nat, k: nat)
    requires k <= 10 && s.multiplier == Pow32(k) && s.u < s.multiplier && (k == 10 ==> v > 0)
    ensures Run(s, EncodeNat(v)) == if v < Pow32(10 - k) then Deliver(s, s.u + Scaled(v, k)) else Refused(UnsafeInteger)
    decreases v
  {
    hide Deliver, Scaled, Step;
    if k == 10 {
      TooManyChunks(s, EncodeNat(v)[0]);
    } else {
      ChunkRuns(s, v % 32, k, v >= 32);
      ScaledSplit(v, k);
      assert Pow32(10 - k) == 32 * Pow32(9 - k);
      if v >= 32 {
        var next := s.(u := s.u + Scaled(v % 32, k), multiplier := Pow32(k + 1), hasMore := true);
        NatRuns(next, v / 32, k + 1);
        DeliverIgnores(s, next, s.u + Scaled(v, k));
      } else {
        Pow32Monotone(1, 10 - k);
        assert v / 32 == 0;
        ScaledZero(k + 1);
      }
    }
  }

  lemma {:induction false} ScaledZero(k: nat)
    ensures Scaled(0, k) == 0
  {
    if k > 0 {
      ScaledZero(k - 1);
    }
  }

  lemma TooManyChunks(s: State, code: nat)
    requires s.multiplier == Pow32(10) && 63 <= code <= 126
    ensures Step(s, code) == Refused(UnsafeInteger)
  {
    WeightOf(10);
  }

  /** A delivery forgets how the delta was read. */
  lemma DeliverIgnores(s: State, t: State, u: nat)
    requires t.prev == s.prev && t.isLon == s.isLon && t.points == s.points
    ensures Deliver(t, u) == Deliver(s, u)
  {
  }

  lemma ZigzagBack(delta: int)
    ensures Unzigzag(Zigzag(delta)) == delta
    ensures Zigzag(delta) < TWO_TO_50 <==> InRange(delta)
  {
  }

  lemma DeltaRuns(s: State, delta: int)
    requires s.u == 0 && s.multiplier == 1
    ensures Run(s, EncodeNat(Zigzag(delta)))
         == if InRange(delta) then Deliver(s, Zigzag(delta)) else Refused(UnsafeInteger)
  {
    hide Deliver, Zigzag;
    NatRuns(s, Zigzag(delta), 0);
    Pow32Of10();
    ZigzagBack(delta);
  }

  /** The state after the points of ring have been read. */
  function After(ring: seq<Point>): State {
    State(Before(ring, |ring|), 0, 1, true, false, ring)
  }

  lemma PointRuns(ring: seq<Point>, p: Point)
    ensures Run(After(ring), EncodePoint(Before(ring, |ring|), p))
         == if ReachablePoint(ring + [p], |ring|) then Decoded(After(ring + [p])) else Refused(UnsafeInteger)
  {
    hide Run, EncodeNat, Zigzag, Unzigzag;
    var s, from := After(ring), Before(ring, |ring|);
    var dlon, dlat := p.lon - from.lon, p.lat - from.lat;
    RunAppend(s, EncodeNat(Zigzag(dlon)), EncodeNat(Zigzag(dlat)));
    DeltaRuns(s, dlon);
    ZigzagBack(dlon);
    ZigzagBack(dlat);
    if Deliver(s, Zigzag(dlon)).Decoded? {
      DeltaRuns(Deliver(s, Zigzag(dlon)).value, dlat);
    }
    assert Before(ring + [p], |ring|) == from;
  }

  /** The decoder follows the encoder exactly as far as the ring is reachable. */
  lemma {:induction false} RingRuns(ring: seq<Point>)
    ensures Run(Start, Encode(ring)) == if Reachable(ring) then Decoded(After(ring)) else Refused(UnsafeInteger)
  {
    if ring != [] {
      hide Run, EncodePoint, ReachablePoint;
      var k := |ring| - 1;
      var front := ring[..k];
      assert ring == front + [ring[k]];
      RingRuns(front);
      RunAppend(Start, Encode(front), EncodePoint(Before(ring, k), ring[k]));
      PointRuns(front, ring[k]);
      FrontReachable(ring);
      assert Before(front, k) == Before(ring, k);
    }
  }

  lemma FrontReachable(ring: seq<Point>)
    requires ring != []
    ensures Reachable(ring) <==> Reachable(ring[..|ring| - 1]) && ReachablePoint(ring, |ring| - 1)
  {
    var front := ring[..|ring| - 1];
    forall i | 0 <= i < |front|
      ensures ReachablePoint(front, i) <==> ReachablePoint(ring, i)
    {
    }
  }

  /**
    Main result: the rings that come back unchanged are the closed ones of at least four points whose
    deltas fit 50 bits and whose coordinates are safe integers. No other ring comes back.

    Closed is meant of the quantised points, first and last the same integers. The original compares
    their quotients by the power of ten. On the globe that is the same, but far off it, at precision 9,
    two integers can have one quotient: there the original also takes rings whose ends differ.
   */
  lemma RoundTrip(ring: seq<Point>, precision: int)
    requires ValidPrecision(precision)
    ensures Ring(Encode(ring), precision) == Decoded(ring) <==> Closed(ring) && |ring| >= 4 && Reachable(ring)
  {
    hide Run, Reachable;
    RingRuns(ring);
  }

  /** Whatever string is accepted, writing its ring anew gives a string for the same ring. */
  lemma AcceptedComesBack(codes: seq<nat>, precision: int)
    requires Ring(codes, precision).Decoded?
    ensures var ring := Ring(codes, precision).value;
      Closed(ring) && |ring| >= 4 && Reachable(ring) && Ring(Encode(ring), precision) == Decoded(ring)
  {
    hide Run;
    StartBounded();
    RunBounded(Start, codes);
    RoundTrip(Ring(codes, precision).value, precision);
  }

  /** At any precision up to 9, degrees on the globe never get near an unsafe integer. */
  lemma GlobeComesBack(ring: seq<Point>, precision: int)
    requires ValidPrecision(precision) && Closed(ring) && |ring| >= 4
    requires forall i :: 0 <= i < |ring| ==>
      -180_000_000_000 <= ring[i].lon <= 180_000_000_000 && -90_000_000_000 <= ring[i].lat <= 90_000_000_000
    ensures Ring(Encode(ring), precision) == Decoded(ring)
  {
    hide Encode, Run;
    RoundTrip(ring, precision);
  }

  /** A path of steps that each fit, straight to an unsafe longitude and straight back. */
  function Spike(n: nat): (ring: seq<Point>)
    ensures |ring| == 2 * n + 1
  {
    seq(2 * n + 1, i requires 0 <= i < 2 * n + 1 => Point((TWO_TO_49 - 1) * (if i <= n then i else 2 * n - i), 0))
  }

  lemma SpikeSteps(n: nat, i: nat)
    requires i <= 2 * n
    ensures var ring := Spike(n);
      InRange(ring[i].lon - Before(ring, i).lon) && ring[i].lat == Before(ring, i).lat
  {
  }

  /** In-range deltas alone are not enough: the coordinates add up. */
  lemma DeltasAloneAreNotEnough(precision: int)
    requires ValidPrecision(precision)
    ensures var ring := Spike(17);
      && Closed(ring) && |ring| >= 4
      && (forall i :: 0 <= i < |ring| ==>
            InRange(ring[i].lon - Before(ring, i).lon) && InRange(ring[i].lat - Before(ring, i).lat))
      && Ring(Encode(ring), precision) == Refused(UnsafeInteger)
  {
    hide Run, Spike, Encode, Reachable;
    var ring := Spike(17);
    forall i | 0 <= i < |ring|
      ensures InRange(ring[i].lon - Before(ring, i).lon) && InRange(ring[i].lat - Before(ring, i).lat)
    {
      SpikeSteps(17, i);
    }
    SpikeEnds(17);
    Overreaches(ring, 17);
    RingRuns(ring);
    SomethingEncoded(ring);
  }

  lemma Overreaches(ring: seq<Point>, i: nat)
    requires i < |ring| && !Safe(ring[i].lon)
    ensures !Reachable(ring)
  {
    assert !ReachablePoint(ring, i);
  }

  lemma SpikeEnds(n: nat)
    ensures Spike(n)[0] == Spike(n)[2 * n] == Point(0, 0) && Spike(n)[n].lon == (TWO_TO_49 - 1) * n
  {
  }

  lemma SomethingEncoded(ring: seq<Point>)
    requires ring != []
    ensures Encode(ring) != []
  {
  }

  lemma RunOne(s: State, code: nat)
    ensures Run(s, [code]) == Step(s, code)
  {
    hide Step;
    assert [code][1..] == [];
    if Step(s, code).Decoded? {
      RunNothing(Step(s, code).value);
    }
  }

  lemma NeedlessChunk(c: nat)
    requires 63 <= c < 95
    ensures Run(Start, [c + 32, 63]) == Run(Start, [c])
  {
    hide Run, Deliver, Step;
    var next := Start.(u := c - 63, multiplier := 32, hasMore := true);
    assert [c + 32, 63] == [c + 32] + [63];
    RunAppend(Start, [c + 32], [63]);
    RunOne(Start, c + 32);
    RunOne(next, 63);
    RunOne(Start, c);
    ZeroChunk(c - 63);
    DeliverIgnores(Start, next, c - 63);
  }

  lemma ZeroChunk(chunk: nat)
    requires chunk < 32
    ensures var next := Start.(u := chunk, multiplier := 32, hasMore := true);
      && Step(Start, 63 + 32 + chunk) == Decoded(next) && Step(next, 63) == Deliver(next, chunk)
      && Step(Start, 63 + chunk) == Deliver(Start, chunk)
  {
    hide Deliver;
  }

  /**
    The decoder also takes a delta that is written with a needless zero chunk. So decoding is not
    injective, and a string that is accepted need not be what the encoder writes.
   */
  lemma LongWaysAreAccepted(c: nat, rest: seq<nat>, precision: int)
    requires 63 <= c < 95
    ensures Ring([c + 32, 63] + rest, precision) == Ring([c] + rest, precision)
  {
    hide Run;
    RunAppend(Start, [c + 32, 63], rest);
    RunAppend(Start, [c], rest);
    NeedlessChunk(c);
  }
}
