/**
  The earthquake store of the web client: snapshots, cached snapshots, stream events and filter
  changes race, and the newest version of an event wins. Each handler is one atomic step.
 */
module Earthquakes {
  import opened Options

  datatype Quake = Quake(id: nat, updated: int, occurred: int, magnitude: Option<real>, isEarthquake: bool, deleted: bool)

  datatype Threshold = AllMagnitudes | AtLeast(magnitude: real)

  datatype Filter = Filter(hours: real, minMagnitude: Threshold, allTypes: bool)

  /** A field of a filter as it arrives: left out, not usable, or usable. */
  datatype Field<+T> = Absent | Unusable | Given(value: T)

  datatype PartialFilter = PartialFilter(hours: Field<real>, minMagnitude: Field<Threshold>, allTypes: Field<bool>)

  const MAX_WINDOW_MS := 168 * 60 * 60 * 1000
  const MAX_SNAPSHOT_CACHES := 16

  function BoundedFilter(p: PartialFilter): (f: Filter)
    ensures 1.0 <= f.hours <= 168.0
  {
    Filter(if !p.hours.Given? then 24.0 else if p.hours.value < 1.0 then 1.0
           else if p.hours.value > 168.0 then 168.0 else p.hours.value,
           if p.minMagnitude.Given? then p.minMagnitude.value else AtLeast(2.5),
           p.allTypes.Given? && p.allTypes.value)
  }

  /** The current filter with the fields that were given laid over it. */
  function Overlaid(f: Filter, p: PartialFilter): PartialFilter {
    PartialFilter(if p.hours.Absent? then Given(f.hours) else p.hours,
                  if p.minMagnitude.Absent? then Given(f.minMagnitude) else p.minMagnitude,
                  if p.allTypes.Absent? then Given(f.allTypes) else p.allTypes)
  }

  predicate Matches(f: Filter, e: Quake, now: int) {
    && !e.deleted
    && (f.minMagnitude.AtLeast? ==> e.magnitude.Some? && e.magnitude.value >= f.minMagnitude.magnitude)
    && (f.allTypes || e.isEarthquake)
    && e.occurred as real >= now as real - f.hours * 3600000.0
  }

  /** Older than any window a filter can have. */
  predicate Expired(e: Quake, now: int) {
    e.occurred < now - MAX_WINDOW_MS
  }

  /** Fields that were left out stay, a usable one within bounds is taken over, and bounding is idempotent. */
  lemma FilterFields(f: Filter, p: PartialFilter)
    requires 1.0 <= f.hours <= 168.0
    ensures var g := BoundedFilter(Overlaid(f, p));
      && (p.hours.Absent? ==> g.hours == f.hours)
      && (p.hours.Given? && 1.0 <= p.hours.value <= 168.0 ==> g.hours == p.hours.value)
      && (p.minMagnitude.Absent? ==> g.minMagnitude == f.minMagnitude)
      && (p.minMagnitude.Given? ==> g.minMagnitude == p.minMagnitude.value)
      && (p.allTypes.Absent? ==> g.allTypes == f.allTypes) && (p.allTypes.Given? ==> g.allTypes == p.allTypes.value)
  {
  }

  /** A wider filter shows more; time alone only takes rows away; a deleted event is never shown. */
  lemma FilterIsMonotone(f: Filter, wider: Filter, e: Quake, now: int, before: int)
    requires f.hours <= wider.hours && (f.allTypes ==> wider.allTypes) && before <= now && wider.hours >= 0.0
    requires wider.minMagnitude.AllMagnitudes?
      || (f.minMagnitude.AtLeast? && wider.minMagnitude.magnitude <= f.minMagnitude.magnitude)
    ensures Matches(f, e, now) ==> Matches(wider, e, before) && !e.deleted
  {
  }

  /**
    The edges of a filter of whole hours: an event is shown up to the millisecond it is that old. A
    deleted one never is, one of unknown magnitude only without a threshold, and at the threshold it is.
    A type other than earthquake is refused unless all are asked for, and never preferred.
   */
  lemma FilterEdges(f: Filter, e: Quake, now: int, hours: nat)
    requires f.hours == hours as real
    ensures Matches(f, e, now) ==> 60 * 60 * 1000 * hours >= now - e.occurred
    ensures Matches(f, e, now) ==> Matches(f, e.(occurred := now - 60 * 60 * 1000 * hours), now)
    ensures !Matches(f, e.(deleted := true), now)
    ensures Matches(f, e, now) && e.magnitude == None ==> f.minMagnitude == AllMagnitudes
    ensures Matches(f, e, now) && f.minMagnitude.AtLeast? ==>
      Matches(f, e.(magnitude := Some(f.minMagnitude.magnitude)), now)
      && forall m: real :: m < f.minMagnitude.magnitude ==> !Matches(f, e.(magnitude := Some(m)), now)
    ensures Matches(f, e, now) ==> Matches(f, e.(isEarthquake := true), now)
    ensures Matches(f, e.(isEarthquake := false), now) <==> f.allTypes && Matches(f, e.(isEarthquake := true), now)
    ensures var plain := Filter(f.hours, AllMagnitudes, true);
      Matches(plain, e, now) <==> !e.deleted && e.occurred >= now - 60 * 60 * 1000 * hours
  {
  }

  function At<T>(m: map<nat, T>, k: nat): Option<T> {
    if k in m then Some(m[k]) else None
  }

  // ----- What one step makes of one event -----

  /** A version meets what is shown: it is taken if it is newer, and then shown if the filter lets it. */
  function Newer(f: Filter, now: int, current: Option<Quake>, e: Quake): Option<Quake> {
    if current.Some? && current.value.updated >= e.updated then current
    else if Matches(f, e, now) then Some(e) else None
  }

  /** The versions of event k in a snapshot, one after the other. */
  function FromBody(f: Filter, now: int, current: Option<Quake>, body: seq<Quake>, k: nat): Option<Quake> {
    if body == [] then current else
    var before := FromBody(f, now, current, body[..|body| - 1], k);
    if body[|body| - 1].id == k then Newer(f, now, before, body[|body| - 1]) else before
  }

  predicate Listed(body: seq<Quake>, k: nat) {
    exists i :: 0 <= i < |body| && body[i].id == k
  }

  /** The last stream event of a key, and its place in the stream. */
  datatype Streamed = Streamed(quake: Quake, sequence: nat)

  /** What a snapshot leaves of event k: the stream has the last word on what it delivered after the baseline. */
  function Projected(f: Filter, now: int, k: nat, current: Option<Quake>, streamed: Option<Streamed>,
                     body: seq<Quake>, baseline: nat): Option<Quake> {
    if streamed.Some? && streamed.value.sequence > baseline then Newer(f, now, current, streamed.value.quake)
    else if Listed(body, k) then FromBody(f, now, current, body, k) else None
  }

  function Trimmed(f: Filter, now: int, current: Option<Quake>): Option<Quake> {
    if current.Some? && Matches(f, current.value, now) then current else None
  }

  // ----- What is assumed about versions -----

  /** All versions there are: each has its own update time, and an event happens once. */
  ghost predicate Consistent(world: iset<Quake>) {
    forall a, b :: a in world && b in world && a.id == b.id ==>
      a.occurred == b.occurred && (a.updated == b.updated ==> a == b)
  }

  /** A snapshot is not older than what the stream had delivered when it was asked for. */
  predicate FreshBody(body: seq<Quake>, baseline: nat, deliveries: seq<Quake>) {
    baseline <= |deliveries| && forall i, j :: 0 <= i < |body| && 0 <= j < baseline && deliveries[j].id == body[i].id ==>
      body[i].updated >= deliveries[j].updated
  }

  /** At least as new as everything the stream delivered of the event. */
  predicate UpToDate(e: Quake, deliveries: seq<Quake>) {
    forall j :: 0 <= j < |deliveries| && deliveries[j].id == e.id ==> e.updated >= deliveries[j].updated
  }

  /** The stream's memory: the last of each event's deliveries and the newest, or the event has expired. */
  predicate Remembered(memory: map<nat, Streamed>, deliveries: seq<Quake>, now: int) {
    && (forall k :: k in memory ==>
          && 1 <= memory[k].sequence <= |deliveries|
          && deliveries[memory[k].sequence - 1] == memory[k].quake && memory[k].quake.id == k)
    && (forall j :: 0 <= j < |deliveries| ==>
          var d := deliveries[j];
          Expired(d, now) || (d.id in memory && j < memory[d.id].sequence && memory[d.id].quake.updated >= d.updated))
  }

  lemma StillRemembered(memory: map<nat, Streamed>, deliveries: seq<Quake>, past: int, now: int, kept: map<nat, Streamed>)
    requires Remembered(memory, deliveries, past) && past <= now
    requires forall k :: k in kept ==> k in memory && kept[k] == memory[k]
    requires forall k :: k in memory && k !in kept ==> Expired(memory[k].quake, now)
    requires HappenOnce(deliveries)
    ensures Remembered(kept, deliveries, now)
  {
    hide HappenOnce;
    forall j | 0 <= j < |deliveries| && !Expired(deliveries[j], now)
      ensures var d := deliveries[j]; d.id in kept && j < kept[d.id].sequence && kept[d.id].quake.updated >= d.updated
    {
      var d := deliveries[j];
      assert !Expired(d, past);
      OneTime(deliveries, memory[d.id].sequence - 1, j);
    }
  }

  predicate HappenOnce(deliveries: seq<Quake>) {
    forall i, j :: 0 <= i < |deliveries| && 0 <= j < |deliveries| && deliveries[i].id == deliveries[j].id ==>
      deliveries[i].occurred == deliveries[j].occurred
  }

  lemma OneTime(deliveries: seq<Quake>, i: nat, j: nat)
    requires HappenOnce(deliveries) && i < |deliveries| && j < |deliveries| && deliveries[i].id == deliveries[j].id
    ensures deliveries[i].occurred == deliveries[j].occurred
  {
  }

  lemma OneMoreRemembered(memory: map<nat, Streamed>, deliveries: seq<Quake>, now: int, e: Quake)
    requires Remembered(memory, deliveries, now)
    requires forall j :: 0 <= j < |deliveries| && deliveries[j].id == e.id ==> deliveries[j].occurred == e.occurred
    requires e.id in memory ==> memory[e.id].quake.updated < e.updated
    ensures Remembered(memory[e.id := Streamed(e, |deliveries| + 1)], deliveries + [e], now)
    ensures Expired(e, now) || UpToDate(e, deliveries + [e])
  {
    var memory', deliveries' := memory[e.id := Streamed(e, |deliveries| + 1)], deliveries + [e];
    forall j | 0 <= j < |deliveries'|
      ensures var d := deliveries'[j];
        Expired(d, now) || (d.id in memory' && j < memory'[d.id].sequence && memory'[d.id].quake.updated >= d.updated)
    {
      if j < |deliveries| {
        assert deliveries'[j] == deliveries[j];
      }
    }
  }

  /** A new delivery cannot make another event's version, or a version as new, out of date. */
  lemma StillUpToDate(e: Quake, deliveries: seq<Quake>, d: Quake)
    requires UpToDate(e, deliveries) && (d.id == e.id ==> e.updated >= d.updated)
    ensures UpToDate(e, deliveries + [d])
  {
  }

  lemma StillFresh(body: seq<Quake>, baseline: nat, deliveries: seq<Quake>, d: Quake)
    requires FreshBody(body, baseline, deliveries)
    ensures FreshBody(body, baseline, deliveries + [d])
  {
  }

  // ----- Newest version wins -----

  /** Whatever is merged from a fresh snapshot body is up to date or does not match. */
  lemma SnapshotIsUpToDate(world: iset<Quake>, f: Filter, now: int, memory: map<nat, Streamed>, deliveries: seq<Quake>,
                           body: seq<Quake>, baseline: nat, i: nat)
    requires Consistent(world) && f.hours <= 168.0 && Remembered(memory, deliveries, now)
    requires FreshBody(body, baseline, deliveries) && i < |body| && body[i] in world
    requires forall j :: 0 <= j < |deliveries| ==> deliveries[j] in world
    requires body[i].id in memory ==> memory[body[i].id].sequence <= baseline
    ensures UpToDate(body[i], deliveries) || !Matches(f, body[i], now)
  {
    if Matches(f, body[i], now) {
      forall j | 0 <= j < |deliveries| && deliveries[j].id == body[i].id
        ensures body[i].updated >= deliveries[j].updated
      {
        assert !Expired(deliveries[j], now);
      }
    }
  }

  lemma StreamIsUpToDate(world: iset<Quake>, f: Filter, now: int, memory: map<nat, Streamed>, deliveries: seq<Quake>,
                         k: nat)
    requires Consistent(world) && f.hours <= 168.0 && Remembered(memory, deliveries, now) && k in memory
    requires forall j :: 0 <= j < |deliveries| ==> deliveries[j] in world
    ensures UpToDate(memory[k].quake, deliveries) || !Matches(f, memory[k].quake, now)
  {
    if Matches(f, memory[k].quake, now) {
      forall j | 0 <= j < |deliveries| && deliveries[j].id == k
        ensures memory[k].quake.updated >= deliveries[j].updated
      {
        assert !Expired(deliveries[j], now);
      }
    }
  }

  lemma {:induction false} BodyKeepsUpToDate(world: iset<Quake>, f: Filter, now: int, memory: map<nat, Streamed>,
                            deliveries: seq<Quake>, body: seq<Quake>, baseline: nat, current: Option<Quake>, k: nat, n: nat)
    requires Consistent(world) && f.hours <= 168.0 && Remembered(memory, deliveries, now)
    requires FreshBody(body, baseline, deliveries) && forall i :: 0 <= i < |body| ==> body[i] in world
    requires forall j :: 0 <= j < |deliveries| ==> deliveries[j] in world
    requires k in memory ==> memory[k].sequence <= baseline
    requires current.Some? ==> current.value.id == k && UpToDate(current.value, deliveries)
    requires n <= |body|
    ensures var r := FromBody(f, now, current, body[..n], k);
      r.Some? ==> r.value.id == k && UpToDate(r.value, deliveries) && (r == current || r.value in world)
  {
    if n > 0 {
      assert body[..n][..n - 1] == body[..n - 1];
      BodyKeepsUpToDate(world, f, now, memory, deliveries, body, baseline, current, k, n - 1);
      if body[n - 1].id == k {
        SnapshotIsUpToDate(world, f, now, memory, deliveries, body, baseline, n - 1);
      }
    }
  }

  /** No snapshot, fresh or cached, ever brings back a version older than one the stream has delivered. */
  lemma NeverOlder(world: iset<Quake>, f: Filter, now: int, memory: map<nat, Streamed>, deliveries: seq<Quake>,
                   body: seq<Quake>, baseline: nat, current: Option<Quake>, k: nat)
    requires Consistent(world) && f.hours <= 168.0 && Remembered(memory, deliveries, now)
    requires FreshBody(body, baseline, deliveries) && forall i :: 0 <= i < |body| ==> body[i] in world
    requires forall j :: 0 <= j < |deliveries| ==> deliveries[j] in world
    requires current.Some? ==> current.value.id == k && current.value in world && UpToDate(current.value, deliveries)
    ensures var r := Projected(f, now, k, current, At(memory, k), body, baseline);
      r.Some? ==> r.value.id == k && r.value in world && UpToDate(r.value, deliveries)
  {
    if k in memory && memory[k].sequence > baseline {
      StreamIsUpToDate(world, f, now, memory, deliveries, k);
    } else {
      BodyKeepsUpToDate(world, f, now, memory, deliveries, body, baseline, current, k, |body|);
      assert body[..|body|] == body;
    }
  }

  /**
    Newest version wins: once the newest version of an event has come over the stream, applying any
    snapshot whose baseline precedes its arrival leaves it shown exactly when it passes the filter.
   */
  lemma NewestWins(world: iset<Quake>, f: Filter, now: int, memory: map<nat, Streamed>, deliveries: seq<Quake>,
                   body: seq<Quake>, baseline: nat, current: Option<Quake>, j: nat)
    requires Consistent(world) && f.hours <= 168.0 && Remembered(memory, deliveries, now)
    requires FreshBody(body, baseline, deliveries) && forall i :: 0 <= i < |body| ==> body[i] in world
    requires forall i :: 0 <= i < |deliveries| ==> deliveries[i] in world
    requires baseline <= j < |deliveries|
    requires forall w :: w in world && w.id == deliveries[j].id ==> w.updated <= deliveries[j].updated
    requires current.Some? ==>
      current.value.id == deliveries[j].id && current.value in world && UpToDate(current.value, deliveries)
    ensures var v := deliveries[j];
      Trimmed(f, now, Projected(f, now, v.id, current, At(memory, v.id), body, baseline))
      == if Matches(f, v, now) then Some(v) else None
  {
    var v := deliveries[j];
    NeverOlder(world, f, now, memory, deliveries, body, baseline, current, v.id);
    if Matches(f, v, now) {
      assert !Expired(v, now);
      assert memory[v.id].quake in world;
    }
  }

  // ----- What a snapshot shows -----

  /** The newest of what is shown of event k and its versions in the body. */
  predicate IsNewest(v: Quake, current: Option<Quake>, body: seq<Quake>, k: nat) {
    && (current == Some(v) || exists i :: 0 <= i < |body| && body[i] == v && v.id == k)
    && (current.Some? ==> current.value.updated <= v.updated)
    && forall i :: 0 <= i < |body| && body[i].id == k ==> body[i].updated <= v.updated
  }

  /** Version i of event k passes the filter, and so does every newer one behind it. */
  predicate Stays(f: Filter, now: int, body: seq<Quake>, k: nat, i: int) {
    && 0 <= i < |body| && body[i].id == k && Matches(f, body[i], now)
    && forall j :: i < j < |body| && body[j].id == k && body[j].updated > body[i].updated ==> Matches(f, body[j], now)
  }

  /**
    What is shown of event k once a body has been applied: nothing if it is not listed, and else the
    newest version if that passes the filter. If it does not, nothing is shown, but for a body that lists
    an older version that passes behind the newest, with no newer refused one behind it.
   */
  ghost predicate Shows(f: Filter, now: int, k: nat, current: Option<Quake>, body: seq<Quake>, shown: Option<Quake>) {
    if !Listed(body, k) then shown == None else
    forall v :: IsNewest(v, current, body, k) ==>
      if Matches(f, v, now) then shown == Some(v)
      else if current == Some(v) || (forall i :: !Stays(f, now, body, k, i)) then shown == None
      else exists i :: Stays(f, now, body, k, i) && shown == Some(body[i])
  }

  lemma {:induction false} NewestExists(current: Option<Quake>, body: seq<Quake>, k: nat) returns (v: Quake)
    requires current.Some? || Listed(body, k)
    ensures IsNewest(v, current, body, k)
  {
    if body == [] {
      v := current.value;
    } else {
      var front, e := body[..|body| - 1], body[|body| - 1];
      if current.Some? || Listed(front, k) {
        v := NewestExists(current, front, k);
        assert forall i :: 0 <= i < |front| ==> front[i] == body[i];
        if e.id == k && e.updated > v.updated {
          v := e;
        }
      } else {
        v := e;
        assert forall i :: 0 <= i < |front| ==> front[i] == body[i] && front[i].id != k;
      }
    }
  }

  /** What the merging of a body amounts to, in terms of which versions stay. */
  lemma {:induction false} BodyShows(f: Filter, now: int, current: Option<Quake>, body: seq<Quake>, k: nat)
    ensures var r := FromBody(f, now, current, body, k);
      && (current.Some? && (forall i :: 0 <= i < |body| && body[i].id == k ==> body[i].updated <= current.value.updated)
          ==> r == current)
      && (forall i :: Stays(f, now, body, k, i) ==> r.Some? && r.value.updated >= body[i].updated)
      && (r.Some? ==>
           || (r == current && forall i :: 0 <= i < |body| && body[i].id == k ==> body[i].updated <= r.value.updated)
           || (exists i :: Stays(f, now, body, k, i) && r == Some(body[i])))
  {
    hide Matches;
    if body != [] {
      var front, e := body[..|body| - 1], body[|body| - 1];
      BodyShows(f, now, current, front, k);
      var before, r := FromBody(f, now, current, front, k), FromBody(f, now, current, body, k);
      assert forall i :: 0 <= i < |front| ==> front[i] == body[i];
      forall i | Stays(f, now, body, k, i)
        ensures r.Some? && r.value.updated >= body[i].updated
      {
        if i < |front| {
          assert Stays(f, now, front, k, i);
        }
      }
      if r.Some? && r != before {
        assert Stays(f, now, body, k, |front|);
      } else if r.Some? && exists i :: Stays(f, now, front, k, i) && r == Some(front[i]) {
        var i :| Stays(f, now, front, k, i) && r == Some(front[i]);
        assert Stays(f, now, body, k, i);
      }
    }
  }

  /** The versions that decide about event k: the stream's last one if it came after the baseline, or the body. */
  function LastWord(k: nat, memory: map<nat, Streamed>, body: seq<Quake>, baseline: nat): seq<Quake> {
    if k in memory && memory[k].sequence > baseline then [memory[k].quake] else body
  }

  lemma MergedShows(world: iset<Quake>, f: Filter, now: int, current: Option<Quake>, body: seq<Quake>, k: nat)
    requires Consistent(world) && Listed(body, k)
    requires forall i :: 0 <= i < |body| ==> body[i] in world
    requires current.Some? ==> current.value.id == k && current.value in world
    ensures Shows(f, now, k, current, body, Trimmed(f, now, FromBody(f, now, current, body, k)))
  {
    hide Matches, FromBody;
    BodyShows(f, now, current, body, k);
    var r := FromBody(f, now, current, body, k);
    forall v | IsNewest(v, current, body, k)
      ensures if Matches(f, v, now) then Trimmed(f, now, r) == Some(v)
        else if current == Some(v) || (forall i :: !Stays(f, now, body, k, i)) then Trimmed(f, now, r) == None
        else exists i :: Stays(f, now, body, k, i) && Trimmed(f, now, r) == Some(body[i])
    {
      if current != Some(v) {
        var n :| 0 <= n < |body| && body[n] == v;
        if Matches(f, v, now) {
          assert Stays(f, now, body, k, n);
        }
      }
    }
  }

  /** What is settled of an event by a snapshot and the trim after it shows the newest version, as stated. */
  lemma SnapshotShows(world: iset<Quake>, f: Filter, now: int, memory: map<nat, Streamed>, body: seq<Quake>,
                      baseline: nat, current: Option<Quake>, k: nat)
    requires Consistent(world) && forall i :: 0 <= i < |body| ==> body[i] in world
    requires k in memory ==> memory[k].quake.id == k && memory[k].quake in world
    requires current.Some? ==> current.value.id == k && current.value in world
    ensures Shows(f, now, k, current, LastWord(k, memory, body, baseline),
                  Trimmed(f, now, Projected(f, now, k, current, At(memory, k), body, baseline)))
  {
    hide Matches, Shows;
    if k in memory && memory[k].sequence > baseline {
      var q := memory[k].quake;
      OneVersion(f, now, current, q);
      MergedShows(world, f, now, current, [q], k);
    } else if Listed(body, k) {
      MergedShows(world, f, now, current, body, k);
    } else {
      NotListed(f, now, k, current, body);
    }
  }

  lemma OneVersion(f: Filter, now: int, current: Option<Quake>, q: Quake)
    ensures Listed([q], q.id) && FromBody(f, now, current, [q], q.id) == Newer(f, now, current, q)
  {
    assert [q][0].id == q.id && [q][..0] == [];
  }

  lemma NotListed(f: Filter, now: int, k: nat, current: Option<Quake>, body: seq<Quake>)
    requires !Listed(body, k)
    ensures Shows(f, now, k, current, body, None)
  {
  }

  /** A body that lists an event once shows its newest version exactly if that passes the filter. */
  lemma ListedOnceShows(f: Filter, now: int, k: nat, current: Option<Quake>, body: seq<Quake>, shown: Option<Quake>,
                        v: Quake)
    requires Shows(f, now, k, current, body, shown) && Listed(body, k) && IsNewest(v, current, body, k)
    requires forall i, j :: 0 <= i < j < |body| ==> body[i].id != k || body[j].id != k
    ensures shown == if Matches(f, v, now) then Some(v) else None
  {
    hide Matches;
    if current != Some(v) && !Matches(f, v, now) {
      var n :| 0 <= n < |body| && body[n] == v;
      assert forall i :: !Stays(f, now, body, k, i);
    }
  }

  /** One that lists it twice need not: the newest version is refused, and an older one behind it comes back. */
  lemma RefusedThenOlder()
    ensures var f := Filter(24.0, AtLeast(2.5), false);
      var newest := Quake(1, 5, 0, Some(2.0), true, false);
      var older := Quake(1, 3, 0, Some(3.0), true, false);
      IsNewest(newest, None, [newest, older], 1) && !Matches(f, newest, 0)
      && Trimmed(f, 0, Projected(f, 0, 1, None, None, [newest, older], 0)) == Some(older)
  {
    var f := Filter(24.0, AtLeast(2.5), false);
    var newest, older := Quake(1, 5, 0, Some(2.0), true, false), Quake(1, 3, 0, Some(3.0), true, false);
    var body := [newest, older];
    assert body[0] == newest && body[1] == older && Listed(body, 1);
    assert body[..1] == [newest] && [newest][..0] == [];
    assert FromBody(f, 0, None, [newest], 1) == None;
  }

  lemma {:induction false} BodyHoldsVersions(world: iset<Quake>, f: Filter, now: int, current: Option<Quake>,
                                             body: seq<Quake>, k: nat)
    requires forall i :: 0 <= i < |body| ==> body[i] in world
    requires current.Some? ==> current.value.id == k && current.value in world
    ensures var r := FromBody(f, now, current, body, k);
      r.Some? ==> r.value.id == k && r.value in world
  {
    if body != [] {
      BodyHoldsVersions(world, f, now, current, body[..|body| - 1], k);
    }
  }

  /**
    Trimming is harmless: once an event has expired, it is not shown after any snapshot, whether the
    stream's memory of it was kept or forgotten.
   */
  lemma ForgettingIsHarmless(world: iset<Quake>, f: Filter, now: int, memory: map<nat, Streamed>, body: seq<Quake>,
                             baseline: nat, current: Option<Quake>, k: nat, past: int)
    requires Consistent(world) && f.hours <= 168.0
    requires k in memory && past <= now && Expired(memory[k].quake, past)
    requires memory[k].quake in world && memory[k].quake.id == k
    requires forall i :: 0 <= i < |body| ==> body[i] in world
    requires current.Some? ==> current.value.id == k && current.value in world
    ensures Trimmed(f, now, Projected(f, now, k, current, At(memory, k), body, baseline)) == None
    ensures Trimmed(f, now, Projected(f, now, k, current, None, body, baseline)) == None
  {
    BodyHoldsVersions(world, f, now, current, body, k);
  }

  lemma ShownAfterDelivery(world: iset<Quake>, f: Filter, now: int, before: map<nat, Quake>, shown: map<nat, Quake>,
                           deliveries: seq<Quake>, e: Quake)
    requires forall k :: k in before ==> before[k].id == k && before[k] in world && UpToDate(before[k], deliveries)
    requires At(shown, e.id) == Newer(f, now, At(before, e.id), e)
    requires forall k :: k != e.id ==> At(shown, k) == At(before, k)
    requires f.hours <= 168.0 && e in world && (Expired(e, now) || UpToDate(e, deliveries + [e]))
    ensures forall k :: k in shown ==> shown[k].id == k && shown[k] in world && UpToDate(shown[k], deliveries + [e])
  {
    hide UpToDate;
    forall k | k in shown
      ensures shown[k].id == k && shown[k] in world && UpToDate(shown[k], deliveries + [e])
    {
      assert At(shown, k) == Some(shown[k]);
      if k in before && shown[k] == before[k] {
        StillUpToDate(before[k], deliveries, e);
      }
    }
  }

  // ----- The store -----

  /** What a snapshot request remembers while it is on its way. */
  datatype Ticket = Ticket(generation: nat, filterRevision: nat, request: nat, baseline: nat, url: Filter)

  datatype Response = NotModified | Body(quakes: seq<Quake>, etag: bool) | Broken

  datatype Cached = Cached(quakes: seq<Quake>, baseline: nat)

  /** The cached addresses in the order in which they were last renewed, and not too many. */
  ghost predicate Ordered(order: seq<Filter>, caches: map<Filter, Cached>) {
    && |order| <= MAX_SNAPSHOT_CACHES
    && (forall u :: u in order <==> u in caches)
    && EachOnceIn(order)
  }

  class EarthquakeStore {
    var earthquakes: map<nat, Quake>
    var filter: Filter
    var snapshotError: bool
    var snapshotInFlight: Option<nat>
    var etagByUrl: set<Filter>
    var snapshotByUrl: map<Filter, Cached>
    var cacheOrder: seq<Filter>
    var generation: nat
    var filterRevision: nat
    var snapshotRequest: nat
    var streamSequence: nat
    var streamByKey: map<nat, Streamed>

    // All versions there are, what the stream delivered, and the latest time seen.
    ghost const world: iset<Quake>
    ghost var deliveries: seq<Quake>
    ghost var clock: int

    ghost predicate Valid()
      reads this`earthquakes, this`filter, this`streamSequence, this`streamByKey, this`snapshotByUrl
      reads this`cacheOrder, this`deliveries, this`clock
    {
      && Consistent(world) && 1.0 <= filter.hours <= 168.0
      && streamSequence == |deliveries| && (forall j :: 0 <= j < |deliveries| ==> deliveries[j] in world)
      && Remembered(streamByKey, deliveries, clock)
      && ShownUpToDate(earthquakes)
      && (forall u :: u in snapshotByUrl ==> Acceptable(snapshotByUrl[u].quakes, snapshotByUrl[u].baseline))
      && Ordered(cacheOrder, snapshotByUrl)
    }

    /** What is shown is never older than what the stream has delivered. */
    ghost predicate ShownUpToDate(shown: map<nat, Quake>)
      reads this`deliveries
    {
      forall k :: k in shown ==> shown[k].id == k && shown[k] in world && UpToDate(shown[k], deliveries)
    }

    /** A snapshot body as the server sends it. */
    ghost predicate Acceptable(body: seq<Quake>, baseline: nat)
      reads this`deliveries
    {
      FreshBody(body, baseline, deliveries) && forall i :: 0 <= i < |body| ==> body[i] in world
    }

    constructor (p: PartialFilter, ghost world: iset<Quake>)
      requires Consistent(world)
      ensures Valid() && filter == BoundedFilter(p) && this.world == world && deliveries == [] && earthquakes == map[]
    {
      earthquakes, filter := map[], BoundedFilter(p);
      snapshotError, snapshotInFlight := false, None;
      etagByUrl, snapshotByUrl, cacheOrder := {}, map[], [];
      generation, filterRevision, snapshotRequest := 0, 0, 0;
      streamSequence, streamByKey := 0, map[];
      this.world, deliveries, clock := world, [], 0;
    }

    /** One version meets what is shown. */
    method Merge(e: Quake, now: int)
      modifies this`earthquakes
      ensures At(earthquakes, e.id) == Newer(filter, now, At(old(earthquakes), e.id), e)
      ensures forall k :: k != e.id ==> At(earthquakes, k) == At(old(earthquakes), k)
    {
      var key := e.id;
      if key in earthquakes && earthquakes[key].updated >= e.updated {
        return;
      }
      if !Matches(filter, e, now) {
        earthquakes := earthquakes - {key};
        return;
      }
      earthquakes := earthquakes[key := e];
    }

    /** Every event becomes what the snapshot and the stream after its baseline make of it. */
    method ApplySnapshot(quakes: seq<Quake>, baseline: nat, now: int)
      requires forall k :: k in streamByKey ==> streamByKey[k].quake.id == k
      modifies this`earthquakes
      ensures forall k ::
        At(earthquakes, k) == (Projected(filter, now, k, At(old(earthquakes), k), At(streamByKey, k), quakes, baseline))
    {
      ghost var before := earthquakes;
      var snapshotKeys: set<nat> := {};
      for i := 0 to |quakes|
        invariant forall k :: k in snapshotKeys <==> Listed(quakes[..i], k)
        invariant forall k ::
          At(earthquakes, k)
          == (if After(k, baseline) then At(before, k) else FromBody(filter, now, At(before, k), quakes[..i], k))
      {
        assert quakes[..i + 1][..i] == quakes[..i];
        ListedMore(quakes[..i], quakes[i]);
        assert quakes[..i + 1] == quakes[..i] + [quakes[i]];
        snapshotKeys := snapshotKeys + {quakes[i].id};
        if !After(quakes[i].id, baseline) {
          Merge(quakes[i], now);
        }
      }
      assert quakes[..|quakes|] == quakes;
      DropUnlisted(snapshotKeys, baseline);
      OverlayStream(baseline, now);
    }

    /** The stream delivered the event after the baseline. */
    predicate After(k: nat, baseline: nat)
      reads this`streamByKey
    {
      k in streamByKey && streamByKey[k].sequence > baseline
    }

    /** What the snapshot leaves out goes, unless the stream knows better. */
    method DropUnlisted(snapshotKeys: set<nat>, baseline: nat)
      modifies this`earthquakes
      ensures forall k ::
        At(earthquakes, k) == (if k in snapshotKeys || After(k, baseline) then At(old(earthquakes), k) else None)
    {
      ghost var before := earthquakes;
      var rest := earthquakes.Keys;
      while rest != {}
        invariant forall k ::
          At(earthquakes, k) == (if k in rest || k in snapshotKeys || After(k, baseline) then At(before, k) else None)
        decreases |rest|
      {
        var key :| key in rest;
        rest := rest - {key};
        if key !in snapshotKeys && !After(key, baseline) {
          earthquakes := earthquakes - {key};
        }
      }
    }

    /** What the stream delivered after the baseline is merged again. */
    method OverlayStream(baseline: nat, now: int)
      requires forall k :: k in streamByKey ==> streamByKey[k].quake.id == k
      modifies this`earthquakes
      ensures forall k ::
        At(earthquakes, k)
        == (if After(k, baseline) then Newer(filter, now, At(old(earthquakes), k), streamByKey[k].quake)
            else At(old(earthquakes), k))
    {
      ghost var before := earthquakes;
      var rest := streamByKey.Keys;
      while rest != {}
        invariant rest <= streamByKey.Keys
        invariant forall k ::
          At(earthquakes, k)
          == (if After(k, baseline) && k !in rest then Newer(filter, now, At(before, k), streamByKey[k].quake)
              else At(before, k))
        decreases |rest|
      {
        var key :| key in rest;
        rest := rest - {key};
        if After(key, baseline) {
          Merge(streamByKey[key].quake, now);
        }
      }
    }

    /** Rows the filter no longer lets through go, and the stream's memory of expired events with them. */
    method Trim(now: int)
      requires Valid() && clock <= now
      modifies this`earthquakes, this`streamByKey, this`clock
      ensures Valid() && clock == now
      ensures forall k ::
        At(earthquakes, k) == Trimmed(filter, now, At(old(earthquakes), k))
      ensures forall k ::
        At(streamByKey, k)
        == (if k in old(streamByKey) && !Expired(old(streamByKey)[k].quake, now) then At(old(streamByKey), k) else None)
    {
      hide Remembered, UpToDate, Consistent, FreshBody, Matches;
      ghost var before, memory := earthquakes, streamByKey;
      EachOnce();
      DropUnmatched(now);
      Forget(now);
      StillRemembered(memory, deliveries, clock, now, streamByKey) by {
        assert forall k :: k in streamByKey ==> At(streamByKey, k) == At(memory, k);
        assert forall k :: k in memory && k !in streamByKey ==> At(streamByKey, k) == None;
      }
      KeepsUpToDate(before, now);
      clock := now;
    }

    method DropUnmatched(now: int)
      modifies this`earthquakes
      ensures forall k ::
        At(earthquakes, k) == Trimmed(filter, now, At(old(earthquakes), k))
    {
      ghost var before := earthquakes;
      var rest := earthquakes.Keys;
      while rest != {}
        invariant rest <= earthquakes.Keys
        invariant forall k ::
          At(earthquakes, k) == (if k in rest then At(before, k) else Trimmed(filter, now, At(before, k)))
        decreases |rest|
      {
        var key :| key in rest;
        rest := rest - {key};
        if !Matches(filter, earthquakes[key], now) {
          earthquakes := earthquakes - {key};
        }
      }
    }

    /** All deliveries of an event happened at one time. */
    lemma EachOnce()
      requires Valid()
      ensures HappenOnce(deliveries)
    {
      hide Remembered, UpToDate, FreshBody;
    }

    /** The same rows or fewer stay up to date. */
    lemma KeepsUpToDate(before: map<nat, Quake>, now: int)
      requires ShownUpToDate(before)
      requires forall k ::
        At(earthquakes, k) == Trimmed(filter, now, At(before, k))
      ensures ShownUpToDate(earthquakes)
    {
      forall k | k in earthquakes
        ensures k in before && earthquakes[k] == before[k]
      {
        assert At(earthquakes, k) == Some(earthquakes[k]);
      }
    }

    method Forget(now: int)
      modifies this`streamByKey
      ensures forall k ::
        At(streamByKey, k)
        == (if k in old(streamByKey) && !Expired(old(streamByKey)[k].quake, now) then At(old(streamByKey), k) else None)
    {
      ghost var before := streamByKey;
      var rest := streamByKey.Keys;
      while rest != {}
        invariant rest <= streamByKey.Keys
        invariant forall k ::
          At(streamByKey, k)
          == (if k in before && (k in rest || !Expired(before[k].quake, now)) then At(before, k) else None)
        decreases |rest|
      {
        var key :| key in rest;
        rest := rest - {key};
        if streamByKey[key].quake.occurred < now - MAX_WINDOW_MS {
          streamByKey := streamByKey - {key};
        }
      }
    }

    /** A 'new' or 'update' event of the stream. A version that is not newer than the last one is ignored. */
    method HandleEvent(e: Quake, now: int)
      requires Valid() && clock <= now && e in world
      modifies this`earthquakes, this`streamByKey, this`streamSequence, this`deliveries, this`clock
      ensures Valid() && clock == now
      ensures var stale := e.id in old(streamByKey) && old(streamByKey)[e.id].quake.updated >= e.updated;
        if stale then earthquakes == old(earthquakes) && deliveries == old(deliveries)
        else
          && deliveries == old(deliveries) + [e] && streamByKey == old(streamByKey)[e.id := Streamed(e, |deliveries|)]
          && At(earthquakes, e.id) == Newer(filter, now, At(old(earthquakes), e.id), e)
          && forall k :: k != e.id ==> At(earthquakes, k) == At(old(earthquakes), k)
    {
      hide Remembered, UpToDate, Consistent, FreshBody, Matches;
      EachOnce();
      StillRemembered(streamByKey, deliveries, clock, now, streamByKey);
      clock := now;
      if !(e.id in streamByKey && streamByKey[e.id].quake.updated >= e.updated) {
        Accept(e, now);
      }
    }

    method Accept(e: Quake, now: int)
      requires Valid() && clock == now && e in world
      requires e.id in streamByKey ==> streamByKey[e.id].quake.updated < e.updated
      modifies this`earthquakes, this`streamByKey, this`streamSequence, this`deliveries
      ensures Valid()
      ensures deliveries == old(deliveries) + [e] && streamByKey == old(streamByKey)[e.id := Streamed(e, |deliveries|)]
      ensures At(earthquakes, e.id) == Newer(filter, now, At(old(earthquakes), e.id), e)
      ensures forall k :: k != e.id ==> At(earthquakes, k) == At(old(earthquakes), k)
    {
      hide Remembered, UpToDate, Consistent, FreshBody, Matches;
      SameTime(e);
      OneMoreRemembered(streamByKey, deliveries, now, e);
      forall u | u in snapshotByUrl
        ensures FreshBody(snapshotByUrl[u].quakes, snapshotByUrl[u].baseline, deliveries + [e])
      {
        StillFresh(snapshotByUrl[u].quakes, snapshotByUrl[u].baseline, deliveries, e);
      }
      ghost var before, had := earthquakes, deliveries;
      streamSequence := streamSequence + 1;
      streamByKey := streamByKey[e.id := Streamed(e, streamSequence)];
      deliveries := deliveries + [e];
      Merge(e, now);
      ShownAfterDelivery(world, filter, now, before, earthquakes, had, e);
    }

    lemma SameTime(e: Quake)
      requires Consistent(world) && e in world && forall j :: 0 <= j < |deliveries| ==> deliveries[j] in world
      ensures forall j :: 0 <= j < |deliveries| && deliveries[j].id == e.id ==> deliveries[j].occurred == e.occurred
    {
    }

    // ----- Snapshots on their way -----

    /** Asks for a snapshot, unless one is on its way already. */
    method LoadSnapshot() returns (ticket: Option<Ticket>)
      requires Valid()
      modifies this`snapshotInFlight, this`snapshotRequest
      ensures Valid()
      ensures ticket.None? <==> old(snapshotInFlight).Some?
      ensures snapshotRequest == old(snapshotRequest) + if ticket.Some? then 1 else 0
      ensures ticket.Some? ==> ticket.value == Ticket(generation, filterRevision, snapshotRequest, |deliveries|, filter)
    {
      if snapshotInFlight.Some? {
        return None;
      }
      snapshotRequest := snapshotRequest + 1;
      snapshotInFlight := Some(snapshotRequest);
      ticket := Some(Ticket(generation, filterRevision, snapshotRequest, streamSequence, filter));
    }

    predicate Current(ticket: Ticket)
      reads this`generation, this`filterRevision, this`snapshotRequest
    {
      ticket.generation == generation && ticket.filterRevision == filterRevision && ticket.request == snapshotRequest
    }

    /**
      A response arrives. One that was overtaken by a disconnect, a new filter or a later request changes
      nothing that is shown. A fresh body is cached and shown, each event in its newest version. An
      unchanged snapshot is applied from the cache, with the baseline it had then.
     */
    method FinishSnapshot(ticket: Ticket, response: Response, now: int)
      requires Valid() && clock <= now && ticket.baseline <= |deliveries|
      requires response.Body? ==> Acceptable(response.quakes, ticket.baseline)
      modifies this`earthquakes, this`snapshotError, this`snapshotInFlight, this`etagByUrl, this`snapshotByUrl
      modifies this`cacheOrder, this`streamByKey, this`clock
      ensures Valid()
      ensures snapshotInFlight ==
        if old(snapshotInFlight) == Some(ticket.request) then None else old(snapshotInFlight)
      ensures snapshotError == if Current(ticket) then response.Broken? else old(snapshotError)
      ensures !Current(ticket) ==> earthquakes == old(earthquakes)
      ensures !Current(ticket) || !response.Body? ==> snapshotByUrl == old(snapshotByUrl) && etagByUrl == old(etagByUrl)
      ensures response.Broken? ==> earthquakes == old(earthquakes)
      ensures Current(ticket) && response.Body? ==>
        && ticket.url in snapshotByUrl && snapshotByUrl[ticket.url] == Cached(response.quakes, ticket.baseline)
        && Applied(now, old(earthquakes), old(streamByKey), response.quakes, ticket.baseline)
      ensures Current(ticket) && response.NotModified? && ticket.url in old(snapshotByUrl) ==>
        var cached := old(snapshotByUrl)[ticket.url];
        Applied(now, old(earthquakes), old(streamByKey), cached.quakes, cached.baseline)
      ensures Current(ticket) && response.NotModified? && ticket.url !in old(snapshotByUrl) ==>
        forall k :: At(earthquakes, k) == Trimmed(filter, now, At(old(earthquakes), k))
    {
      hide Valid, Acceptable, Projected, Trimmed, Applied;
      if snapshotInFlight == Some(ticket.request) {
        snapshotInFlight := None;
      }
      if !Current(ticket) {
        Pass(now);
        return;
      }
      match response
      case Broken =>
        snapshotError := true;
        Pass(now);
      case NotModified =>
        if ticket.url in snapshotByUrl {
          CachedIsAcceptable(ticket.url);
          ApplyAndTrim(snapshotByUrl[ticket.url].quakes, snapshotByUrl[ticket.url].baseline, now);
        } else {
          Trim(now);
        }
        snapshotError := false;
      case Body(quakes, etag) =>
        TakeBody(ticket.url, quakes, etag, ticket.baseline, now);
        snapshotError := false;
    }

    method TakeBody(url: Filter, quakes: seq<Quake>, etag: bool, baseline: nat, now: int)
      requires Valid() && clock <= now && Acceptable(quakes, baseline)
      modifies this`earthquakes, this`etagByUrl, this`snapshotByUrl, this`cacheOrder, this`streamByKey, this`clock
      ensures Valid() && url in snapshotByUrl && snapshotByUrl[url] == Cached(quakes, baseline)
      ensures Applied(now, old(earthquakes), old(streamByKey), quakes, baseline)
    {
      hide Valid, Acceptable, Applied;
      if etag {
        etagByUrl := etagByUrl + {url};
      }
      Remember(url, Cached(quakes, baseline));
      ApplyAndTrim(quakes, baseline, now);
    }

    lemma CachedIsAcceptable(url: Filter)
      requires Valid() && url in snapshotByUrl
      ensures Acceptable(snapshotByUrl[url].quakes, snapshotByUrl[url].baseline)
    {
    }

    /** Nothing but time passes. */
    ghost method Pass(now: int)
      requires Valid() && clock <= now
      modifies this`clock
      ensures Valid() && clock == now
    {
      hide Remembered, UpToDate, Consistent, FreshBody, Matches;
      EachOnce();
      StillRemembered(streamByKey, deliveries, clock, now, streamByKey);
      clock := now;
    }

    /**
      The newest snapshot of an address goes last. All others stay, in their order, but for the one least
      recently renewed if there would be too many.
     */
    method Remember(url: Filter, cached: Cached)
      requires Valid() && Acceptable(cached.quakes, cached.baseline)
      modifies this`snapshotByUrl, this`etagByUrl, this`cacheOrder
      ensures Valid() && url in snapshotByUrl && snapshotByUrl[url] == cached
      ensures var others := Without(old(cacheOrder), url);
        var kept := if |others| < MAX_SNAPSHOT_CACHES then others else others[1..];
        && cacheOrder == kept + [url]
        && etagByUrl == old(etagByUrl) - (if kept == others then {} else {others[0]})
        && forall u :: u in kept ==>
             u in old(snapshotByUrl) && u in snapshotByUrl && snapshotByUrl[u] == old(snapshotByUrl)[u]
    {
      hide Remembered, UpToDate, Consistent, FreshBody, Matches, Without, Ordered, Acceptable;
      Renewed(cacheOrder, snapshotByUrl, url, cached);
      cacheOrder := Without(cacheOrder, url) + [url];
      snapshotByUrl := snapshotByUrl[url := cached];
      if |cacheOrder| > MAX_SNAPSHOT_CACHES {
        var oldestUrl := cacheOrder[0];
        cacheOrder := cacheOrder[1..];
        snapshotByUrl := snapshotByUrl - {oldestUrl};
        etagByUrl := etagByUrl - {oldestUrl};
      }
    }

    /** A snapshot has been applied and trimmed: every event is settled, and shown as it should be. */
    ghost predicate Applied(now: int, before: map<nat, Quake>, memory: map<nat, Streamed>, body: seq<Quake>,
                            baseline: nat)
      reads this`earthquakes, this`filter
    {
      forall k ::
        && At(earthquakes, k) == Settled(now, k, At(before, k), At(memory, k), body, baseline)
        && Shows(filter, now, k, At(before, k), LastWord(k, memory, body, baseline), At(earthquakes, k))
    }

    method ApplyAndTrim(quakes: seq<Quake>, baseline: nat, now: int)
      requires Valid() && clock <= now && Acceptable(quakes, baseline)
      modifies this`earthquakes, this`streamByKey, this`clock
      ensures Valid() && clock == now
      ensures Applied(now, old(earthquakes), old(streamByKey), quakes, baseline)
    {
      hide Remembered, UpToDate, Consistent, FreshBody, Matches, FromBody, Newer, Listed;
      hide Shows;
      Pass(now);
      Identified();
      ghost var before, memory := earthquakes, streamByKey;
      ApplySnapshot(quakes, baseline, now);
      forall k | k in earthquakes
        ensures earthquakes[k].id == k && earthquakes[k] in world && UpToDate(earthquakes[k], deliveries)
      {
        assert At(earthquakes, k) == Some(earthquakes[k]);
        NeverOlder(world, filter, now, streamByKey, deliveries, quakes, baseline, At(before, k), k);
      }
      Trim(now);
      forall k
        ensures Shows(filter, now, k, At(before, k), LastWord(k, memory, quakes, baseline), At(earthquakes, k))
      {
        SnapshotShows(world, filter, now, memory, quakes, baseline, At(before, k), k);
      }
    }

    lemma Identified()
      requires Valid()
      ensures forall k :: k in streamByKey ==> streamByKey[k].quake.id == k && streamByKey[k].quake in world
      ensures Consistent(world)
      ensures forall k :: k in earthquakes ==> earthquakes[k].id == k && earthquakes[k] in world
    {
    }

    /** What a snapshot and the trim after it leave of an event. */
    function Settled(now: int, k: nat, current: Option<Quake>, streamed: Option<Streamed>, body: seq<Quake>,
                     baseline: nat): Option<Quake>
      reads this`filter
    {
      Trimmed(filter, now, Projected(filter, now, k, current, streamed, body, baseline))
    }

    // ----- What else races -----

    method SetFilter(p: PartialFilter, now: int) returns (ticket: Option<Ticket>)
      requires Valid() && clock <= now
      modifies this`filter, this`filterRevision, this`snapshotInFlight, this`snapshotRequest
      modifies this`earthquakes, this`streamByKey, this`clock
      ensures Valid() && filter == BoundedFilter(Overlaid(old(filter), p)) && filterRevision == old(filterRevision) + 1
      ensures ticket == Some(Ticket(generation, filterRevision, snapshotRequest, |deliveries|, filter))
      ensures forall k ::
        At(earthquakes, k) == Trimmed(filter, now, At(old(earthquakes), k))
    {
      hide Remembered, UpToDate, Consistent, FreshBody, Matches;
      filter := BoundedFilter(Overlaid(filter, p));
      filterRevision := filterRevision + 1;
      snapshotInFlight := None;
      Trim(now);
      ticket := LoadSnapshot();
    }

    /** The stream is open: a snapshot still on its way from before no longer counts. */
    method HandleOpen() returns (ticket: Option<Ticket>)
      requires Valid()
      modifies this`snapshotRequest, this`snapshotInFlight
      ensures Valid() && snapshotRequest == old(snapshotRequest) + 2
      ensures ticket == Some(Ticket(generation, filterRevision, snapshotRequest, |deliveries|, filter))
    {
      snapshotRequest := snapshotRequest + 1;
      snapshotInFlight := None;
      ticket := LoadSnapshot();
    }

    method Disconnect()
      requires Valid()
      modifies this`generation, this`snapshotInFlight
      ensures Valid() && generation == old(generation) + 1 && snapshotInFlight == None
    {
      generation := generation + 1;
      snapshotInFlight := None;
    }
  }

  /** Where an address stands in the order, or its length. */
  function Place(s: seq<Filter>, url: Filter): (k: nat)
    ensures k <= |s| && url !in s[..k] && (k < |s| ==> s[k] == url)
  {
    if s == [] || s[0] == url then 0 else
    var k := Place(s[1..], url);
    assert s[..k + 1] == [s[0]] + s[1..][..k];
    k + 1
  }

  function Without(s: seq<Filter>, url: Filter): seq<Filter> {
    var k := Place(s, url);
    if k == |s| then s else s[..k] + s[k + 1..]
  }

  predicate EachOnceIn(s: seq<Filter>) {
    forall i, j :: 0 <= i < j < |s| ==> s[i] != s[j]
  }

  lemma Added(s: seq<Filter>, url: Filter)
    requires EachOnceIn(s) && url !in s
    ensures EachOnceIn(s + [url]) && forall u :: u in s + [url] <==> u in s || u == url
  {
  }

  lemma Headless(s: seq<Filter>)
    requires EachOnceIn(s) && s != []
    ensures EachOnceIn(s[1..]) && forall u :: u in s[1..] <==> u in s && u != s[0]
  {
    assert s == [s[0]] + s[1..];
    assert forall i :: 0 <= i < |s| - 1 ==> s[1..][i] == s[i + 1];
  }

  lemma OneOut(a: seq<Filter>, url: Filter, b: seq<Filter>)
    requires EachOnceIn(a + [url] + b)
    ensures EachOnceIn(a + b) && forall u :: u in a + b <==> u in a + [url] + b && u != url
  {
    var s, r := a + [url] + b, a + b;
    assert s[|a|] == url;
    forall i | 0 <= i < |r|
      ensures r[i] == s[if i < |a| then i else i + 1] && r[i] != url
    {
      var k := if i < |a| then i else i + 1;
      assert r[i] == s[k];
      assert s[k] != s[|a|];
    }
    forall i, j | 0 <= i < j < |r|
      ensures r[i] != r[j]
    {
      assert s[if i < |a| then i else i + 1] != s[if j < |a| then j else j + 1];
    }
  }

  lemma WithoutKeeps(s: seq<Filter>, url: Filter)
    requires EachOnceIn(s)
    ensures var r := Without(s, url); EachOnceIn(r) && |r| <= |s| && forall u :: u in r <==> u in s && u != url
  {
    hide EachOnceIn;
    var k := Place(s, url);
    if k == |s| {
      assert s[..k] == s;
    } else {
      assert s == s[..k] + [url] + s[k + 1..];
      OneOut(s[..k], url, s[k + 1..]);
    }
  }

  /** One snapshot renewed keeps the order that of the caches, and makes room if it must. */
  lemma Renewed(order: seq<Filter>, caches: map<Filter, Cached>, url: Filter, cached: Cached)
    requires Ordered(order, caches)
    ensures var others, all := Without(order, url), caches[url := cached];
      && |others| <= MAX_SNAPSHOT_CACHES && url !in others && (forall u :: u in others ==> u in caches)
      && (|others| < MAX_SNAPSHOT_CACHES ==> Ordered(others + [url], all))
      && (|others| == MAX_SNAPSHOT_CACHES ==>
            && (others + [url])[0] == others[0] && (others + [url])[1..] == others[1..] + [url]
            && others[0] !in others[1..] && Ordered(others[1..] + [url], all - {others[0]}))
  {
    hide EachOnceIn, Without;
    var others := Without(order, url);
    WithoutKeeps(order, url);
    if |others| < MAX_SNAPSHOT_CACHES {
      Added(others, url);
    } else {
      Headless(others);
      Added(others[1..], url);
    }
  }

  lemma ListedMore(body: seq<Quake>, e: Quake)
    ensures forall k :: Listed(body + [e], k) <==> Listed(body, k) || k == e.id
  {
    assert (body + [e])[|body|] == e;
    forall k
      ensures Listed(body + [e], k) <==> Listed(body, k) || k == e.id
    {
      if Listed(body, k) {
        var i :| 0 <= i < |body| && body[i].id == k;
        assert (body + [e])[i].id == k;
      }
    }
  }
}
