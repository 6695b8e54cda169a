/**
  The dedup cache of the WIS2 adapter against its history: expiry maps that are swept when they grow
  answer exactly as a search through all earlier calls would.
 */
module Dedup {

  /** A notification or data id; calls may come without. */
  datatype Id = NoId | Id(text: string)

  /** A call that was not a duplicate: when, and with which ids. */
  datatype Admitted = Admitted(at: int, notificationID: Id, dataID: Id)

  function Ids(history: seq<Admitted>, data: bool, k: nat): Id
    requires k < |history|
  {
    if data then history[k].dataID else history[k].notificationID
  }

  /** Some call admitted less than ttl ago had this id. */
  predicate Recent(history: seq<Admitted>, data: bool, id: Id, ttl: int, now: int) {
    id != NoId && exists k :: 0 <= k < |history| && Ids(history, data, k) == id && now < history[k].at + ttl
  }

  /** The specification: what is admitted over a whole run of calls, by looking back through all of it. */
  predicate Duplicate(history: seq<Admitted>, notificationTTL: int, dataIDTTL: int, now: int,
                      notificationID: Id, dataID: Id) {
    Recent(history, false, notificationID, notificationTTL, now) || Recent(history, true, dataID, dataIDTTL, now)
  }

  function Admissions(calls: seq<Admitted>, notificationTTL: int, dataIDTTL: int): seq<Admitted> {
    if calls == [] then [] else
    var before, c := Admissions(calls[..|calls| - 1], notificationTTL, dataIDTTL), calls[|calls| - 1];
    if Duplicate(before, notificationTTL, dataIDTTL, c.at, c.notificationID, c.dataID) then before else before + [c]
  }

  /** The expiry of an id comes from an admitted call. */
  predicate Sourced(m: map<Id, int>, history: seq<Admitted>, data: bool, ttl: int, id: Id)
    requires id in m
  {
    exists k :: 0 <= k < |history| && Ids(history, data, k) == id && m[id] == history[k].at + ttl
  }

  /** An admitted call that has not expired is in the map. */
  predicate Covered(m: map<Id, int>, history: seq<Admitted>, data: bool, ttl: int, clock: int, k: nat)
    requires k < |history|
  {
    var id := Ids(history, data, k);
    id == NoId || history[k].at + ttl <= clock || (id in m && history[k].at + ttl <= m[id])
  }

  /** The expiry map answers for every id as the history does, now and later. */
  predicate Answers(m: map<Id, int>, history: seq<Admitted>, data: bool, ttl: int, clock: int) {
    && (forall id :: id in m ==> id != NoId && Sourced(m, history, data, ttl, id))
    && (forall k :: 0 <= k < |history| ==> Covered(m, history, data, ttl, clock, k))
  }

  lemma MapIsHistory(m: map<Id, int>, history: seq<Admitted>, data: bool, ttl: int, clock: int, now: int, id: Id)
    requires Answers(m, history, data, ttl, clock) && clock <= now
    ensures Recent(history, data, id, ttl, now) <==> id != NoId && id in m && now < m[id]
  {
    if Recent(history, data, id, ttl, now) {
      var k :| 0 <= k < |history| && Ids(history, data, k) == id && now < history[k].at + ttl;
      assert Covered(m, history, data, ttl, clock, k);
    }
    if id in m && now < m[id] {
      assert Sourced(m, history, data, ttl, id);
    }
  }

  /** Sweeping out what has expired changes no answer. */
  lemma SweptIsHistory(m: map<Id, int>, swept: map<Id, int>, history: seq<Admitted>, data: bool, ttl: int,
                       clock: int, now: int)
    requires Answers(m, history, data, ttl, clock) && clock <= now
    requires forall id :: id in swept ==> id in m && swept[id] == m[id]
    requires forall id :: id in m && now < m[id] ==> id in swept
    ensures Answers(swept, history, data, ttl, now)
  {
    forall id | id in swept
      ensures id != NoId && Sourced(swept, history, data, ttl, id)
    {
      assert Sourced(m, history, data, ttl, id);
    }
    forall k | 0 <= k < |history|
      ensures Covered(swept, history, data, ttl, now, k)
    {
      assert Covered(m, history, data, ttl, clock, k);
    }
  }

  lemma OneMoreAdmitted(m: map<Id, int>, history: seq<Admitted>, data: bool, ttl: int, now: int, c: Admitted)
    requires Answers(m, history, data, ttl, now) && c.at == now
    requires forall k :: 0 <= k < |history| ==> history[k].at <= now
    ensures var id := if data then c.dataID else c.notificationID;
      Answers(if id == NoId then m else m[id := now + ttl], history + [c], data, ttl, now)
  {
    var id := if data then c.dataID else c.notificationID;
    var more, history' := if id == NoId then m else m[id := now + ttl], history + [c];
    forall i | i in more
      ensures i != NoId && Sourced(more, history', data, ttl, i)
    {
      StillSourced(m, history, data, ttl, i, c);
      if i == id {
        assert Ids(history', data, |history|) == i;
      }
    }
    forall k | 0 <= k < |history'|
      ensures Covered(more, history', data, ttl, now, k)
    {
      if k < |history| {
        assert Covered(m, history, data, ttl, now, k);
      }
    }
  }

  lemma StillSourced(m: map<Id, int>, history: seq<Admitted>, data: bool, ttl: int, id: Id, c: Admitted)
    ensures id in m && Sourced(m, history, data, ttl, id) ==> Sourced(m, history + [c], data, ttl, id)
  {
    if id in m && Sourced(m, history, data, ttl, id) {
      var k :| 0 <= k < |history| && Ids(history, data, k) == id && m[id] == history[k].at + ttl;
      assert Ids(history + [c], data, k) == id;
    }
  }

  class Cache {
    const notificationTTL: nat
    const dataIDTTL: nat
    var notifications: map<Id, int>
    var dataIDs: map<Id, int>

    // Every call so far, and those that were admitted.
    ghost var calls: seq<Admitted>
    ghost var clock: int

    ghost function History(): seq<Admitted>
      reads this`calls
    {
      Admissions(calls, notificationTTL, dataIDTTL)
    }

    ghost predicate Valid()
      reads this
    {
      && Answers(notifications, History(), false, notificationTTL, clock)
      && Answers(dataIDs, History(), true, dataIDTTL, clock)
      && (forall k :: 0 <= k < |History()| ==> History()[k].at <= clock)
    }

    constructor (notificationTTL: nat, dataIDTTL: nat)
      ensures Valid() && calls == [] && this.notificationTTL == notificationTTL && this.dataIDTTL == dataIDTTL
    {
      this.notificationTTL, this.dataIDTTL := notificationTTL, dataIDTTL;
      notifications, dataIDs := map[], map[];
      calls, clock := [], 0;
    }

    /** A duplicate exactly if the history says so; the cache then stays as if the call had not come. */
    method CheckOrAdd(now: int, notificationID: Id, dataID: Id) returns (isDuplicate: bool)
      requires Valid() && clock <= now
      modifies this
      ensures Valid() && clock == now && calls == old(calls) + [Admitted(now, notificationID, dataID)]
      ensures isDuplicate <==>
        Duplicate(old(History()), notificationTTL, dataIDTTL, now, notificationID, dataID)
    {
      hide Answers, Recent, Admissions;
      ghost var history, c := History(), Admitted(now, notificationID, dataID);
      OneMoreCall(calls, c, notificationTTL, dataIDTTL);
      Cleanup(now);
      MapIsHistory(notifications, history, false, notificationTTL, now, now, notificationID);
      MapIsHistory(dataIDs, history, true, dataIDTTL, now, now, dataID);
      OneMoreAdmitted(notifications, history, false, notificationTTL, now, c);
      OneMoreAdmitted(dataIDs, history, true, dataIDTTL, now, c);
      calls := calls + [c];
      isDuplicate := false;
      if notificationID != NoId && notificationID in notifications && now < notifications[notificationID] {
        isDuplicate := true;
      }
      if dataID != NoId && dataID in dataIDs && now < dataIDs[dataID] {
        isDuplicate := true;
      }
      if isDuplicate {
        return;
      }
      if notificationID != NoId {
        notifications := notifications[notificationID := now + notificationTTL];
      }
      if dataID != NoId {
        dataIDs := dataIDs[dataID := now + dataIDTTL];
      }
    }

    /** Big maps lose their expired entries. */
    method Cleanup(now: int)
      requires Valid() && clock <= now
      modifies this`notifications, this`dataIDs, this`clock
      ensures Valid() && clock == now
    {
      hide Answers;
      ghost var n, d := notifications, dataIDs;
      if |notifications| > 500 {
        notifications := Sweep(notifications, now);
      }
      if |dataIDs| > 500 {
        dataIDs := Sweep(dataIDs, now);
      }
      SweptIsHistory(n, notifications, History(), false, notificationTTL, clock, now);
      SweptIsHistory(d, dataIDs, History(), true, dataIDTTL, clock, now);
      clock := now;
    }
  }

  lemma OneMoreCall(calls: seq<Admitted>, c: Admitted, notificationTTL: int, dataIDTTL: int)
    ensures var before := Admissions(calls, notificationTTL, dataIDTTL);
      Admissions(calls + [c], notificationTTL, dataIDTTL)
      == if Duplicate(before, notificationTTL, dataIDTTL, c.at, c.notificationID, c.dataID) then before else before + [c]
  {
    hide Duplicate;
    assert (calls + [c])[..|calls|] == calls;
  }

  method Sweep(m: map<Id, int>, now: int) returns (swept: map<Id, int>)
    ensures forall id :: id in swept <==> id in m && now < m[id]
    ensures forall id :: id in swept ==> swept[id] == m[id]
  {
    swept := m;
    var rest := m.Keys;
    while rest != {}
      invariant rest <= m.Keys
      invariant forall id :: id in swept <==> id in m && (id in rest || now < m[id])
      invariant forall id :: id in swept ==> swept[id] == m[id]
      decreases |rest|
    {
      var k :| k in rest;
      rest := rest - {k};
      if m[k] <= now {
        swept := swept - {k};
      }
    }
  }
}
