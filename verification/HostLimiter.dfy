/**
  The host limiter of the CAP adapter under any interleaving of any number of callers. Every blocking
  point of Wait and every statement of Done is a step of its own; cancellation may strike wherever a
  caller waits. Channels are counters: a send waits for room, a receive takes what is there.
 */
module HostLimiter {
  import opened Options

  datatype Host = Host(name: string)

  /** Where a caller stands. Everything from Checking on holds the host's slot; Flying holds a global one. */
  datatype Phase =
    | AwaitHost(host: Host)
    | Checking(host: Host)
    | Sleeping(host: Host, until: nat)
    | AwaitGlobal(host: Host)
    | Flying(host: Host, start: nat)
    | Stamping(host: Host, finished: nat)
    | Releasing(host: Host)

  predicate Holds(p: Phase) {
    !p.AwaitHost?
  }

  /** What has happened: a request left, or the end of one was written down. */
  datatype Event = Started(host: Host, at: nat) | Ended(host: Host, finished: nat, stamped: nat)

  datatype State = State(
    interval: nat,
    maxParallelHosts: nat,
    clock: nat,
    callers: map<nat, Phase>,
    globalSem: nat,
    hostSem: map<Host, nat>,
    lastEnd: map<Host, nat>,
    log: seq<Event>)

  function Sem(s: State, h: Host): nat {
    if h in s.hostSem then s.hostSem[h] else 0
  }

  datatype Action =
    | Tick(elapsed: nat)
    | Call(c: nat, host: Host)
    | TakeHost(c: nat)
    | Check(c: nat)
    | Wake(c: nat)
    | TakeGlobal(c: nat)
    | Cancel(c: nat)
    | Finish(c: nat)
    | Stamp(c: nat)
    | Release(c: nat)

  predicate Enabled(s: State, a: Action) {
    match a
    case Tick(_) => true
    case Call(c, _) => c !in s.callers
    case TakeHost(c) => c in s.callers && s.callers[c].AwaitHost? && Sem(s, s.callers[c].host) < 1
    case Check(c) => c in s.callers && s.callers[c].Checking?
    case Wake(c) => c in s.callers && s.callers[c].Sleeping? && s.callers[c].until <= s.clock
    case TakeGlobal(c) => c in s.callers && s.callers[c].AwaitGlobal? && s.globalSem < s.maxParallelHosts
    case Cancel(c) => c in s.callers && (s.callers[c].AwaitHost? || s.callers[c].Sleeping? || s.callers[c].AwaitGlobal?)
    case Finish(c) => c in s.callers && s.callers[c].Flying?
    case Stamp(c) => c in s.callers && s.callers[c].Stamping?
    case Release(c) => c in s.callers && s.callers[c].Releasing?
  }

  /** A receive that does not wait: it takes what is there, if anything. */
  function Drain(n: nat): nat {
    if n > 0 then n - 1 else n
  }

  function Step(s: State, a: Action): State
    requires Enabled(s, a)
  {
    match a
    case Tick(elapsed) => s.(clock := s.clock + elapsed)
    case Call(c, h) => s.(callers := s.callers[c := AwaitHost(h)])
    case TakeHost(c) =>
      var h := s.callers[c].host;
      s.(hostSem := s.hostSem[h := Sem(s, h) + 1], callers := s.callers[c := Checking(h)])
    case Check(c) =>
      var h := s.callers[c].host;
      s.(callers := s.callers[c :=
           if h in s.lastEnd && s.clock - s.lastEnd[h] < s.interval
           then Sleeping(h, s.lastEnd[h] + s.interval) else AwaitGlobal(h)])
    case Wake(c) => s.(callers := s.callers[c := AwaitGlobal(s.callers[c].host)])
    case TakeGlobal(c) =>
      var h := s.callers[c].host;
      s.(globalSem := s.globalSem + 1, callers := s.callers[c := Flying(h, s.clock)], log := s.log + [Started(h, s.clock)])
    case Cancel(c) =>
      var h := s.callers[c].host;
      s.(callers := s.callers - {c},
         hostSem := if Holds(s.callers[c]) then s.hostSem[h := Drain(Sem(s, h))] else s.hostSem)
    case Finish(c) =>
      s.(globalSem := Drain(s.globalSem), callers := s.callers[c := Stamping(s.callers[c].host, s.clock)])
    case Stamp(c) =>
      var h := s.callers[c].host;
      s.(lastEnd := s.lastEnd[h := s.clock], callers := s.callers[c := Releasing(h)],
         log := s.log + [Ended(h, s.callers[c].finished, s.clock)])
    case Release(c) =>
      var h := s.callers[c].host;
      s.(hostSem := s.hostSem[h := Drain(Sem(s, h))], callers := s.callers - {c})
  }

  function Initial(interval: nat, maxParallelHosts: int): State {
    State(interval, if maxParallelHosts <= 0 then 1 else maxParallelHosts, 0, map[], 0, map[], map[], [])
  }

  /** The state after a run, if every step of it could be taken. */
  function Run(s: State, run: seq<Action>): Option<State> {
    if run == [] then Some(s) else
    var before := Run(s, run[..|run| - 1]);
    if before.Some? && Enabled(before.value, run[|run| - 1]) then Some(Step(before.value, run[|run| - 1])) else None
  }

  // ----- What every step keeps -----

  /** The callers with a request in flight. */
  function InFlight(s: State): set<nat> {
    set c | c in s.callers && s.callers[c].Flying?
  }

  /** A host's slot is taken exactly when one caller has it. */
  ghost predicate HostSlots(s: State) {
    && (forall c, d :: HoldsSlot(s, c) && HoldsSlot(s, d) && s.callers[c].host == s.callers[d].host ==> c == d)
    && (forall c :: HoldsSlot(s, c) ==> Sem(s, s.callers[c].host) == 1)
    && (forall h :: Sem(s, h) <= 1)
    && (forall h :: Sem(s, h) == 1 ==> exists c :: HoldsSlot(s, c) && s.callers[c].host == h)
  }

  predicate HoldsSlot(s: State, c: nat) {
    c in s.callers && Holds(s.callers[c])
  }

  /** As many global slots are taken as requests are in flight. */
  predicate GlobalSlots(s: State) {
    s.globalSem == |InFlight(s)| <= s.maxParallelHosts
  }

  /** A caller past its check has waited the interval out since the last end on its host. */
  predicate Rested(s: State, c: nat)
    requires c in s.callers
  {
    var p := s.callers[c];
    p.host in s.lastEnd ==>
      match p
      case Sleeping(h, until) => s.lastEnd[h] + s.interval <= until
      case AwaitGlobal(h) => s.lastEnd[h] + s.interval <= s.clock
      case _ => true
  }

  predicate AllRested(s: State) {
    && (forall c :: c in s.callers ==> Rested(s, c))
    && (forall c :: c in s.callers && s.callers[c].Stamping? ==> s.callers[c].finished <= s.clock)
    && (forall h :: h in s.lastEnd ==> s.lastEnd[h] <= s.clock)
  }

  predicate LogSpaced(s: State) {
    && (forall i :: 0 <= i < |s.log| && s.log[i].Ended? ==>
          s.log[i].host in s.lastEnd && s.log[i].stamped <= s.lastEnd[s.log[i].host]
          && s.log[i].finished <= s.log[i].stamped)
    && (forall i, j :: 0 <= i < j < |s.log| && s.log[i].Ended? && s.log[j].Started? && s.log[i].host == s.log[j].host ==>
          s.log[i].stamped + s.interval <= s.log[j].at)
  }

  predicate Spaced(s: State) {
    AllRested(s) && LogSpaced(s)
  }

  ghost predicate Inv(s: State) {
    HostSlots(s) && GlobalSlots(s) && Spaced(s) && s.maxParallelHosts >= 1
  }

  lemma RestedStep(s: State, a: Action)
    requires HostSlots(s) && AllRested(s) && Enabled(s, a)
    ensures AllRested(Step(s, a))
  {
  }

  lemma LogSpacedStep(s: State, a: Action)
    requires AllRested(s) && LogSpaced(s) && Enabled(s, a)
    ensures LogSpaced(Step(s, a))
  {
    if a.TakeGlobal? {
      assert Rested(s, a.c);
    }
  }

  lemma SpacedStep(s: State, a: Action)
    requires HostSlots(s) && Spaced(s) && Enabled(s, a)
    ensures Spaced(Step(s, a))
  {
    hide AllRested, LogSpaced, Step;
    RestedStep(s, a);
    LogSpacedStep(s, a);
  }

  lemma GlobalSlotsStep(s: State, a: Action)
    requires GlobalSlots(s) && Enabled(s, a)
    ensures GlobalSlots(Step(s, a))
  {
    var s' := Step(s, a);
    match a
    case TakeGlobal(c) => assert InFlight(s') == InFlight(s) + {c};
    case Finish(c) => assert InFlight(s') == InFlight(s) - {c};
    case _ => assert InFlight(s') == InFlight(s);
  }

  predicate SameHold(s: State, t: State, c: nat) {
    (HoldsSlot(s, c) <==> HoldsSlot(t, c)) && (HoldsSlot(s, c) ==> s.callers[c].host == t.callers[c].host)
  }

  lemma SameHolders(s: State, t: State)
    requires HostSlots(s) && t.hostSem == s.hostSem && forall c :: SameHold(s, t, c)
    ensures HostSlots(t)
  {
    forall h
      ensures Sem(t, h) <= 1 && (Sem(t, h) == 1 ==> exists c :: HoldsSlot(t, c) && t.callers[c].host == h)
    {
      assert Sem(t, h) == Sem(s, h);
      if Sem(s, h) == 1 {
        var c :| HoldsSlot(s, c) && s.callers[c].host == h;
        assert SameHold(s, t, c);
      }
    }
    forall c | HoldsSlot(t, c)
      ensures HoldsSlot(s, c) && s.callers[c].host == t.callers[c].host
    {
      assert SameHold(s, t, c);
    }
  }

  lemma OneMoreHolder(s: State, t: State, c: nat)
    requires HostSlots(s) && !HoldsSlot(s, c) && HoldsSlot(t, c)
    requires var h := t.callers[c].host; Sem(s, h) == 0 && t.hostSem == s.hostSem[h := 1]
    requires forall d :: d != c ==> SameHold(s, t, d)
    ensures HostSlots(t)
  {
    forall h
      ensures Sem(t, h) <= 1 && (Sem(t, h) == 1 ==> exists d :: HoldsSlot(t, d) && t.callers[d].host == h)
    {
      if h != t.callers[c].host {
        assert Sem(t, h) == Sem(s, h);
        if Sem(s, h) == 1 {
          var d :| HoldsSlot(s, d) && s.callers[d].host == h;
          assert SameHold(s, t, d);
        }
      }
    }
    forall d | d != c && HoldsSlot(t, d)
      ensures HoldsSlot(s, d) && s.callers[d].host == t.callers[d].host
    {
      assert SameHold(s, t, d);
    }
  }

  lemma OneHolderLess(s: State, t: State, c: nat)
    requires HostSlots(s) && HoldsSlot(s, c) && !HoldsSlot(t, c)
    requires t.hostSem == s.hostSem[s.callers[c].host := 0]
    requires forall d :: d != c ==> SameHold(s, t, d)
    ensures HostSlots(t)
  {
    forall h
      ensures Sem(t, h) <= 1 && (Sem(t, h) == 1 ==> exists d :: HoldsSlot(t, d) && t.callers[d].host == h)
    {
      if h != s.callers[c].host {
        assert Sem(t, h) == Sem(s, h);
        if Sem(s, h) == 1 {
          var d :| HoldsSlot(s, d) && s.callers[d].host == h;
          assert SameHold(s, t, d);
        }
      }
    }
    forall d | HoldsSlot(t, d)
      ensures HoldsSlot(s, d) && s.callers[d].host == t.callers[d].host
    {
      assert SameHold(s, t, d);
    }
  }

  lemma HeldSlot(s: State, c: nat)
    requires HostSlots(s) && HoldsSlot(s, c)
    ensures Sem(s, s.callers[c].host) == 1
  {
  }

  lemma HostSlotsStep(s: State, a: Action)
    requires HostSlots(s) && Enabled(s, a)
    ensures HostSlots(Step(s, a))
  {
    hide HostSlots;
    var t := Step(s, a);
    if a.TakeHost? {
      assert Sem(s, t.callers[a.c].host) == 0;
      OneMoreHolder(s, t, a.c);
    } else if a.Release? || (a.Cancel? && Holds(s.callers[a.c])) {
      HeldSlot(s, a.c);
      OneHolderLess(s, t, a.c);
    } else {
      SameHolders(s, t);
    }
  }

  lemma {:induction false} Reached(interval: nat, maxParallelHosts: int, run: seq<Action>)
    requires Run(Initial(interval, maxParallelHosts), run).Some?
    ensures var s := Run(Initial(interval, maxParallelHosts), run).value;
      Inv(s) && s.interval == interval && s.maxParallelHosts == Initial(interval, maxParallelHosts).maxParallelHosts
  {
    hide HostSlots, GlobalSlots, Spaced;
    if run == [] {
      StartsWell(interval, maxParallelHosts);
    } else {
      var front, a := run[..|run| - 1], run[|run| - 1];
      Reached(interval, maxParallelHosts, front);
      var s := Run(Initial(interval, maxParallelHosts), front).value;
      HostSlotsStep(s, a);
      GlobalSlotsStep(s, a);
      SpacedStep(s, a);
    }
  }

  lemma StartsWell(interval: nat, maxParallelHosts: int)
    ensures Inv(Initial(interval, maxParallelHosts))
  {
    assert InFlight(Initial(interval, maxParallelHosts)) == {};
  }

  // ----- The rules of politeness, for every run -----

  /**
    Main result: whatever the interleaving, one request in flight per host, no more than the limit in
    all, and every request leaves at least the interval after every earlier one on its host has ended.
   */
  lemma Politeness(interval: nat, maxParallelHosts: int, run: seq<Action>)
    requires Run(Initial(interval, maxParallelHosts), run).Some?
    ensures var s := Run(Initial(interval, maxParallelHosts), run).value;
      && (forall c, d :: c in InFlight(s) && d in InFlight(s) && s.callers[c].host == s.callers[d].host ==> c == d)
      && |InFlight(s)| <= (if maxParallelHosts <= 0 then 1 else maxParallelHosts)
      && (forall i, j :: 0 <= i < j < |s.log| && s.log[i].Ended? && s.log[j].Started? && s.log[i].host == s.log[j].host ==>
            s.log[i].finished + interval <= s.log[j].at)
  {
    Reached(interval, maxParallelHosts, run);
    var s := Run(Initial(interval, maxParallelHosts), run).value;
    forall c, d | c in InFlight(s) && d in InFlight(s) && s.callers[c].host == s.callers[d].host
      ensures c == d
    {
      assert HoldsSlot(s, c) && HoldsSlot(s, d);
    }
  }

  /** Done always finds the slots it gives back: neither of its defaults is ever taken. */
  lemma DoneFindsItsSlots(interval: nat, maxParallelHosts: int, run: seq<Action>, c: nat)
    requires Run(Initial(interval, maxParallelHosts), run).Some?
    ensures var s := Run(Initial(interval, maxParallelHosts), run).value;
      && (Enabled(s, Finish(c)) ==> s.globalSem > 0)
      && (Enabled(s, Release(c)) ==> Sem(s, s.callers[c].host) == 1)
      && (Enabled(s, Cancel(c)) && Holds(s.callers[c]) ==> Sem(s, s.callers[c].host) == 1)
  {
    Reached(interval, maxParallelHosts, run);
    var s := Run(Initial(interval, maxParallelHosts), run).value;
    if Enabled(s, Finish(c)) {
      assert c in InFlight(s);
    }
    if Enabled(s, Release(c)) || (Enabled(s, Cancel(c)) && Holds(s.callers[c])) {
      assert HoldsSlot(s, c);
    }
  }

  /** No slot is leaked: when nobody is in a request or waiting for one, every slot is free. */
  lemma NothingLeaks(interval: nat, maxParallelHosts: int, run: seq<Action>)
    requires Run(Initial(interval, maxParallelHosts), run).Some?
    requires Run(Initial(interval, maxParallelHosts), run).value.callers == map[]
    ensures var s := Run(Initial(interval, maxParallelHosts), run).value;
      s.globalSem == 0 && forall h :: Sem(s, h) == 0
  {
    Reached(interval, maxParallelHosts, run);
    var s := Run(Initial(interval, maxParallelHosts), run).value;
    assert InFlight(s) == {};
    assert forall c :: !HoldsSlot(s, c);
  }

  /** A step that brings some caller nearer to its end, once enough time has passed. */
  predicate Progress(a: Action) {
    !a.Tick? && !a.Call? && !a.Cancel?
  }

  /**
    No deadlock: while any caller is waiting or in a request, after some time some caller can move on
    by itself, without anyone being cancelled.
   */
  lemma NoDeadlock(interval: nat, maxParallelHosts: int, run: seq<Action>, c: nat) returns (elapsed: nat, a: Action)
    requires Run(Initial(interval, maxParallelHosts), run).Some?
    requires c in Run(Initial(interval, maxParallelHosts), run).value.callers
    ensures var s := Run(Initial(interval, maxParallelHosts), run).value;
      Progress(a) && Enabled(Step(s, Tick(elapsed)), a)
  {
    Reached(interval, maxParallelHosts, run);
    var s := Run(Initial(interval, maxParallelHosts), run).value;
    if s.callers[c].AwaitHost? {
      var h := s.callers[c].host;
      if Sem(s, h) < 1 {
        elapsed, a := 0, TakeHost(c);
      } else {
        var d :| HoldsSlot(s, d) && s.callers[d].host == h;
        elapsed, a := HolderMoves(s, d);
      }
    } else {
      elapsed, a := HolderMoves(s, c);
    }
  }

  lemma HolderMoves(s: State, c: nat) returns (elapsed: nat, a: Action)
    requires Inv(s) && HoldsSlot(s, c)
    ensures Progress(a) && Enabled(Step(s, Tick(elapsed)), a)
  {
    elapsed := 0;
    match s.callers[c]
    case Checking(_) => a := Check(c);
    case Sleeping(_, until) =>
      elapsed := if until > s.clock then until - s.clock else 0;
      a := Wake(c);
    case AwaitGlobal(_) =>
      if s.globalSem < s.maxParallelHosts {
        a := TakeGlobal(c);
      } else {
        assert InFlight(s) != {};
        var d :| d in InFlight(s);
        a := Finish(d);
      }
    case Flying(_, _) => a := Finish(c);
    case Stamping(_, _) => a := Stamp(c);
    case Releasing(_) => a := Release(c);
  }
}
