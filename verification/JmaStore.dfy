/**
  The durable state of the JMA adapter: spool files, history file, byte budget and feed schedule, each
  with its image in memory. Every method makes at most one durable write, which happens whole or not
  at all, and logs it; a crash can cut in between any two of them.
 */
module JmaStore {
  import opened Options
  import opened JmaLedger

  /** Wall clock and UTC calendar day. Neither goes back. */
  class Clock {
    var now: nat
    var today: nat

    method Now() returns (t: nat)
      modifies this
      ensures now == t >= old(now) && today >= old(today)
    {
      var elapsed: nat, days: nat := *, *;
      now := now + elapsed;
      today := today + days;
      t := now;
    }

    /** Time passes, at least as long as asked. */
    method Sleep(wait: nat)
      modifies this
      ensures now >= old(now) + wait && today >= old(today)
    {
      var t := Now();
      now := now + wait;
    }
  }

  datatype SpoolItem = SpoolItem(url: Url, feed: Url, status: int, attempts: nat)

  datatype Budget = Budget(date: nat, used: int)

  datatype FeedSchedule = FeedSchedule(lastAttemptAt: nat, nextAllowedAt: nat, lastModified: string, etag: string,
                                       consecutiveErrors: nat)

  const NoSchedule := FeedSchedule(0, 0, "", "", 0)

  datatype FeedState = FeedState(feeds: map<Url, FeedSchedule>, globalBackoffUntil: nat)

  datatype StoreError = StatePersistenceFailed | DailyByteLimitExceeded | NegativeAmount | IntegerOverflow

  const MAX_INT64 := 0x7FFF_FFFF_FFFF_FFFF

  function NextAllowed(feeds: map<Url, FeedSchedule>): map<Url, nat> {
    map f | f in feeds :: feeds[f].nextAllowedAt
  }

  function ScheduleIn(feeds: map<Url, FeedSchedule>, feed: Url): FeedSchedule {
    if feed in feeds then feeds[feed] else NoSchedule
  }

  predicate Among(items: seq<SpoolItem>, url: Url) {
    exists k :: 0 <= k < |items| && items[k].url == url
  }

  lemma AmongMore(items: seq<SpoolItem>, item: SpoolItem)
    ensures Among(items + [item], item.url)
    ensures forall u :: Among(items, u) ==> Among(items + [item], u)
  {
    assert (items + [item])[|items|] == item;
    forall u | Among(items, u)
      ensures Among(items + [item], u)
    {
      var k :| 0 <= k < |items| && items[k].url == u;
      assert (items + [item])[k].url == u;
    }
  }

  class Store {
    const terms: Terms
    const dailyLimit: nat
    const clock: Clock

    // On disk.
    var spool: map<Url, SpoolItem>
    var history: set<Url>
    var diskBudget: Budget
    var diskFeedState: FeedState

    // In memory.
    var fetchedURLs: set<Url>
    var budget: Budget
    var feedState: FeedState

    // What happened, and what was committed on the day of the budget, as known in memory and on disk.
    ghost var log: seq<Event>
    ghost var committed: int
    ghost var diskCommitted: int
    ghost var outstanding: int
    ghost var reservations: nat
    ghost var commits: nat

    ghost function Ledger(): Ledger
      reads this`log
    {
      Replay(terms, log)
    }

    /** The disk is what the log says. */
    ghost predicate DiskRecorded()
      reads this`log, this`spool, this`history, this`diskFeedState
    {
      && Legal(terms, log)
      && spool.Keys == Ledger().spool && history == Ledger().history
      && NextAllowed(diskFeedState.feeds) == Ledger().next
      && diskFeedState.globalBackoffUntil == Ledger().pausedUntil
      && (forall u :: u in spool ==> spool[u].url == u)
    }

    /** The budget figure on disk covers what was committed on its day. */
    ghost predicate DiskSolvent()
      reads this`diskBudget, this`diskCommitted, clock`today
    {
      diskBudget.date <= clock.today && 0 <= diskCommitted <= diskBudget.used <= dailyLimit <= MAX_INT64
    }

    /** All that a new process relies on. */
    ghost predicate DiskValid()
      reads this`log, this`spool, this`history, this`diskFeedState, this`diskBudget, this`diskCommitted, clock`today
    {
      DiskRecorded() && DiskSolvent()
    }

    /** So is the memory, until a write fails; a pause is known to it at least as long as to the disk. */
    ghost predicate Recorded()
      reads this`log, this`spool, this`history, this`diskFeedState, this`fetchedURLs, this`feedState
    {
      && DiskRecorded()
      && (!Ledger().failed ==> fetchedURLs == history && feedState == diskFeedState)
      && Ledger().pausedUntil <= feedState.globalBackoffUntil
    }

    /** The budget figure covers what was committed that day and what is reserved, in memory and on disk. */
    ghost predicate Solvent()
      reads this`budget, this`diskBudget, this`committed, this`diskCommitted, this`outstanding, clock`today
    {
      && DiskSolvent() && budget.date <= clock.today
      && 0 <= outstanding && 0 <= committed && committed + outstanding <= budget.used <= dailyLimit <= MAX_INT64
      && diskBudget.date <= budget.date
      && (diskBudget.date == budget.date ==> diskBudget == budget && diskCommitted == committed)
      && (diskBudget.date < budget.date ==> committed == outstanding == 0)
    }

    lemma DiskInOrder()
      requires Valid()
      ensures DiskValid()
    {
    }

    lemma OnDisk(url: Url)
      requires Recorded()
      ensures url in spool <==> url in Ledger().spool
      ensures url in history <==> url in Ledger().history
    {
      assert url in spool <==> url in spool.Keys;
    }

    constructor (terms: Terms, dailyLimit: nat, clock: Clock)
      requires 0 < dailyLimit <= MAX_INT64
      ensures Valid() && log == [] && outstanding == 0
      ensures this.terms == terms && this.dailyLimit == dailyLimit && this.clock == clock
    {
      this.terms, this.dailyLimit, this.clock := terms, dailyLimit, clock;
      spool, history, fetchedURLs := map[], {}, {};
      diskBudget, budget := Budget(clock.today, 0), Budget(clock.today, 0);
      diskFeedState, feedState := FeedState(map[], 0), FeedState(map[], 0);
      log, committed, diskCommitted, outstanding, reservations, commits := [], 0, 0, 0, 0, 0;
    }

    ghost predicate Valid()
      reads this, clock`today
    {
      Recorded() && Solvent()
    }

    /** No event is dated after now. */
    ghost predicate Timely()
      reads this`log, clock`now
    {
      Ledger().clock <= clock.now
    }

    /** Appends to the log. */
    ghost method Note(e: Event)
      requires Legal(terms, log) && Allowed(terms, Ledger(), e)
      modifies this`log
      ensures log == old(log) + [e] && Legal(terms, log) && Ledger() == After(terms, old(Ledger()), e)
      ensures Requests(log) == Requests(old(log)) + SentBy(e)
    {
      OneMore(terms, log, e);
      RequestsMore(log, e);
      log := log + [e];
    }

    // ----- Spool and history -----

    predicate HasSpool(url: Url)
      reads this`spool
    {
      url in spool
    }

    predicate IsFetched(url: Url)
      reads this`fetchedURLs
    {
      url in fetchedURLs
    }

    method SaveSpool(item: SpoolItem) returns (ok: bool)
      requires Recorded()
      modifies this`spool, this`log
      ensures Recorded()
      ensures spool == if ok then old(spool)[item.url := item] else old(spool)
      ensures Ledger() == After(terms, old(Ledger()), if ok then Spooled(item.url) else Failed)
      ensures Requests(log) == Requests(old(log))
    {
      hide Legal, Replay, Requests;
      ok := *;
      if ok {
        spool := spool[item.url := item];
        Note(Spooled(item.url));
      } else {
        Note(Failed);
      }
    }

    method DeleteSpool(url: Url) returns (ok: bool)
      requires Recorded() && url in history && url in Ledger().acknowledged
      modifies this`spool, this`log
      ensures Recorded()
      ensures spool == if ok then old(spool) - {url} else old(spool)
      ensures Ledger() == After(terms, old(Ledger()), if ok then Deleted(url) else Failed)
      ensures Requests(log) == Requests(old(log))
    {
      hide Legal, Replay, Requests;
      ok := *;
      if ok {
        spool := spool - {url};
        Note(Deleted(url));
      } else {
        Note(Failed);
      }
    }

    /** A failed append may have reached the file all the same; the memory image learns of it only on success. */
    method MarkFetched(url: Url) returns (ok: bool)
      requires Recorded() && url in spool
      modifies this`history, this`fetchedURLs, this`log
      ensures Recorded()
      ensures old(history) <= history <= old(history) + {url}
      ensures ok && !old(Ledger()).failed ==> url in history
      ensures fetchedURLs == if ok then old(fetchedURLs) + {url} else old(fetchedURLs)
      ensures Ledger() == old(Ledger()).(history := history, failed := old(Ledger()).failed || !ok)
      ensures old(Ledger()).history == old(history)
      ensures Requests(log) == Requests(old(log))
    {
      hide Legal, Replay, Requests;
      if url in fetchedURLs {
        return true;
      }
      var written: bool := *;
      var synced: bool := *;
      if written {
        history := history + {url};
        Note(Marked(url));
      }
      if !written || !synced {
        Note(Failed);
        return false;
      }
      fetchedURLs := fetchedURLs + {url};
      ok := true;
    }

    /** All items awaiting delivery, in any order, or nothing if the directory cannot be read. */
    method ListSpool() returns (r: Option<seq<SpoolItem>>)
      requires Recorded()
      modifies this`log
      ensures Recorded()
      ensures Ledger() == if r.None? then After(terms, old(Ledger()), Failed) else old(Ledger())
      ensures r.Some? ==> Listing(r.value)
      ensures Requests(log) == Requests(old(log))
    {
      hide Legal, Replay, Requests;
      var readable: bool := *;
      if !readable {
        Note(Failed);
        return None;
      }
      var items: seq<SpoolItem> := [];
      var rest := spool.Keys;
      while rest != {}
        invariant rest <= spool.Keys
        invariant forall u :: u in spool && u !in rest ==> Among(items, u)
        invariant forall k :: 0 <= k < |items| ==> items[k].url !in rest
        invariant forall k :: 0 <= k < |items| ==> items[k].url in spool && spool[items[k].url] == items[k]
        invariant forall j, k :: 0 <= j < k < |items| ==> items[j].url != items[k].url
        modifies {}
        decreases |rest|
      {
        var u :| u in rest;
        AmongMore(items, spool[u]);
        items := items + [spool[u]];
        rest := rest - {u};
      }
      r := Some(items);
    }

    /** Every spooled item once. */
    ghost predicate Listing(items: seq<SpoolItem>)
      reads this`spool
    {
      && (forall u :: u in spool ==> Among(items, u))
      && (forall k :: 0 <= k < |items| ==> items[k].url in spool && spool[items[k].url] == items[k])
      && (forall j, k :: 0 <= j < k < |items| ==> items[j].url != items[k].url)
    }

    // ----- Byte budget -----

    /** Writes the budget figure, whole or not at all. The disk is in order before and after. */
    method PersistBudget() returns (ok: bool)
      requires Recorded() && DiskSolvent()
      requires budget.date <= clock.today && 0 <= committed <= budget.used <= dailyLimit
      modifies this`diskBudget, this`diskCommitted, this`log
      ensures Recorded() && DiskSolvent()
      ensures ok ==> diskBudget == budget && diskCommitted == committed && log == old(log)
      ensures !ok ==> diskBudget == old(diskBudget) && diskCommitted == old(diskCommitted) && log == old(log) + [Failed]
    {
      ok := *;
      if ok {
        diskBudget := budget;
        diskCommitted := committed;
      } else {
        Note(Failed);
      }
    }

    /** Sets the estimate aside if the day's limit allows it, and not otherwise. */
    method Reserve(estimated: int) returns (err: Option<StoreError>)
      requires Valid() && outstanding == 0
      modifies this`budget, this`diskBudget, this`committed, this`diskCommitted, this`outstanding
      modifies this`reservations, this`log, clock
      ensures Valid() && clock.now >= old(clock.now) && commits == old(commits)
      ensures var used := if old(budget.date) == clock.today then old(budget.used) else 0;
        && (err == Some(NegativeAmount) <==> estimated < 0)
        && (err == Some(DailyByteLimitExceeded) || err == Some(IntegerOverflow) ==> used + estimated > dailyLimit)
        && (err == None ==> used + estimated <= dailyLimit && budget == Budget(clock.today, used + estimated) == diskBudget)
      ensures outstanding == (if err == None then estimated else 0)
      ensures reservations == old(reservations) + if err == None then 1 else 0
      ensures log == old(log) + if err == Some(StatePersistenceFailed) then [Failed] else []
    {
      hide Recorded, Legal, Replay;
      if estimated < 0 {
        return Some(NegativeAmount);
      }
      var now := clock.Now();
      hide DiskSolvent;
      if budget.date != clock.today {
        budget := Budget(clock.today, 0);
        committed := 0;
      }
      assert Solvent();
      if estimated > MAX_INT64 - budget.used {
        return Some(IntegerOverflow);
      }
      if budget.used + estimated > dailyLimit {
        return Some(DailyByteLimitExceeded);
      }
      var oldUsed := budget.used;
      budget := budget.(used := budget.used + estimated);
      var ok := PersistBudget();
      if !ok {
        budget := budget.(used := oldUsed);
        return Some(StatePersistenceFailed);
      }
      outstanding := estimated;
      reservations := reservations + 1;
      err := None;
    }

    /**
      Replaces a reservation by what was really used. Neither the overflow guard nor the clamp at zero
      ever takes effect; a reservation from the day before costs the new day only what was used.
     */
    method Commit(reserved: int, actual: int) returns (err: Option<StoreError>)
      requires Valid() && 0 <= actual <= reserved == outstanding <= dailyLimit
      modifies this`budget, this`diskBudget, this`committed, this`diskCommitted, this`outstanding
      modifies this`commits, this`log, clock
      ensures Valid() && clock.now >= old(clock.now) && outstanding == 0 && commits == old(commits) + 1
      ensures err == None || err == Some(StatePersistenceFailed)
      ensures var sameDay := old(budget.date) == clock.today;
        err == None ==>
          && diskBudget == budget == Budget(clock.today, if sameDay then old(budget.used) - reserved + actual else actual)
          && committed == (if sameDay then old(committed) + actual else actual)
      ensures err != None ==> budget == old(budget) && committed == old(committed)
      ensures log == old(log) + if err == None then [] else [Failed]
    {
      hide Recorded, Legal, Replay;
      if reserved < 0 || actual < 0 {
        return Some(NegativeAmount);
      }
      var now := clock.Now();
      var before := budget;
      ghost var had := committed;
      if budget.date != clock.today {
        budget := Budget(clock.today, actual);
        committed := actual;
      } else {
        var newUsed := budget.used - reserved;
        if actual > MAX_INT64 - newUsed {
          return Some(IntegerOverflow);
        }
        newUsed := newUsed + actual;
        if newUsed < 0 {
          newUsed := 0;
        }
        budget := budget.(used := newUsed);
        committed := committed + actual;
      }
      outstanding := 0;
      commits := commits + 1;
      var ok := PersistBudget();
      if !ok {
        budget := before;
        committed := had;
        return Some(StatePersistenceFailed);
      }
      err := None;
    }

    // ----- Feed schedule -----

    /** Writes the whole feed state, and logs what that amounts to: a pause the disk did not know, and e. */
    method PersistFeedState(ghost e: Option<Event>) returns (ok: bool)
      requires DiskRecorded() && (!Ledger().failed ==> fetchedURLs == history)
      requires Ledger().pausedUntil <= feedState.globalBackoffUntil
      requires e.Some? ==> (e.value.Attempted? || e.value.Scheduled?) && Allowed(terms, Ledger(), e.value)
      requires NextAllowed(feedState.feeds) == if e.Some? then After(terms, Ledger(), e.value).next else Ledger().next
      modifies this`diskFeedState, this`log
      ensures Recorded() && (ok ==> ScheduleKnown() && diskFeedState == feedState)
      ensures !ok ==> diskFeedState == old(diskFeedState)
      ensures Ledger() == if !ok then After(terms, old(Ledger()), Failed)
                          else if e.Some? then After(terms, Caught(old(Ledger())), e.value) else Caught(old(Ledger()))
      ensures Requests(log) == Requests(old(log))
    {
      hide Legal, Replay, Requests;
      ok := *;
      if ok {
        diskFeedState := feedState;
        NoteFeedState(e);
      } else {
        Note(Failed);
      }
    }

    ghost method NoteFeedState(e: Option<Event>)
      requires Legal(terms, log) && Ledger().pausedUntil <= feedState.globalBackoffUntil
      requires e.Some? ==> (e.value.Attempted? || e.value.Scheduled?) && Allowed(terms, Ledger(), e.value)
      modifies this`log
      ensures Legal(terms, log) && Requests(log) == Requests(old(log))
      ensures Ledger() ==
        if e.Some? then After(terms, Caught(old(Ledger())), e.value) else Caught(old(Ledger()))
    {
      hide Legal, Replay, Requests;
      if Ledger().pausedUntil != feedState.globalBackoffUntil {
        Note(Paused(feedState.globalBackoffUntil));
      }
      if e.Some? {
        Note(e.value);
      }
    }

    /** The log once the disk knows the pause that memory knows; the same log if it did before. */
    ghost function Caught(l: Ledger): Ledger
      reads this`feedState
    {
      l.(pausedUntil := feedState.globalBackoffUntil)
    }

    /** The schedule in memory is the one on disk, also after some other write has failed. */
    ghost predicate ScheduleKnown()
      reads this`feedState, this`log
    {
      NextAllowed(feedState.feeds) == Ledger().next
    }

    function GetFeedSchedule(feed: Url): (sch: FeedSchedule)
      reads this`feedState
    {
      ScheduleIn(feedState.feeds, feed)
    }

    lemma ScheduleOf(feed: Url)
      requires ScheduleKnown()
      ensures feed in Ledger().next ==> GetFeedSchedule(feed).nextAllowedAt == Ledger().next[feed]
    {
    }

    /** The schedules of all other feeds. */
    function Others(feed: Url): map<Url, FeedSchedule>
      reads this`feedState
    {
      feedState.feeds - {feed}
    }

    /** What the next conditional request for a feed goes by. */
    function Validators(feed: Url): (string, string)
      reads this`feedState
    {
      (GetFeedSchedule(feed).lastModified, GetFeedSchedule(feed).etag)
    }

    /** The planned minimum, before the request. */
    method RecordFeedAttempt(feed: Url, attemptAt: nat, nextAllowedAt: nat) returns (ok: bool)
      requires Recorded() && ScheduleKnown()
      requires Ledger().clock <= attemptAt && GetFeedSchedule(feed).nextAllowedAt <= attemptAt
      requires nextAllowedAt == attemptAt + terms.Floor(feed)
      modifies this`feedState, this`diskFeedState, this`log
      ensures Recorded() && (ok ==> ScheduleKnown()) && Requests(log) == Requests(old(log))
      ensures Ledger() == After(terms, if ok then Caught(old(Ledger())) else old(Ledger()),
                                if ok then Attempted(feed, attemptAt) else Failed)
      ensures Others(feed) == old(Others(feed))
      ensures feedState == old(feedState).(feeds := old(feedState.feeds)[feed :=
        old(GetFeedSchedule(feed)).(lastAttemptAt := attemptAt, nextAllowedAt := nextAllowedAt)])
    {
      hide Legal, Replay, Requests;
      var sch := GetFeedSchedule(feed).(lastAttemptAt := attemptAt, nextAllowedAt := nextAllowedAt);
      feedState := feedState.(feeds := feedState.feeds[feed := sch]);
      ok := PersistFeedState(Some(Attempted(feed, attemptAt)));
    }

    method RecordFeedSuccess(feed: Url, nextAllowedAt: nat, ghost at: nat) returns (ok: bool)
      requires Recorded() && ScheduleKnown() && feed in Ledger().next
      requires Ledger().clock <= at && at + terms.Floor(feed) <= nextAllowedAt
      modifies this`feedState, this`diskFeedState, this`log
      ensures Recorded() && (ok ==> ScheduleKnown()) && Requests(log) == Requests(old(log))
      ensures Ledger() == After(terms, if ok then Caught(old(Ledger())) else old(Ledger()),
                                if ok then Scheduled(feed, at, nextAllowedAt) else Failed)
      ensures Others(feed) == old(Others(feed))
      ensures feedState == old(feedState).(feeds := old(feedState.feeds)[feed :=
        old(GetFeedSchedule(feed)).(nextAllowedAt := nextAllowedAt, consecutiveErrors := 0)])
    {
      hide Legal, Replay, Requests;
      var sch := GetFeedSchedule(feed).(nextAllowedAt := nextAllowedAt, consecutiveErrors := 0);
      feedState := feedState.(feeds := feedState.feeds[feed := sch]);
      ok := PersistFeedState(Some(Scheduled(feed, at, nextAllowedAt)));
    }

    method RecordFeedFailure(feed: Url, attemptAt: nat, nextAllowedAt: nat, consecutiveErrors: nat, ghost at: nat)
      returns (ok: bool)
      requires Recorded() && ScheduleKnown() && feed in Ledger().next
      requires Ledger().clock <= at && at + terms.Floor(feed) <= nextAllowedAt
      modifies this`feedState, this`diskFeedState, this`log
      ensures Recorded() && (ok ==> ScheduleKnown()) && Requests(log) == Requests(old(log))
      ensures Ledger() == After(terms, if ok then Caught(old(Ledger())) else old(Ledger()),
                                if ok then Scheduled(feed, at, nextAllowedAt) else Failed)
      ensures Others(feed) == old(Others(feed))
      ensures feedState == old(feedState).(feeds := old(feedState.feeds)[feed := old(GetFeedSchedule(feed)).(
        lastAttemptAt := attemptAt, nextAllowedAt := nextAllowedAt, consecutiveErrors := consecutiveErrors)])
    {
      hide Legal, Replay, Requests;
      var sch := GetFeedSchedule(feed).(lastAttemptAt := attemptAt, nextAllowedAt := nextAllowedAt,
                                        consecutiveErrors := consecutiveErrors);
      feedState := feedState.(feeds := feedState.feeds[feed := sch]);
      ok := PersistFeedState(Some(Scheduled(feed, at, nextAllowedAt)));
    }

    /** Validators change no schedule. */
    method SaveFeedValidator(feed: Url, lastModified: string, etag: string) returns (ok: bool)
      requires Recorded() && ScheduleKnown() && feed in Ledger().next
      modifies this`feedState, this`diskFeedState, this`log
      ensures Recorded() && (ok ==> ScheduleKnown()) && Requests(log) == Requests(old(log))
      ensures Ledger() == if ok then Caught(old(Ledger())) else After(terms, old(Ledger()), Failed)
      ensures Others(feed) == old(Others(feed))
      ensures feedState == old(feedState).(feeds := old(feedState.feeds)[feed :=
        old(GetFeedSchedule(feed)).(lastModified := lastModified, etag := etag)])
    {
      hide Legal, Replay, Requests;
      var sch := GetFeedSchedule(feed).(lastModified := lastModified, etag := etag);
      feedState := feedState.(feeds := feedState.feeds[feed := sch]);
      ok := PersistFeedState(None);
    }

    /** A pause that ends no earlier than the one on disk. */
    method SetGlobalBackoff(until: nat) returns (ok: bool)
      requires Recorded() && ScheduleKnown() && Ledger().pausedUntil <= until
      modifies this`feedState, this`diskFeedState, this`log
      ensures Recorded() && Requests(log) == Requests(old(log))
      ensures Ledger() == if ok then old(Ledger()).(pausedUntil := until) else After(terms, old(Ledger()), Failed)
      ensures feedState == old(feedState).(globalBackoffUntil := until)
    {
      hide Legal, Replay, Requests;
      feedState := feedState.(globalBackoffUntil := until);
      ok := PersistFeedState(None);
    }

    // ----- Restart -----

    /** The figure on disk if it is of this day; a reservation that was never settled stays spent. */
    method LoadByteBudget()
      requires DiskSolvent()
      modifies this`budget, this`committed, this`outstanding, clock
      ensures Solvent() && outstanding == 0 && clock.now >= old(clock.now)
      ensures budget == if diskBudget.date == clock.today then diskBudget else Budget(clock.today, 0)
    {
      var now := clock.Now();
      if diskBudget.date != clock.today {
        budget := Budget(clock.today, 0);
        committed := 0;
      } else {
        budget := diskBudget;
        committed := diskCommitted;
      }
      outstanding := 0;
    }

    /**
      What a new process finds after the old one stopped anywhere, also between a change in memory and
      its write: memory is gone, and the disk is as it was.
     */
    method Reopen()
      requires DiskValid()
      modifies this`fetchedURLs, this`budget, this`feedState, this`committed, this`outstanding, this`log, clock
      ensures Valid() && outstanding == 0 && clock.now >= old(clock.now)
      ensures log == old(log) + [Booted] && Ledger() == After(terms, old(Ledger()), Booted) && ScheduleKnown()
      ensures fetchedURLs == history && feedState == diskFeedState
      ensures budget == if diskBudget.date == clock.today then diskBudget else Budget(clock.today, 0)
    {
      hide Legal, Replay, Solvent, DiskSolvent;
      LoadByteBudget();
      fetchedURLs := history;
      feedState := diskFeedState;
      Note(Booted);
    }
  }
}
