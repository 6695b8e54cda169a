/**
  The acquisition cycle: replay the spool, poll the feeds, drain what core still wants. Whatever JMA,
  core, the disk and the clock do, the log stays legal, and a failed write latches the process.
 */
module JmaController {
  import opened Options
  import opened JmaLedger
  import opened JmaStore
  import opened JmaClient

  datatype IndexItem = IndexItem(url: Url, feed: Url)

  /** Core, which answers as it likes. What it can ask for comes from some finite set of documents. */
  class Core {
    const universe: set<Url>

    // How many feed indexes core has taken, and which documents were put to it.
    ghost var indexAcks: nat
    ghost var offered: seq<Url>

    // How often core was asked for what it still wants, and its last answer.
    ghost var asked: nat
    ghost var answer: Option<seq<IndexItem>>

    constructor (universe: set<Url>)
      ensures this.universe == universe
    {
      this.universe := universe;
    }

    /** A feed index: accepted or not. */
    method SendIndex() returns (ok: bool)
      modifies this`indexAcks
      ensures indexAcks == old(indexAcks) + if ok then 1 else 0
    {
      ok := *;
      if ok {
        indexAcks := indexAcks + 1;
      }
    }

    /** A failure report: accepted or not. */
    method ReportFailure() returns (ok: bool) {
      ok := *;
    }

    method GetPending(limit: nat) returns (r: Option<seq<IndexItem>>)
      modifies this`asked, this`answer
      ensures asked == old(asked) + 1 && answer == r
      ensures r.Some? ==> forall k :: 0 <= k < |r.value| ==> r.value[k].url in universe
    {
      asked := asked + 1;
      var reachable: bool := *;
      if !reachable {
        answer := None;
        return None;
      }
      var pending: seq<IndexItem> := [];
      for i := 0 to limit
        invariant forall k :: 0 <= k < |pending| ==> pending[k].url in universe
      {
        var item: IndexItem := *;
        if item.url in universe {
          pending := pending + [item];
        }
      }
      answer := Some(pending);
      r := Some(pending);
    }
  }

  predicate Distinct<T(==)>(s: seq<T>) {
    forall j, k :: 0 <= j < k < |s| ==> s[j] != s[k]
  }

  /** Nothing is listed that is neither spooled nor fetched. */
  predicate AllKnown(entries: seq<Url>, spooled: set<Url>, fetched: set<Url>) {
    forall k :: 0 <= k < |entries| ==> entries[k] in spooled + fetched
  }

  /** Requests for documents only, from these. */
  predicate DocumentsFrom(sent: seq<Sent>, urls: set<Url>) {
    forall k :: 0 <= k < |sent| ==> sent[k].Document? && sent[k].url in urls
  }

  /** Each of these has been tried or spooled. */
  predicate DealtOf(urls: set<Url>, tried: seq<Url>, spooled: set<Url>) {
    forall u :: u in urls ==> u in tried || u in spooled
  }

  lemma DealtMore(urls: set<Url>, url: Url, tried: seq<Url>, spooled: set<Url>, tried': seq<Url>, spooled': set<Url>)
    requires DealtOf(urls, tried, spooled) && tried <= tried' && spooled <= spooled'
    ensures DealtOf(urls, tried', spooled')
    ensures url in tried' || url in spooled' ==> DealtOf(urls + {url}, tried', spooled')
  {
    assert forall u :: u in tried ==> u in tried';
  }

  lemma NothingSent()
    ensures Distinct<Sent>([]) && DocumentsFrom([], {})
  {
  }

  lemma SentMore(sent: seq<Sent>, urls: set<Url>, url: Url)
    requires Distinct(sent) && DocumentsFrom(sent, urls) && url !in urls
    ensures DocumentsFrom(sent, urls + {url})
    ensures Distinct(sent + [Document(url)]) && DocumentsFrom(sent + [Document(url)], urls + {url})
  {
  }

  /** The entries of a feed document, each document once; None if it does not parse. */
  method ParseAtomFeed(feed: Url) returns (r: Option<seq<Url>>)
    ensures r.Some? ==> Distinct(r.value)
  {
    var wellformed: bool, links: seq<Url> := *, *;
    if !wellformed {
      return None;
    }
    var entries: seq<Url> := [];
    for i := 0 to |links|
      invariant Distinct(entries)
    {
      if links[i] !in entries {
        entries := entries + [links[i]];
      }
    }
    r := Some(entries);
  }

  class Controller {
    const store: Store
    const client: Client
    const core: Core
    const pollInterval: nat
    const longPollInterval: nat
    const feeds: seq<Url>
    const longFeeds: seq<Url>
    var fatal: bool

    ghost predicate Valid()
      reads this, client, store, store.clock
    {
      && client.store == store && client.Valid()
      && (store.Ledger().failed <==> fatal)
      && (!fatal ==> store.ScheduleKnown() && Accounted({}))
    }

    /** Whatever this process has received, but for these, has been spooled and is in the history. */
    ghost predicate Accounted(but: set<Url>)
      reads store`log
    {
      forall u :: u in store.Ledger().received && u !in but ==>
        u in store.Ledger().everSpooled && u in store.Ledger().history
    }

    /** Valid, but for one document that has been received and waits to be spooled. */
    ghost predicate Holding(url: Url)
      reads this, client, store, store.clock
    {
      && client.store == store && client.Valid()
      && (store.Ledger().failed <==> fatal)
      && (!fatal ==> store.ScheduleKnown() && Accounted({url}))
    }

    constructor (store: Store, client: Client, core: Core, pollInterval: nat, longPollInterval: nat,
                 feeds: seq<Url>, longFeeds: seq<Url>)
      requires client.store == store && client.Valid() && !store.Ledger().failed && store.ScheduleKnown()
      requires store.Ledger().received == {}
      ensures Valid() && !fatal && this.store == store && this.client == client && this.core == core
      ensures this.pollInterval == pollInterval && this.longPollInterval == longPollInterval
      ensures this.feeds == feeds && this.longFeeds == longFeeds
    {
      this.store, this.client, this.core := store, client, core;
      this.pollInterval, this.longPollInterval := pollInterval, longPollInterval;
      this.feeds, this.longFeeds := feeds, longFeeds;
      fatal := false;
    }

    /** Between the calls of one step: everything but the latch is in order. */
    ghost predicate Working()
      reads this, client, store, store.clock
    {
      client.store == store && client.Valid()
    }

    /** Hands one spooled item to core. */
    method SendMessages(url: Url) returns (ok: bool)
      requires Working() && url in store.spool
      modifies store`log, core`offered
      ensures core.offered == old(core.offered) + [url]
      ensures Working() && Requests(store.log) == Requests(old(store.log))
      ensures store.Ledger() ==
        if ok then After(store.terms, old(store.Ledger()), Acknowledged(url)) else old(store.Ledger())
    {
      hide Legal, Replay, Requests;
      ok := *;
      core.offered := core.offered + [url];
      if ok {
        store.OnDisk(url);
        store.Note(Acknowledged(url));
      }
    }

    /** One spooled item: delivered, recorded and forgotten, or kept with one more attempt. */
    method ReplayItem(item: SpoolItem) returns (done: bool)
      requires Valid() && !fatal && item.url in store.spool
      modifies this`fatal, store`spool, store`history, store`fetchedURLs, store`log, core`offered
      ensures Valid() && Requests(store.log) == Requests(old(store.log))
      ensures core.offered == old(core.offered) + [item.url]
      ensures done ==> !fatal && store.spool == old(store.spool) - {item.url}
      ensures !done && !fatal ==> store.spool == old(store.spool)[item.url := item.(attempts := item.attempts + 1)]
      ensures done ==> item.url in store.history && item.url in store.Ledger().acknowledged
      ensures store.spool.Keys <= old(store.spool.Keys) && old(store.history) <= store.history
      ensures old(store.Ledger()).acknowledged <= store.Ledger().acknowledged
    {
      hide Legal, Replay, Requests, Store.Recorded, Store.Solvent;
      done := false;
      var sent := SendMessages(item.url);
      if !sent {
        var saved := store.SaveSpool(item.(attempts := item.attempts + 1));
        if !saved {
          fatal := true;
        }
        return;
      }
      var marked := store.MarkFetched(item.url);
      if !marked {
        fatal := true;
        return;
      }
      var deleted := store.DeleteSpool(item.url);
      if !deleted {
        fatal := true;
        return;
      }
      done := true;
    }

    method ListItems() returns (r: Option<seq<SpoolItem>>)
      requires Valid() && !fatal
      modifies this`fatal, store`log
      ensures Valid() && Requests(store.log) == Requests(old(store.log))
      ensures if r.Some? then !fatal && store.Listing(r.value) else fatal
    {
      hide Legal, Replay, Requests, Store.Listing;
      r := store.ListSpool();
      if r.None? {
        fatal := true;
      }
    }

    /** Has the context been cancelled? Not while it is live. */
    method Cancelled(live: bool) returns (cancelled: bool)
      ensures live ==> !cancelled
    {
      cancelled := *;
      if live {
        cancelled := false;
      }
    }

    /**
      Sends what the spool holds to core, one item at a time, and forgets each item only when core has
      it and the history says so. Unless a write fails or the context is cancelled, it goes on until core
      refuses an item, which is kept, or until the spool is empty and all of it acknowledged.
     */
    method ReplaySpool(live: bool) returns (ghost refused: Option<SpoolItem>)
      requires Valid()
      modifies this`fatal, store`spool, store`history, store`fetchedURLs, store`log, core`offered
      ensures Valid() && (old(fatal) ==> fatal && store.log == old(store.log))
      ensures Requests(store.log) == Requests(old(store.log)) && store.spool.Keys <= old(store.spool.Keys)
      ensures live && !fatal && refused.None? ==> store.spool.Keys == {}
      ensures live && !fatal && refused.None? ==> old(store.spool.Keys) <= store.history * store.Ledger().acknowledged
      ensures refused.Some? ==>
        && !old(fatal) && old(core.offered) < core.offered
        && refused.value.url == core.offered[|core.offered| - 1] && refused.value.url in old(store.spool)
      ensures refused.Some? && !fatal ==>
        && refused.value.url in store.spool
        && store.spool[refused.value.url] == refused.value.(attempts := refused.value.attempts + 1)
    {
      hide Legal, Replay, Requests, Valid;
      refused := None;
      if fatal {
        return;
      }
      ghost var listed := store.spool.Keys;
      var items := ListItems();
      if items.None? {
        return;
      }
      for i := 0 to |items.value|
        invariant Valid() && !fatal && Requests(store.log) == Requests(old(store.log))
        invariant store.spool.Keys <= listed && old(core.offered) <= core.offered
        invariant forall k :: i <= k < |items.value| ==> items.value[k].url in store.spool
        invariant forall k :: 0 <= k < i ==> items.value[k].url !in store.spool
        invariant listed - store.spool.Keys <= store.history * store.Ledger().acknowledged
      {
        var cancelled := Cancelled(live);
        if cancelled {
          return;
        }
        ghost var kept := store.spool.Keys;
        var done := ReplayItem(items.value[i]);
        if !done {
          refused := Some(items.value[i]);
          return;
        }
        assert listed - store.spool.Keys <= (listed - kept) + {items.value[i].url};
      }
    }

    /** Spool, then history, then core, then forget: a downloaded document or a terminal refusal. */
    method IngestItem(item: SpoolItem)
      requires Holding(item.url) && !fatal
      modifies this`fatal, store`spool, store`history, store`fetchedURLs, store`log, core`offered
      ensures Valid() && Requests(store.log) == Requests(old(store.log))
      ensures store.spool.Keys <= old(store.spool.Keys) + {item.url}
      ensures store.history <= old(store.history) + {item.url}
      ensures !fatal ==> item.url in store.Ledger().everSpooled && item.url in store.history
      ensures !fatal ==> core.offered == old(core.offered) + [item.url] && Disposed(item)
      ensures old(store.Ledger()).everSpooled <= store.Ledger().everSpooled
      ensures store.Ledger().received == old(store.Ledger()).received
      ensures SamePolls(store.Ledger(), old(store.Ledger()))
    {
      hide Legal, Replay, Requests, Store.Recorded, Store.Solvent;
      var saved := store.SaveSpool(item);
      if !saved {
        fatal := true;
        return;
      }
      var marked := store.MarkFetched(item.url);
      if !marked {
        fatal := true;
        return;
      }
      assert item.url in store.Ledger().everSpooled && item.url in store.Ledger().history;
      DeliverItem(item);
    }

    /** Core has the item and the spool has forgotten it, or it is kept with one more attempt. */
    ghost predicate Disposed(item: SpoolItem)
      reads store`spool, store`log
    {
      if item.url in store.spool then store.spool[item.url] == item.(attempts := item.attempts + 1)
      else item.url in store.Ledger().acknowledged
    }

    method DeliverItem(item: SpoolItem)
      requires Valid() && !fatal && item.url in store.spool && item.url in store.history
      modifies this`fatal, store`spool, store`log, core`offered
      ensures core.offered == old(core.offered) + [item.url] && (!fatal ==> Disposed(item))
      ensures Valid() && Requests(store.log) == Requests(old(store.log))
      ensures store.spool.Keys <= old(store.spool.Keys)
      ensures old(store.Ledger()).everSpooled <= store.Ledger().everSpooled
      ensures store.Ledger().received == old(store.Ledger()).received
      ensures SamePolls(store.Ledger(), old(store.Ledger()))
    {
      hide Legal, Replay, Requests, Store.Recorded, Store.Solvent;
      var sent := SendMessages(item.url);
      if sent {
        var deleted := store.DeleteSpool(item.url);
        if !deleted {
          fatal := true;
        }
      } else {
        var updated := store.SaveSpool(item.(attempts := item.attempts + 1));
        if !updated {
          fatal := true;
        }
      }
    }

    /**
      Downloads one document that is not known yet and takes it through the spool. A terminal refusal is
      taken through the spool as well; any other failure is only reported. At most one request. Unless a
      write fails, the document is spooled and in the history exactly if it was received or refused for
      good; otherwise nothing has changed, so that it can be asked for again.
     */
    method FetchAndIngestItem(url: Url, feed: Url)
      requires Valid() && (!fatal ==> url !in store.spool && url !in store.history)
      modifies this`fatal, client, store.clock, store, core`offered
      ensures Valid() && (old(fatal) ==> fatal && store.log == old(store.log))
      ensures Requests(store.log) == Requests(old(store.log))
           || Requests(store.log) == Requests(old(store.log)) + [Document(url)]
      ensures store.spool.Keys <= old(store.spool.Keys) + {url} && store.history <= old(store.history) + {url}
      ensures SamePolls(store.Ledger(), old(store.Ledger())) && store.feedState.feeds == old(store.feedState.feeds)
      ensures store.clock.now >= old(store.clock.now)
      ensures store.commits - old(store.commits) == store.reservations - old(store.reservations)
      ensures old(store.Ledger()).received <= store.Ledger().received <= old(store.Ledger()).received + {url}
      ensures url in store.Ledger().received && !fatal ==>
        url in store.Ledger().everSpooled && url in store.history && core.offered == old(core.offered) + [url]
      ensures store.Ledger().received == old(store.Ledger()).received ==> SameDocuments(store.Ledger(), old(store.Ledger()))
      ensures old(store.Ledger()).everSpooled <= store.Ledger().everSpooled
      ensures client.tried == old(client.tried) + if old(fatal) then [] else [url]
    {
      hide Legal, Replay, Requests, Store.Recorded, Store.Solvent;
      if fatal {
        return;
      }
      store.OnDisk(url);
      assert url !in store.Ledger().received;
      var data := client.FetchData(url);
      if data.Ok? {
        IngestItem(SpoolItem(url, feed, 200, 0));
        return;
      }
      if data.error == Refused(DailyByteLimitExceeded) {
        return;
      }
      if Fatal(data.error) {
        fatal := true;
        return;
      }
      if data.error.Upstream? && data.error.status in {400, 404, 410} {
        IngestItem(SpoolItem(url, feed, data.error.status, 0));
        return;
      }
      var reported := core.ReportFailure();
    }

    method PositiveJitter(maxJitter: nat) returns (jitter: nat)
      ensures jitter < maxJitter || jitter == maxJitter == 0
    {
      jitter := *;
      if jitter >= maxJitter {
        jitter := 0;
      }
    }

    /** Doubles with every error in a row, at most six times and at most to six hours, plus jitter. */
    method ComputeExponentialBackoff(floor: nat, consecutiveErrors: nat) returns (backoff: nat)
      ensures consecutiveErrors <= 1 ==> floor <= backoff < floor + JITTER
      ensures consecutiveErrors > 1 ==>
        var doubled := floor * Power(if consecutiveErrors > 6 then 6 else consecutiveErrors);
        var capped := if doubled > MAX_BACKOFF then MAX_BACKOFF else doubled;
        capped <= backoff < capped + JITTER
    {
      var jitter := PositiveJitter(JITTER);
      if consecutiveErrors <= 1 {
        return floor + jitter;
      }
      var shift := consecutiveErrors;
      if shift > 6 {
        shift := 6;
      }
      backoff := floor * Power(shift);
      if backoff > MAX_BACKOFF {
        backoff := MAX_BACKOFF;
      }
      backoff := backoff + jitter;
    }

    /** The wait after a failed poll: what JMA asked for or a backoff, but never less than the floor. */
    method FailureDelay(floor: nat, consecutive: nat, retryAfter: Option<nat>) returns (delay: nat)
      ensures Wanted(floor, consecutive, retryAfter) <= delay < Wanted(floor, consecutive, retryAfter) + JITTER
      ensures delay >= floor && (retryAfter.Some? ==> delay >= retryAfter.value)
    {
      if retryAfter.Some? {
        var jitter := PositiveJitter(JITTER);
        delay := retryAfter.value + jitter;
      } else {
        delay := ComputeExponentialBackoff(floor, consecutive);
      }
      if delay < floor {
        var jitter := PositiveJitter(JITTER);
        delay := floor + jitter;
      }
    }

    /** Writes the schedule after a poll that got an answer, and with it that the poll has had its outcome. */
    method Reschedule(feed: Url, delay: nat, ghost since: nat)
      requires since <= store.clock.now
      requires Valid() && store.ScheduleKnown() && feed in store.Ledger().next
      requires delay >= store.terms.Floor(feed)
      modifies this`fatal, store.clock, store`feedState, store`diskFeedState, store`log
      ensures Valid() && (old(fatal) ==> fatal) && Requests(store.log) == Requests(old(store.log))
      ensures store.clock.now >= old(store.clock.now)
      ensures !fatal ==> Settled(feed, old(store.Ledger()).polls)
      ensures store.Validators(feed) == old(store.Validators(feed))
      ensures store.Others(feed) == old(store.Others(feed))
      ensures OnSchedule(feed, since, delay)
      ensures store.GetFeedSchedule(feed).lastAttemptAt == old(store.GetFeedSchedule(feed)).lastAttemptAt
    {
      hide Legal, Replay, Requests, Store.Recorded, Store.Solvent;
      var now := client.Now();
      var ok := store.RecordFeedSuccess(feed, now + delay, now);
      if !ok {
        fatal := true;
      }
    }

    /** If the feed had been polled, the outcome of that poll is on record. */
    ghost predicate Settled(feed: Url, before: map<Url, Poll>)
      reads store`log
    {
      feed in before ==> feed in store.Ledger().polls && store.Ledger().polls[feed] == before[feed].(settled := true)
    }

    /** The entries that are neither spooled nor in the history. */
    method FilterNew(entries: seq<Url>) returns (newItems: seq<Url>)
      requires Distinct(entries)
      ensures Distinct(newItems) && forall k :: 0 <= k < |newItems| ==> newItems[k] in entries
      ensures forall k :: 0 <= k < |newItems| ==> newItems[k] !in store.spool && newItems[k] !in store.fetchedURLs
      ensures forall u :: u in entries && u !in store.spool && u !in store.fetchedURLs ==> u in newItems
      ensures newItems == [] <==> AllKnown(entries, store.spool.Keys, store.fetchedURLs)
    {
      newItems := [];
      for i := 0 to |entries|
        invariant Distinct(newItems) && forall k :: 0 <= k < |newItems| ==> newItems[k] in entries[..i]
        invariant forall k :: 0 <= k < |newItems| ==> newItems[k] !in store.spool && newItems[k] !in store.fetchedURLs
        invariant forall u :: u in entries[..i] && u !in store.spool && u !in store.fetchedURLs ==> u in newItems
      {
        assert entries[..i + 1] == entries[..i] + [entries[i]];
        if !store.IsFetched(entries[i]) && !store.HasSpool(entries[i]) {
          newItems := newItems + [entries[i]];
        }
      }
      assert entries[..|entries|] == entries;
      if newItems != [] {
        assert newItems[0] in entries && newItems[0] !in store.spool.Keys + store.fetchedURLs;
      }
    }

    /** Core refused the index: each new item is fetched directly, at most once. */
    method FetchDirectly(newItems: seq<Url>, feed: Url) returns (ghost fetched: seq<Sent>)
      requires Valid() && Distinct(newItems)
      requires forall k :: 0 <= k < |newItems| ==> newItems[k] !in store.spool && newItems[k] !in store.history
      modifies this`fatal, client, store.clock, store, core`offered
      ensures Valid() && (old(fatal) ==> fatal) && store.clock.now >= old(store.clock.now)
      ensures SamePolls(store.Ledger(), old(store.Ledger())) && store.feedState.feeds == old(store.feedState.feeds)
      ensures Requests(store.log) == Requests(old(store.log)) + fetched
      ensures Distinct(fetched) && DocumentsFrom(fetched, set u | u in newItems)
      ensures !fatal ==> client.tried == old(client.tried) + newItems
      ensures store.GetFeedSchedule(feed) == old(store.GetFeedSchedule(feed)) && store.Others(feed) == old(store.Others(feed))
      ensures store.commits - old(store.commits) == store.reservations - old(store.reservations)
    {
      hide Valid, Store.Recorded, Requests, Legal, Replay;
      fetched := [];
      for i := 0 to |newItems|
        invariant Valid() && (old(fatal) ==> fatal) && store.clock.now >= old(store.clock.now)
        invariant SamePolls(store.Ledger(), old(store.Ledger())) && store.feedState.feeds == old(store.feedState.feeds)
        invariant store.commits - old(store.commits) == store.reservations - old(store.reservations)
        invariant forall k :: i <= k < |newItems| ==> newItems[k] !in store.spool && newItems[k] !in store.history
        invariant Requests(store.log) == Requests(old(store.log)) + fetched
        invariant Distinct(fetched) && DocumentsFrom(fetched, set u | u in newItems[..i])
        invariant !fatal ==> client.tried == old(client.tried) + newItems[..i]
      {
        assert newItems[i] !in newItems[..i] && newItems[..i + 1] == newItems[..i] + [newItems[i]];
        ghost var log := store.log;
        FetchAndIngestItem(newItems[i], feed);
        if Requests(store.log) != Requests(log) {
          fetched := fetched + [Document(newItems[i])];
        }
      }
      assert newItems[..|newItems|] == newItems;
    }

    /**
      One feed: plan, ask, and pass on what is new. A feed that is due is attempted, and asked for unless a
      pause runs; outcome is what came of asking. At most one poll is sent, of this feed, and besides it
      documents at most once each. Unless a write fails, the outcome of the poll is on record.
     */
    method ProcessFeed(feed: Url, isLongFeed: bool)
      returns (ghost outcome: Option<FeedOutcome>, ghost polled: bool, ghost fetched: seq<Sent>)
      requires Valid() && store.terms.Floor(feed) == if isLongFeed then longPollInterval else pollInterval
      modifies this`fatal, client, store.clock, store, core`indexAcks, core`offered
      ensures Valid() && (old(fatal) ==> fatal && store.log == old(store.log))
      ensures store.clock.now >= old(store.clock.now)
      ensures store.commits - old(store.commits) == store.reservations - old(store.reservations)
      ensures Requests(store.log) == Requests(old(store.log)) + (if polled then [Feed(feed)] else []) + fetched
      ensures Distinct(fetched) && forall k :: 0 <= k < |fetched| ==> fetched[k].Document?
      ensures store.Others(feed) == old(store.Others(feed))
      ensures Unchanged(old(store.feedState.feeds), store.feedState.feeds, old(store.clock.now), feed)
      ensures !fatal && old(store.GetFeedSchedule(feed)).nextAllowedAt <= old(store.clock.now) ==>
        && store.GetFeedSchedule(feed).lastAttemptAt >= old(store.clock.now)
        && (old(store.feedState.globalBackoffUntil) <= old(store.clock.now) ==> outcome.Some?)
      ensures outcome.Some? && !polled ==> outcome.value.NotFetched? && Unsent(outcome.value.error)
      ensures polled ==> outcome.Some? && !old(fatal)
      ensures polled && !store.Ledger().failed ==>
        feed in store.Ledger().polls && store.Ledger().polls[feed].settled
        && store.Ledger().polls[feed].at >= old(store.clock.now)
    {
      hide Legal, Replay, Requests, Store.Recorded, Store.Solvent, Valid;
      outcome, polled, fetched := None, false, [];
      if fatal {
        return;
      }
      var floor := if isLongFeed then longPollInterval else pollInterval;
      var sch := store.GetFeedSchedule(feed);
      var now := Now();
      if now < sch.nextAllowedAt {
        return;
      }
      var planned := PlanAttempt(feed, now, floor);
      if !planned {
        return;
      }
      if now < store.feedState.globalBackoffUntil {
        return;
      }
      ghost var res;
      res, polled, fetched := AskFor(feed, floor, sch.consecutiveErrors + 1);
      outcome := Some(res);
    }

    /** Writes down that a feed is going to be asked for; if that fails the process stops. */
    method PlanAttempt(feed: Url, now: nat, floor: nat) returns (planned: bool)
      requires Valid() && !fatal && now == store.clock.now && floor == store.terms.Floor(feed)
      requires store.GetFeedSchedule(feed).nextAllowedAt <= now
      modifies this`fatal, store`feedState, store`diskFeedState, store`log
      ensures Valid() && planned == !fatal && Requests(store.log) == Requests(old(store.log))
      ensures planned ==> feed in store.Ledger().open && feed in store.Ledger().next
      ensures store.Others(feed) == old(store.Others(feed))
      ensures store.GetFeedSchedule(feed).lastAttemptAt == now
      ensures store.feedState.globalBackoffUntil == old(store.feedState.globalBackoffUntil)
    {
      hide Legal, Replay, Requests, Store.Solvent;
      planned := store.RecordFeedAttempt(feed, now, now + floor);
      if !planned {
        fatal := true;
      }
    }

    /** The request for a feed whose attempt is planned, and what follows from its outcome. */
    method AskFor(feed: Url, floor: nat, consecutive: nat)
      returns (ghost outcome: FeedOutcome, ghost polled: bool, ghost fetched: seq<Sent>)
      requires Valid() && !fatal && feed in store.Ledger().next && feed in store.Ledger().open
      requires floor == store.terms.Floor(feed)
      modifies this`fatal, client, store.clock, store, core`indexAcks, core`offered
      ensures Valid() && store.clock.now >= old(store.clock.now)
      ensures store.commits - old(store.commits) == store.reservations - old(store.reservations)
      ensures Requests(store.log) == Requests(old(store.log)) + (if polled then [Feed(feed)] else []) + fetched
      ensures Distinct(fetched) && forall k :: 0 <= k < |fetched| ==> fetched[k].Document?
      ensures store.Others(feed) == old(store.Others(feed))
      ensures store.GetFeedSchedule(feed).lastAttemptAt >= old(store.GetFeedSchedule(feed)).lastAttemptAt
           || store.GetFeedSchedule(feed).lastAttemptAt >= old(store.clock.now)
      ensures outcome.Fetched? ==> polled
      ensures !polled ==> outcome.NotFetched? && Unsent(outcome.error)
      ensures polled && !store.Ledger().failed ==>
        feed in store.Ledger().polls && store.Ledger().polls[feed].settled
        && store.Ledger().polls[feed].at >= old(store.clock.now)
    {
      hide Legal, Replay, Requests, Store.Recorded, Store.Solvent, Wanted, WantedAfter, AllKnown, OnSchedule;
      ghost var commits := store.commits;
      var res := client.FetchFeed(feed);
      outcome, polled, fetched := res, store.commits > commits, [];
      if res.NotFetched? {
        HandleFailure(feed, floor, consecutive, res);
      } else {
        ghost var entries;
        entries, fetched := HandleResult(feed, floor, res.result);
      }
    }

    method HandleFailure(feed: Url, floor: nat, consecutive: nat, res: FeedOutcome)
      requires Working() && !fatal && store.ScheduleKnown() && feed in store.Ledger().next && Accounted({})
      requires floor == store.terms.Floor(feed)
      requires res.NotFetched? && (store.Ledger().failed <==> Fatal(res.error))
      modifies this`fatal, store.clock, store`feedState, store`diskFeedState, store`log
      ensures Valid() && store.clock.now >= old(store.clock.now)
      ensures Requests(store.log) == Requests(old(store.log))
      ensures !fatal && res.error != Refused(DailyByteLimitExceeded) ==> Settled(feed, old(store.Ledger()).polls)
      ensures store.Others(feed) == old(store.Others(feed))
      ensures store.GetFeedSchedule(feed).lastAttemptAt >= old(store.GetFeedSchedule(feed)).lastAttemptAt
           || store.GetFeedSchedule(feed).lastAttemptAt >= old(store.clock.now)
      ensures !fatal && res.error != Refused(DailyByteLimitExceeded) ==>
        var sch, wanted := store.GetFeedSchedule(feed), Wanted(floor, consecutive, res.retryAfter);
        && sch.consecutiveErrors == consecutive
        && old(store.clock.now) + wanted <= sch.nextAllowedAt < store.clock.now + wanted + JITTER
    {
      hide Legal, Replay, Requests, Store.Recorded, Store.Solvent, Wanted;
      if res.error == Refused(DailyByteLimitExceeded) {
        return;
      }
      if Fatal(res.error) {
        fatal := true;
        return;
      }
      var delay := FailureDelay(floor, consecutive, res.retryAfter);
      var now := client.Now();
      var later := client.Now();
      var recorded := store.RecordFeedFailure(feed, later, now + delay, consecutive, now);
      if !recorded {
        fatal := true;
      }
    }

    /**
      What a poll brought. The validators change only if the feed document parsed and core took its index
      or it listed nothing new; entries is what it listed, if it parsed. The next poll waits for what the
      answer asks for, for its Retry-After only if it was taken.
     */
    method HandleResult(feed: Url, floor: nat, res: FeedResult)
      returns (ghost entries: Option<seq<Url>>, ghost fetched: seq<Sent>)
      requires Valid() && !fatal && feed in store.Ledger().next && floor == store.terms.Floor(feed)
      modifies this`fatal, client, store.clock, store, core`indexAcks, core`offered
      ensures Valid() && store.clock.now >= old(store.clock.now)
      ensures store.commits - old(store.commits) == store.reservations - old(store.reservations)
      ensures Requests(store.log) == Requests(old(store.log)) + fetched
      ensures Distinct(fetched) && forall k :: 0 <= k < |fetched| ==> fetched[k].Document?
      ensures !fatal ==> Settled(feed, old(store.Ledger()).polls)
      ensures store.Others(feed) == old(store.Others(feed))
      ensures store.GetFeedSchedule(feed).lastAttemptAt == old(store.GetFeedSchedule(feed)).lastAttemptAt
      ensures !fatal ==>
        var taken := res.notModified || core.indexAcks > old(core.indexAcks)
          || (entries.Some? && AllKnown(entries.value, old(store.spool).Keys, old(store.fetchedURLs)));
        OnSchedule(feed, old(store.clock.now), WantedAfter(floor, res, taken))
      ensures store.Validators(feed) != old(store.Validators(feed)) ==>
        !res.notModified && entries.Some?
        && (core.indexAcks > old(core.indexAcks)
            || AllKnown(entries.value, old(store.spool).Keys, old(store.fetchedURLs)))
    {
      hide Legal, Replay, Requests, Valid, Settled, AllKnown, OnSchedule;
      hide Store.Recorded, Store.Solvent, Store.GetFeedSchedule, Store.Others;
      entries, fetched := None, [];
      var delay := if res.nextDelay > floor then res.nextDelay else floor;
      var patient := if res.retryAfter.Some? && res.retryAfter.value > delay then res.retryAfter.value else delay;
      Standing(feed);
      if res.notModified {
        Reschedule(feed, patient, old(store.clock.now));
        return;
      }
      var listed := ParseAtomFeed(feed);
      entries := listed;
      if listed.None? {
        Reschedule(feed, delay, old(store.clock.now));
        return;
      }
      fetched := HandleIndex(feed, listed.value, delay, patient);
    }

    /** The index of a feed document goes to core, or its items are fetched directly. */
    method HandleIndex(feed: Url, entries: seq<Url>, delay: nat, patient: nat) returns (ghost fetched: seq<Sent>)
      requires Valid() && !fatal && feed in store.Ledger().next && Distinct(entries)
      requires store.terms.Floor(feed) <= delay <= patient
      modifies this`fatal, client, store.clock, store, core`indexAcks, core`offered
      ensures Valid() && store.clock.now >= old(store.clock.now)
      ensures store.commits - old(store.commits) == store.reservations - old(store.reservations)
      ensures Requests(store.log) == Requests(old(store.log)) + fetched
      ensures Distinct(fetched) && forall k :: 0 <= k < |fetched| ==> fetched[k].Document?
      ensures !fatal ==> Settled(feed, old(store.Ledger()).polls)
      ensures store.Others(feed) == old(store.Others(feed))
      ensures store.GetFeedSchedule(feed).lastAttemptAt == old(store.GetFeedSchedule(feed)).lastAttemptAt
      ensures var taken := core.indexAcks > old(core.indexAcks)
          || AllKnown(entries, old(store.spool).Keys, old(store.fetchedURLs));
        && (!fatal ==> OnSchedule(feed, old(store.clock.now), if taken then patient else delay))
        && (store.Validators(feed) != old(store.Validators(feed)) ==> taken)
    {
      hide Legal, Replay, Requests, Valid, Settled, AllKnown, OnSchedule;
      hide Store.Recorded, Store.Solvent, Store.GetFeedSchedule, Store.Others;
      fetched := [];
      Standing(feed);
      var newItems := FilterNew(entries);
      if |newItems| > 0 {
        var ack := core.SendIndex();
        if !ack {
          fetched := FetchDirectly(newItems, feed);
          Standing(feed);
          Reschedule(feed, delay, old(store.clock.now));
          return;
        }
      }
      CommitValidator(feed);
      if !fatal {
        Standing(feed);
        Reschedule(feed, patient, old(store.clock.now));
      }
    }

    /** While nothing has failed, memory knows the history and the schedule. */
    lemma Standing(feed: Url)
      requires Valid()
      ensures !fatal ==> store.ScheduleKnown() && store.fetchedURLs == store.history
    {
    }

    /** A poll was answered: no errors in a row, and the next one waits for what was wanted. */
    ghost predicate OnSchedule(feed: Url, since: nat, wanted: nat)
      reads store`feedState, store.clock`now
    {
      var sch := store.GetFeedSchedule(feed);
      sch.consecutiveErrors == 0 && since + wanted <= sch.nextAllowedAt <= store.clock.now + wanted
    }

    /** The validators of an index that core has, or that held nothing new. */
    method CommitValidator(feed: Url)
      requires Valid() && !fatal && feed in store.Ledger().next
      modifies this`fatal, store`feedState, store`diskFeedState, store`log
      ensures Valid() && Requests(store.log) == Requests(old(store.log))
      ensures SamePolls(store.Ledger(), old(store.Ledger()))
      ensures store.GetFeedSchedule(feed).lastAttemptAt == old(store.GetFeedSchedule(feed)).lastAttemptAt
      ensures store.Others(feed) == old(store.Others(feed))
    {
      hide Legal, Replay, Requests, Store.Solvent;
      var lastModified: string, etag: string := *, *;
      if lastModified != "" || etag != "" {
        var saved := store.SaveFeedValidator(feed, lastModified, etag);
        if !saved {
          fatal := true;
        }
      }
    }

    method Now() returns (t: nat)
      requires Valid()
      modifies store.clock
      ensures Valid() && t == store.clock.now >= old(store.clock.now)
    {
      t := client.Now();
    }

    method BackedOff() returns (active: bool)
      requires Valid()
      modifies store.clock
      ensures Valid() && store.clock.now >= old(store.clock.now)
      ensures active <==> store.clock.now < store.feedState.globalBackoffUntil
    {
      var now := Now();
      active := now < store.feedState.globalBackoffUntil;
    }

    /** One batch: what is seen for the first time is fetched, unless it is known. */
    method DrainBatch(live: bool, pending: seq<IndexItem>, seenBefore: set<Url>, ghost fetchedBefore: seq<Sent>)
      returns (seenInDrain: set<Url>, newItems: nat, stopped: bool, ghost fetched: seq<Sent>)
      requires Valid() && !fatal && seenBefore <= core.universe
      requires forall k :: 0 <= k < |pending| ==> pending[k].url in core.universe
      requires Distinct(fetchedBefore) && DocumentsFrom(fetchedBefore, seenBefore)
      modifies this`fatal, client, store.clock, store, core`offered
      ensures Valid() && store.clock.now >= old(store.clock.now)
      ensures seenBefore <= seenInDrain <= core.universe && (newItems > 0 ==> seenBefore < seenInDrain)
      ensures fetchedBefore <= fetched && Distinct(fetched) && DocumentsFrom(fetched, seenInDrain)
      ensures Requests(store.log) == Requests(old(store.log)) + fetched[|fetchedBefore|..]
      ensures stopped && live && !fatal ==> store.clock.now < store.feedState.globalBackoffUntil
      ensures core.asked == old(core.asked) && core.answer == old(core.answer)
      ensures store.feedState.feeds == old(store.feedState.feeds)
      ensures !stopped && !fatal ==> forall k :: 0 <= k < |pending| ==> pending[k].url in seenInDrain
      ensures DealtOf(seenInDrain - seenBefore, client.tried, store.Ledger().everSpooled)
      ensures old(client.tried) <= client.tried
      ensures old(store.Ledger()).everSpooled <= store.Ledger().everSpooled
      ensures store.commits - old(store.commits) == store.reservations - old(store.reservations)
    {
      hide Legal, Replay, Requests, Store.Recorded, Store.Solvent, Valid, Distinct, DocumentsFrom;
      seenInDrain, newItems, stopped, fetched := seenBefore, 0, false, fetchedBefore;
      assert DealtOf(seenBefore - seenBefore, client.tried, store.Ledger().everSpooled);
      hide DealtOf;
      for i := 0 to |pending|
        invariant Valid() && store.clock.now >= old(store.clock.now)
        invariant seenBefore <= seenInDrain <= core.universe && (newItems > 0 ==> seenBefore < seenInDrain)
        invariant fetchedBefore <= fetched && Distinct(fetched) && DocumentsFrom(fetched, seenInDrain)
        invariant Requests(store.log) == Requests(old(store.log)) + fetched[|fetchedBefore|..]
        invariant forall k :: 0 <= k < i ==> pending[k].url in seenInDrain
        invariant store.feedState.feeds == old(store.feedState.feeds)
        invariant DealtOf(seenInDrain - seenBefore, client.tried, store.Ledger().everSpooled)
        invariant old(client.tried) <= client.tried
        invariant old(store.Ledger()).everSpooled <= store.Ledger().everSpooled
        invariant store.commits - old(store.commits) == store.reservations - old(store.reservations)
      {
        var url := pending[i].url;
        var cancelled := Cancelled(live);
        if cancelled || fatal {
          stopped := true;
          return;
        }
        var backedOff := BackedOff();
        if backedOff {
          stopped := true;
          return;
        }
        if url !in seenInDrain {
          SentMore(fetched, seenInDrain, url);
          ghost var seen := seenInDrain;
          seenInDrain := seenInDrain + {url};
          newItems := newItems + 1;
          ghost var log, tried, spooled := store.log, client.tried, store.Ledger().everSpooled;
          FetchUnknown(url, pending[i].feed);
          DealtMore(seen - seenBefore, url, tried, spooled, client.tried, store.Ledger().everSpooled);
          assert seenInDrain - seenBefore == seen - seenBefore + {url};
          if Requests(store.log) != Requests(log) {
            fetched := fetched + [Document(url)];
            assert fetched[|fetchedBefore|..] == fetched[..|fetched| - 1][|fetchedBefore|..] + [Document(url)];
          }
        }
      }
    }

    /** A document that is seen for the first time: fetched unless it is known. Either way it is dealt with. */
    method FetchUnknown(url: Url, feed: Url)
      requires Valid() && !fatal
      modifies this`fatal, client, store.clock, store, core`offered
      ensures Valid() && store.clock.now >= old(store.clock.now)
      ensures Requests(store.log) == Requests(old(store.log))
           || Requests(store.log) == Requests(old(store.log)) + [Document(url)]
      ensures url in client.tried || url in store.Ledger().everSpooled
      ensures store.feedState.feeds == old(store.feedState.feeds)
      ensures old(client.tried) <= client.tried && old(store.Ledger()).everSpooled <= store.Ledger().everSpooled
      ensures store.commits - old(store.commits) == store.reservations - old(store.reservations)
    {
      hide Legal, Replay, Requests, Store.Recorded, Store.Solvent, Client.Valid;
      if Known(url) {
        KnownWasSpooled(url);
      } else {
        FetchAndIngestItem(url, feed);
      }
    }

    lemma KnownWasSpooled(url: Url)
      requires Valid() && !fatal && (url in store.spool || url in store.history)
      ensures url in store.Ledger().everSpooled
    {
      LegalKeeps(store.terms, store.log);
      SpoolWasSpooled(store.terms, store.log);
      store.OnDisk(url);
    }

    /** Already spooled, or already in the history. */
    predicate Known(url: Url)
      requires Valid() && !fatal
      reads this, client, store, store.clock
      ensures Known(url) <==> url in store.spool || url in store.history
    {
      store.HasSpool(url) || store.IsFetched(url)
    }

    /**
      Fetches what core still wants, batch after batch. It ends whatever core answers, because every
      further batch must name a document not seen before; and it requests no document twice. Short of the
      deadline, a pause, a failed write and cancellation it ends only when core names none that has not been
      tried or spooled. Whatever it received has been spooled.
     */
    method DrainPending(live: bool, deadline: nat) returns (ghost fetched: seq<Sent>)
      requires Valid()
      modifies this`fatal, client, store.clock, store, core
      ensures Valid() && (old(fatal) ==> fatal) && store.clock.now >= old(store.clock.now)
      ensures Distinct(fetched) && Requests(store.log) == Requests(old(store.log)) + fetched
      ensures store.commits - old(store.commits) == store.reservations - old(store.reservations)
      ensures !fatal ==> store.Ledger().received <= store.Ledger().everSpooled
      ensures store.feedState.feeds == old(store.feedState.feeds)
      ensures live && !fatal && store.clock.now < deadline && store.feedState.globalBackoffUntil <= store.clock.now ==>
        core.asked > old(core.asked) && (core.answer.Some? ==> DealtWith(core.answer.value))
    {
      hide Legal, Replay, Requests, Store.Recorded, Store.Solvent, Store.Valid, Client.Valid;
      fetched := [];
      NothingSent();
      hide Distinct, DocumentsFrom;
      if fatal {
        return;
      }
      var backedOff := BackedOff();
      if backedOff {
        return;
      }
      var seenInDrain: set<Url> := {};
      var now := Now();
      while now < deadline
        invariant Valid() && (old(fatal) ==> fatal) && store.clock.now >= old(store.clock.now) && now <= store.clock.now
        invariant seenInDrain <= core.universe && core.asked >= old(core.asked)
        invariant Distinct(fetched) && DocumentsFrom(fetched, seenInDrain)
        invariant DealtOf(seenInDrain, client.tried, store.Ledger().everSpooled)
        invariant store.feedState.feeds == old(store.feedState.feeds)
        invariant Requests(store.log) == Requests(old(store.log)) + fetched
        invariant store.commits - old(store.commits) == store.reservations - old(store.reservations)
        decreases |core.universe - seenInDrain|
      {
        var cancelled := Cancelled(live);
        if cancelled || fatal {
          return;
        }
        backedOff := BackedOff();
        if backedOff {
          return;
        }
        var pending := core.GetPending(50);
        if pending.None? || |pending.value| == 0 {
          return;
        }
        ghost var before, tried, spooled := seenInDrain, client.tried, store.Ledger().everSpooled;
        var newItems, stopped;
        seenInDrain, newItems, stopped, fetched := DrainBatch(live, pending.value, seenInDrain, fetched);
        DealtMore(before, Url(""), tried, spooled, client.tried, store.Ledger().everSpooled);
        if stopped || newItems == 0 {
          return;
        }
        Shrinks(core.universe, before, seenInDrain);
        now := Now();
      }
    }

    /** Each of these has been tried, or was spooled before. */
    ghost predicate DealtWith(items: seq<IndexItem>)
      reads client`tried, store`log
    {
      forall k :: 0 <= k < |items| ==> items[k].url in client.tried || items[k].url in store.Ledger().everSpooled
    }

    /** The intervals the feeds are configured with. */
    ghost predicate Configured()
    {
      && (forall f :: f in feeds ==> store.terms.Floor(f) == pollInterval)
      && (forall f :: f in longFeeds ==> store.terms.Floor(f) == longPollInterval)
    }

    /**
      One cycle. The spool is replayed even while JMA has asked for a pause; everything else waits for
      that. Unless it is cut short, every feed that is due is attempted, and the queue of core is drained.
      Every step of it only ever extends the log legally, so a crash may cut in anywhere.
     */
    method PollCycle(live: bool, deadline: nat)
      requires Valid() && Configured()
      modifies this`fatal, client, store.clock, store, core
      ensures Valid() && (old(fatal) ==> fatal && store.log == old(store.log)) && store.clock.now >= old(store.clock.now)
      ensures store.commits - old(store.commits) == store.reservations - old(store.reservations)
      ensures live && !fatal && old(store.feedState.globalBackoffUntil) <= old(store.clock.now) ==>
        forall f :: f in feeds + longFeeds ==>
          AttemptedIfDue(old(store.feedState.feeds), store.feedState.feeds, old(store.clock.now), f)
      ensures live && !fatal && store.clock.now < deadline && store.feedState.globalBackoffUntil <= store.clock.now ==>
        old(store.feedState.globalBackoffUntil) > old(store.clock.now)
        || (core.asked > old(core.asked) && (core.answer.Some? ==> DealtWith(core.answer.value)))
    {
      hide Valid, Legal, Replay, Requests;
      ghost var refused := ReplaySpool(live);
      if fatal {
        return;
      }
      var backedOff := BackedOff();
      if backedOff {
        return;
      }
      ghost var before := store.feedState.feeds;
      for i := 0 to |feeds|
        invariant Valid() && !old(fatal) && store.clock.now >= old(store.clock.now)
        invariant core.asked == old(core.asked)
        invariant forall f :: Unchanged(before, store.feedState.feeds, old(store.clock.now), f)
        invariant !fatal ==>
          forall f :: f in feeds[..i] ==> AttemptedIfDue(before, store.feedState.feeds, old(store.clock.now), f)
        invariant store.commits - old(store.commits) == store.reservations - old(store.reservations)
      {
        var cancelled := Cancelled(live);
        if fatal || cancelled {
          return;
        }
        ghost var state, now := store.feedState.feeds, store.clock.now;
        ghost var outcome, polled, documents := ProcessFeed(feeds[i], false);
        OneMoreAttempted(before, state, store.feedState.feeds, old(store.clock.now), now, feeds[i], feeds[..i], !fatal);
        assert feeds[..i + 1] == feeds[..i] + [feeds[i]];
      }
      for i := 0 to |longFeeds|
        invariant Valid() && !old(fatal) && store.clock.now >= old(store.clock.now)
        invariant core.asked == old(core.asked)
        invariant forall f :: Unchanged(before, store.feedState.feeds, old(store.clock.now), f)
        invariant !fatal ==> forall f :: f in feeds + longFeeds[..i] ==>
          AttemptedIfDue(before, store.feedState.feeds, old(store.clock.now), f)
        invariant store.commits - old(store.commits) == store.reservations - old(store.reservations)
      {
        var cancelled := Cancelled(live);
        if fatal || cancelled {
          return;
        }
        ghost var state, now := store.feedState.feeds, store.clock.now;
        ghost var outcome, polled, documents := ProcessFeed(longFeeds[i], true);
        OneMoreAttempted(before, state, store.feedState.feeds, old(store.clock.now), now, longFeeds[i],
                         feeds + longFeeds[..i], !fatal);
        assert feeds + longFeeds[..i + 1] == feeds + longFeeds[..i] + [longFeeds[i]];
      }
      var cancelled := Cancelled(live);
      if fatal || cancelled {
        return;
      }
      ghost var fetched := DrainPending(live, deadline);
    }
  }

  /** A new process over the disk an old one left behind, wherever that one stopped. */
  method Boot(store: Store, core: Core, maxItemBytes: nat, pollInterval: nat, longPollInterval: nat,
              feeds: seq<Url>, longFeeds: seq<Url>) returns (c: Controller)
    requires store.DiskValid() && store.Timely()
    modifies store`fetchedURLs, store`budget, store`feedState, store`committed, store`outstanding, store`log, store.clock
    ensures fresh(c) && fresh(c.client) && c.store == store && c.Valid() && !c.fatal
    ensures store.log == old(store.log) + [Booted]
    ensures c.pollInterval == pollInterval && c.longPollInterval == longPollInterval
    ensures c.feeds == feeds && c.longFeeds == longFeeds
  {
    hide Legal, Replay;
    store.Reopen();
    var client := new Client(store, maxItemBytes);
    c := new Controller(store, client, core, pollInterval, longPollInterval, feeds, longFeeds);
  }

  /**
    A poll whose process stops before the outcome is recorded. If the rate limiter held the request
    back, it left later than planned, and the next process may poll again before the floor has passed
    since then: from the planned instant plus the floor on.
   */
  method StopAfterPoll(store: Store, client: Client, feed: Url) returns (planned: nat, ghost polled: bool)
    requires client.store == store && client.Valid() && !store.Ledger().failed && store.ScheduleKnown()
    requires store.GetFeedSchedule(feed).nextAllowedAt <= store.clock.now
    modifies client, store.clock, store
    ensures store.Valid() && store.ScheduleKnown() && !store.Ledger().failed && planned >= old(store.clock.now)
    ensures polled <==> Requests(store.log) == Requests(old(store.log)) + [Feed(feed)]
    ensures polled ==>
      && store.GetFeedSchedule(feed).nextAllowedAt == planned + store.terms.Floor(feed)
      && feed in store.Ledger().polls && store.Ledger().polls[feed].attempt == planned
      && !store.Ledger().polls[feed].settled
      && (old(client.lastRequestTime).Some? && old(client.lastRequestTime).value + store.terms.interval > planned ==>
            store.Ledger().polls[feed].at > planned)
  {
    hide Legal, Replay, Requests, Store.Recorded, Store.Solvent;
    polled := false;
    planned := client.Now();
    var written := store.RecordFeedAttempt(feed, planned, planned + store.terms.Floor(feed));
    if written {
      ghost var commits := store.commits;
      var res := client.FetchFeed(feed);
      polled := store.commits > commits;
    }
    RequestsMore(store.log, Booted);
    store.DiskInOrder();
    store.Reopen();
    store.ScheduleOf(feed);
  }

  /** The schedule of a feed is as it was, or it has been attempted since. */
  predicate Unchanged(before: map<Url, FeedSchedule>, feeds: map<Url, FeedSchedule>, since: nat, feed: Url) {
    ScheduleIn(feeds, feed) == ScheduleIn(before, feed) || ScheduleIn(feeds, feed).lastAttemptAt >= since
  }

  /** The feed was not due, or it has been attempted since. */
  predicate AttemptedIfDue(before: map<Url, FeedSchedule>, feeds: map<Url, FeedSchedule>, since: nat, feed: Url) {
    ScheduleIn(before, feed).nextAllowedAt > since || ScheduleIn(feeds, feed).lastAttemptAt >= since
  }

  lemma OneMoreAttempted(before: map<Url, FeedSchedule>, state: map<Url, FeedSchedule>, feeds: map<Url, FeedSchedule>,
                         since: nat, now: nat, feed: Url, served: seq<Url>, going: bool)
    requires since <= now && feeds - {feed} == state - {feed}
    requires forall f :: Unchanged(before, state, since, f)
    requires Unchanged(state, feeds, now, feed)
    requires going && ScheduleIn(state, feed).nextAllowedAt <= now ==> ScheduleIn(feeds, feed).lastAttemptAt >= now
    requires going ==> forall f :: f in served ==> AttemptedIfDue(before, state, since, f)
    ensures forall f :: Unchanged(before, feeds, since, f)
    ensures going ==> forall f :: f in served + [feed] ==> AttemptedIfDue(before, feeds, since, f)
  {
    forall f
      ensures Unchanged(before, feeds, since, f)
      ensures f != feed ==> ScheduleIn(feeds, f) == ScheduleIn(state, f)
    {
      assert Unchanged(before, state, since, f);
      if f != feed {
        assert f in feeds <==> f in feeds - {feed};
        assert f in state <==> f in state - {feed};
      }
    }
  }

  lemma Shrinks(all: set<Url>, before: set<Url>, now: set<Url>)
    requires before < now <= all
    ensures |all - now| < |all - before|
  {
    var u :| u in now && u !in before;
    assert all - now <= (all - before) - {u};
    SubsetCount(all - now, (all - before) - {u});
  }

  lemma SubsetCount(a: set<Url>, b: set<Url>)
    requires a <= b
    ensures |a| <= |b|
  {
    assert b == a + (b - a);
  }

  /** What a failed poll asks for before jitter: Retry-After or backoff, but at least the floor. */
  function Wanted(floor: nat, consecutive: nat, retryAfter: Option<nat>): (wait: nat)
    ensures wait >= floor
  {
    var doubled := floor * Power(if consecutive > 6 then 6 else consecutive);
    var backoff := if consecutive <= 1 then floor else if doubled > MAX_BACKOFF then MAX_BACKOFF else doubled;
    var asked := if retryAfter.Some? then retryAfter.value else backoff;
    if asked < floor then floor else asked
  }

  /** The wait after an answer: the floor or what its headers ask for; Retry-After only if the answer was taken. */
  function WantedAfter(floor: nat, res: FeedResult, taken: bool): (wait: nat)
    ensures wait >= floor && wait >= res.nextDelay
    ensures taken && res.retryAfter.Some? ==> wait >= res.retryAfter.value
  {
    var delay := if res.nextDelay > floor then res.nextDelay else floor;
    if taken && res.retryAfter.Some? && res.retryAfter.value > delay then res.retryAfter.value else delay
  }

  const JITTER: nat := 2_000_000_000
  const MAX_BACKOFF: nat := 6 * 3600 * 1_000_000_000

  /** 1 << n. */
  function Power(n: nat): (p: nat)
    ensures p >= 1
  {
    if n == 0 then 1 else 2 * Power(n - 1)
  }
}
