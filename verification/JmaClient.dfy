/**
  Requests to JMA: serial, spaced, gated by Retry-After, and paid for from the byte budget. Every path
  after a reservation settles it exactly once, and every failed write comes back as an error.
 */
module JmaClient {
  import opened Options
  import opened JmaLedger
  import opened JmaStore

  datatype FetchError =
    | InvalidUrl
    | GlobalRetryActive
    | Cancelled
    | Refused(cause: StoreError)
    | Unreachable
    | RedirectNotAllowed
    | Upstream(status: int)
    | BadBody
    | ItemTooLarge
    | NotPersisted

  /** Errors that stand for a failed write. */
  predicate Fatal(e: FetchError) {
    e == NotPersisted || e == Refused(StatePersistenceFailed)
  }

  /** Errors that stand for a request that was not sent. */
  predicate Unsent(e: FetchError) {
    e == InvalidUrl || e == GlobalRetryActive || e == Cancelled || e.Refused?
  }

  /** The document came down whole, or JMA will never have it: either way it is dealt with. */
  predicate Final(r: Result<()>) {
    r.Ok? || (r.error.Upstream? && r.error.status in {400, 404, 410})
  }

  datatype Result<+T> = Ok(value: T) | Err(error: FetchError)

  /** What comes back: nothing, or a status, perhaps a Retry-After, and a body that took some bytes. */
  datatype Reply = NoReply | Reply(status: int, retryAfter: Option<nat>, wire: nat, body: Body)

  datatype Body = Unzippable | Unreadable | Readable(decoded: nat)

  datatype FeedResult = FeedResult(notModified: bool, nextDelay: nat, retryAfter: Option<nat>)

  /** A poll's outcome: a result, or an error that may carry a Retry-After. */
  datatype FeedOutcome = Fetched(result: FeedResult) | NotFetched(error: FetchError, retryAfter: Option<nat>)

  /** Any reply at all, as long as it stays within the bytes set aside for it. */
  method Receive(limit: nat) returns (reply: Reply)
    ensures reply.Reply? ==> reply.wire <= limit
  {
    reply := *;
    if reply.Reply? && reply.wire > limit {
      reply := NoReply;
    }
  }

  class Client {
    const store: Store
    const maxItemBytes: nat
    var lastRequestTime: Option<nat>
    var globalRetryUntil: nat

    // The documents that were to be downloaded, whatever came of it.
    ghost var tried: seq<Url>

    ghost predicate Valid()
      reads this, store, store.clock
    {
      && store.Valid() && store.outstanding == 0 && store.Timely()
      && (lastRequestTime.Some? ==> lastRequestTime.value <= store.clock.now)
      && (store.Ledger().lastStart.Some? ==>
            lastRequestTime.Some? && store.Ledger().lastStart.value <= lastRequestTime.value)
    }

    constructor (store: Store, maxItemBytes: nat)
      requires store.Valid() && store.outstanding == 0 && store.Timely() && store.Ledger().lastStart == None
      ensures Valid() && this.store == store && this.maxItemBytes == maxItemBytes
    {
      this.store, this.maxItemBytes := store, maxItemBytes;
      lastRequestTime, globalRetryUntil := None, 0;
    }

    method Now() returns (t: nat)
      requires Valid()
      modifies store.clock
      ensures Valid() && store.clock.now == t >= old(store.clock.now)
    {
      hide Store.Recorded, Legal, Replay;
      t := store.clock.Now();
    }

    /** Is a Retry-After still running, on disk or in this process? */
    method CheckGlobalRetry() returns (active: bool)
      requires Valid()
      modifies store.clock
      ensures Valid() && store.clock.now >= old(store.clock.now)
      ensures active <==> store.clock.now < store.feedState.globalBackoffUntil || store.clock.now < globalRetryUntil
    {
      var now := Now();
      active := now < store.feedState.globalBackoffUntil || now < globalRetryUntil;
    }

    /** The instant the next request may leave at, or a reason why not. */
    method WaitRateLimit() returns (r: Result<nat>)
      requires Valid()
      modifies this`lastRequestTime, store.clock
      ensures Valid() && store.clock.now >= old(store.clock.now)
      ensures r.Err? ==> r.error in {GlobalRetryActive, Cancelled} && lastRequestTime == old(lastRequestTime)
      ensures r == Err(GlobalRetryActive) ==>
        store.clock.now < store.feedState.globalBackoffUntil || store.clock.now < globalRetryUntil
      ensures r == Err(Cancelled) ==>
        old(lastRequestTime).Some? && old(store.clock.now) < old(lastRequestTime).value + store.terms.interval
      ensures r.Ok? ==> lastRequestTime == Some(r.value) && old(store.clock.now) <= r.value <= store.clock.now
      ensures r.Ok? && old(lastRequestTime).Some? ==> old(lastRequestTime).value + store.terms.interval <= r.value
      ensures r.Ok? ==> store.feedState.globalBackoffUntil <= r.value && globalRetryUntil <= r.value
    {
      hide Store.Recorded, Replay, Legal;
      var active := CheckGlobalRetry();
      if active {
        return Err(GlobalRetryActive);
      }
      var now := Now();
      if lastRequestTime.Some? && now - lastRequestTime.value < store.terms.interval {
        var cancelled: bool := *;
        if cancelled {
          return Err(Cancelled);
        }
        store.clock.Sleep(store.terms.interval - (now - lastRequestTime.value));
      }
      var at := store.clock.Now();
      lastRequestTime := Some(at);
      r := Ok(at);
    }

    /** Between a reservation and its settlement. */
    ghost predicate Busy()
      reads this, store, store.clock
    {
      && store.Valid() && store.outstanding == maxItemBytes + 1 <= store.dailyLimit && store.Timely()
      && lastRequestTime.Some? && lastRequestTime.value <= store.clock.now
      && (store.Ledger().lastStart.Some? ==> store.Ledger().lastStart.value <= lastRequestTime.value)
    }

    /** Waits for its turn and sets the largest possible body aside. */
    method Open() returns (r: Result<nat>)
      requires Valid() && !store.Ledger().failed
      modifies this`lastRequestTime, store.clock
      modifies store`budget, store`diskBudget, store`committed, store`diskCommitted, store`outstanding
      modifies store`reservations, store`log
      ensures store.clock.now >= old(store.clock.now)
      ensures store.log == old(store.log) + if r.Err? && Fatal(r.error) then [Failed] else []
      ensures r.Ok? ==> Busy() && store.reservations == old(store.reservations) + 1
      ensures r.Ok? ==> MayStart(store.terms, store.Ledger(), r.value) && lastRequestTime == Some(r.value)
      ensures r.Ok? ==> old(store.clock.now) <= r.value
      ensures r.Ok? && old(lastRequestTime).Some? ==> old(lastRequestTime).value + store.terms.interval <= r.value
      ensures r.Ok? ==> store.Ledger() == old(store.Ledger())
      ensures Requests(store.log) == Requests(old(store.log))
      ensures r.Err? ==> Valid() && store.reservations == old(store.reservations)
      ensures r.Err? && Fatal(r.error) ==> store.Ledger() == After(store.terms, old(store.Ledger()), Failed)
      ensures r.Err? && !Fatal(r.error) ==> store.Ledger() == old(store.Ledger())
      ensures r.Err? ==> Unsent(r.error)
    {
      hide Legal, Replay, Requests;
      var at := WaitRateLimit();
      if at.Err? {
        return at;
      }
      assert MayStart(store.terms, store.Ledger(), at.value);
      hide Store.Recorded;
      var reserved := maxItemBytes + 1;
      ghost var before := store.log;
      assert before + [] == before;
      RequestsMore(before, Failed);
      var err := store.Reserve(reserved);
      if err.Some? {
        if err.value == StatePersistenceFailed {
          OneMore(store.terms, before, Failed);
        }
        return Err(Refused(err.value));
      }
      r := at;
    }

    /** Settles the reservation with the bytes that came over the wire. */
    method Close(wire: nat) returns (ok: bool)
      requires Busy() && wire <= maxItemBytes + 1
      modifies store.clock
      modifies store`budget, store`diskBudget, store`committed, store`diskCommitted, store`outstanding
      modifies store`commits, store`log
      ensures Valid() && store.clock.now >= old(store.clock.now)
      ensures store.commits == old(store.commits) + 1
      ensures Requests(store.log) == Requests(old(store.log))
      ensures store.Ledger() == if ok then old(store.Ledger()) else After(store.terms, old(store.Ledger()), Failed)
    {
      hide Store.Recorded, Legal, Replay, Requests;
      ghost var before := store.log;
      RequestsMore(before, Failed);
      var err := store.Commit(maxItemBytes + 1, wire);
      if err.Some? {
        OneMore(store.terms, before, Failed);
      } else {
        assert before + [] == before;
      }
      ok := err == None;
    }

    /** What a reply asks all requests to wait, or what its status deserves; 0 if neither. */
    function Pause(reply: Reply): nat
      requires reply.Reply?
    {
      if reply.retryAfter.Some? then reply.retryAfter.value
      else if reply.status == 403 || reply.status == 429 || reply.status >= 500 then 30_000_000_000
      else 0
    }

    /**
      The global deadline that a reply asks for, or that its status deserves, in memory and on disk. It
      is never earlier than one asked for before, because the request waited that one out.
     */
    method SetGlobalRetry(reply: Reply) returns (ok: bool)
      requires Busy() && !store.Ledger().failed && reply.Reply? && store.Ledger().pausedUntil <= store.clock.now
      modifies this`globalRetryUntil, store`feedState, store`diskFeedState, store`log, store.clock
      ensures store.feedState.feeds == old(store.feedState.feeds)
      ensures Busy() && store.clock.now >= old(store.clock.now)
      ensures globalRetryUntil >= old(globalRetryUntil)
      ensures if reply.retryAfter.Some? || Pause(reply) > 0
        then old(store.clock.now) + Pause(reply) <= store.feedState.globalBackoffUntil <= globalRetryUntil
        else ok && store.feedState == old(store.feedState) && globalRetryUntil == old(globalRetryUntil)
      ensures ok ==> store.diskFeedState == store.feedState
      ensures Requests(store.log) == Requests(old(store.log))
      ensures store.Ledger() == if ok then old(store.Ledger()).(pausedUntil := store.feedState.globalBackoffUntil)
                                else After(store.terms, old(store.Ledger()), Failed)
    {
      hide Legal, Replay, Requests;
      var delay: nat := 30_000_000_000;
      if reply.retryAfter.Some? {
        delay := reply.retryAfter.value;
      } else if !(reply.status == 403 || reply.status == 429 || reply.status >= 500) {
        return true;
      }
      var now := store.clock.Now();
      if now + delay > globalRetryUntil {
        globalRetryUntil := now + delay;
      }
      ok := store.SetGlobalBackoff(now + delay);
    }

    /** The request leaves: it is logged, and the clock of the log moves to the instant it was let go. */
    ghost method Send(e: Event)
      requires Busy() && (e.Requested? || e.Polled?) && Some(e.at) == lastRequestTime
      requires Allowed(store.terms, store.Ledger(), e)
      modifies store`log
      ensures Busy() && store.log == old(store.log) + [e]
      ensures store.Ledger() == After(store.terms, old(store.Ledger()), e)
    {
      hide Legal, Replay;
      store.Note(e);
    }

    /** The document has been received, or refused for good: it is logged, so that it has to be accounted for. */
    ghost method Receipt(url: Url)
      requires Valid() && !store.Ledger().failed
      modifies store`log
      ensures Valid() && Requests(store.log) == Requests(old(store.log))
      ensures store.Ledger() == After(store.terms, old(store.Ledger()), Received(url))
    {
      hide Legal, Replay, Requests;
      store.Note(Received(url));
    }

    /** Downloads a document that is neither spooled nor in the history. */
    method FetchData(url: Url) returns (r: Result<()>)
      requires Valid() && !store.Ledger().failed && url !in store.spool && url !in store.history
      modifies this, store.clock
      ensures tried == old(tried) + [url]
      modifies store`budget, store`diskBudget, store`committed, store`diskCommitted, store`outstanding
      modifies store`reservations, store`commits, store`feedState, store`diskFeedState, store`log
      ensures store.feedState.feeds == old(store.feedState.feeds)
      ensures Valid() && store.clock.now >= old(store.clock.now)
      ensures store.commits - old(store.commits) == store.reservations - old(store.reservations) <= 1
      ensures Requests(store.log) ==
        Requests(old(store.log)) + if store.commits > old(store.commits) then [Document(url)] else []
      ensures r.Ok? ==> store.commits == old(store.commits) + 1
      ensures store.Ledger().failed <==> r.Err? && Fatal(r.error)
      ensures SamePolls(store.Ledger(), old(store.Ledger()))
      ensures store.Ledger().received == old(store.Ledger()).received + if Final(r) then {url} else {}
      ensures SameDocuments(store.Ledger(), old(store.Ledger()))
    {
      hide Store.Recorded, Legal, Replay, Requests;
      store.OnDisk(url);
      tried := tried + [url];
      hide Valid, Busy;
      var permitted: bool := *;
      if !permitted {
        return Err(InvalidUrl);
      }
      var at := Open();
      ghost var before := store.log;
      if at.Err? {
        return Err(at.error);
      }
      Send(Requested(url, at.value));
      RequestsMore(before, Requested(url, at.value));
      r := Download(url);
    }

    /** Settles the reservation, and what has come of the document with it, unless that write fails. */
    method Settle(wire: nat, url: Url, outcome: Result<()>) returns (r: Result<()>)
      requires Busy() && !store.Ledger().failed && wire <= maxItemBytes + 1 && (outcome.Err? ==> !Fatal(outcome.error))
      modifies store.clock
      modifies store`budget, store`diskBudget, store`committed, store`diskCommitted, store`outstanding
      modifies store`commits, store`log
      ensures Valid() && store.clock.now >= old(store.clock.now) && store.commits == old(store.commits) + 1
      ensures Requests(store.log) == Requests(old(store.log))
      ensures r == outcome || r == Err(NotPersisted)
      ensures store.Ledger() ==
        if r == Err(NotPersisted) then After(store.terms, old(store.Ledger()), Failed)
        else if Final(r) then After(store.terms, old(store.Ledger()), Received(url)) else old(store.Ledger())
    {
      hide Legal, Replay, Requests, Valid, Busy;
      var ok := Close(wire);
      if !ok {
        return Err(NotPersisted);
      }
      if Final(outcome) {
        Receipt(url);
      }
      r := outcome;
    }

    /** The part of a download that follows the request. */
    method Download(url: Url) returns (r: Result<()>)
      requires Busy() && !store.Ledger().failed && store.Ledger().pausedUntil <= store.clock.now
      modifies this`globalRetryUntil, store.clock
      modifies store`budget, store`diskBudget, store`committed, store`diskCommitted, store`outstanding
      modifies store`commits, store`feedState, store`diskFeedState, store`log
      ensures store.feedState.feeds == old(store.feedState.feeds)
      ensures Valid() && store.clock.now >= old(store.clock.now) && store.commits == old(store.commits) + 1
      ensures Requests(store.log) == Requests(old(store.log))
      ensures store.Ledger().failed <==> r.Err? && Fatal(r.error)
      ensures SamePolls(store.Ledger(), old(store.Ledger())) && SameDocuments(store.Ledger(), old(store.Ledger()))
      ensures store.Ledger().received == old(store.Ledger()).received + if Final(r) then {url} else {}
    {
      hide Store.Recorded, Legal, Replay, Requests, Valid, Busy;
      var reply := Receive(maxItemBytes + 1);
      if reply.NoReply? {
        r := Settle(0, url, Err(Unreachable));
        return;
      }
      if 301 <= reply.status <= 308 {
        r := Settle(0, url, Err(RedirectNotAllowed));
        return;
      }
      var remembered := SetGlobalRetry(reply);
      if !remembered {
        var ignored := Close(0);
        return Err(NotPersisted);
      }
      assert SamePolls(store.Ledger(), old(store.Ledger())) && SameIntake(store.Ledger(), old(store.Ledger()));
      var outcome: Result<()> := Ok(());
      if reply.status < 200 || reply.status >= 300 {
        outcome := Err(Upstream(reply.status));
      } else if reply.body.Unzippable? || reply.body.Unreadable? {
        outcome := Err(BadBody);
      } else if reply.body.decoded > maxItemBytes || reply.wire > maxItemBytes {
        outcome := Err(ItemTooLarge);
      }
      r := Settle(reply.wire, url, outcome);
    }

    /**
      Polls a feed whose attempt has been recorded. The log gains exactly one poll of it, dated when the
      request was let go, if a reservation was made and settled; and no request otherwise.
     */
    method FetchFeed(feed: Url) returns (r: FeedOutcome)
      requires Valid() && !store.Ledger().failed && feed in store.Ledger().open
      modifies this, store.clock
      ensures tried == old(tried)
      modifies store`budget, store`diskBudget, store`committed, store`diskCommitted, store`outstanding
      modifies store`reservations, store`commits, store`feedState, store`diskFeedState, store`log
      ensures store.feedState.feeds == old(store.feedState.feeds)
      ensures Valid() && store.clock.now >= old(store.clock.now)
      ensures store.commits - old(store.commits) == store.reservations - old(store.reservations) <= 1
      ensures Requests(store.log) ==
        Requests(old(store.log)) + if store.commits > old(store.commits) then [Feed(feed)] else []
      ensures r.Fetched? ==> store.commits == old(store.commits) + 1
      ensures store.commits >= old(store.commits)
      ensures store.commits == old(store.commits) ==> r.NotFetched? && Unsent(r.error)
      ensures r.NotFetched? && r.error.Refused? ==> store.commits == old(store.commits)
      ensures store.Ledger().failed <==> r.NotFetched? && Fatal(r.error)
      ensures store.Ledger().next == old(store.Ledger().next) && SameIntake(store.Ledger(), old(store.Ledger()))
      ensures store.commits == old(store.commits) ==> SamePolls(store.Ledger(), old(store.Ledger()))
      ensures store.commits > old(store.commits) ==>
        && lastRequestTime.Some? && old(store.clock.now) <= lastRequestTime.value <= store.clock.now
        && store.Ledger().polls ==
             old(store.Ledger()).polls[feed := Poll(old(store.Ledger()).open[feed], lastRequestTime.value, false)]
      ensures store.commits > old(store.commits) && old(lastRequestTime).Some? ==>
        old(lastRequestTime).value + store.terms.interval <= lastRequestTime.value
    {
      hide Store.Recorded, Legal, Replay, Requests;
      var permitted: bool := *;
      if !permitted {
        return NotFetched(InvalidUrl, None);
      }
      var at := Open();
      ghost var before := store.log;
      if at.Err? {
        return NotFetched(at.error, None);
      }
      Send(Polled(feed, at.value));
      RequestsMore(before, Polled(feed, at.value));
      r := ReadFeed();
    }

    /** The part of a poll that follows the request. */
    method ReadFeed() returns (r: FeedOutcome)
      requires Busy() && !store.Ledger().failed && store.Ledger().pausedUntil <= store.clock.now
      modifies this`globalRetryUntil, store.clock
      modifies store`budget, store`diskBudget, store`committed, store`diskCommitted, store`outstanding
      modifies store`commits, store`feedState, store`diskFeedState, store`log
      ensures store.feedState.feeds == old(store.feedState.feeds)
      ensures Valid() && store.clock.now >= old(store.clock.now) && store.commits == old(store.commits) + 1
      ensures Requests(store.log) == Requests(old(store.log))
      ensures store.Ledger().failed <==> r.NotFetched? && Fatal(r.error)
      ensures SamePolls(store.Ledger(), old(store.Ledger())) && lastRequestTime == old(lastRequestTime)
      ensures SameIntake(store.Ledger(), old(store.Ledger()))
      ensures r.NotFetched? ==> !r.error.Refused?
    {
      hide Store.Recorded, Legal, Replay, Requests, Valid, Busy;
      var reply := Receive(maxItemBytes + 1);
      if reply.NoReply? {
        var ok := Close(0);
        return NotFetched(if ok then Unreachable else NotPersisted, None);
      }
      if 301 <= reply.status <= 308 && reply.status != 304 {
        var ok := Close(0);
        return NotFetched(if ok then RedirectNotAllowed else NotPersisted, None);
      }
      var nextDelay: nat := *;
      var remembered := SetGlobalRetry(reply);
      if !remembered {
        var ignored := Close(0);
        return NotFetched(NotPersisted, None);
      }
      var outcome := Fetched(FeedResult(false, nextDelay, reply.retryAfter));
      var used := reply.wire;
      if reply.status == 304 {
        outcome := Fetched(FeedResult(true, nextDelay, reply.retryAfter));
        used := 0;
      } else if reply.status < 200 || reply.status >= 300 {
        outcome := NotFetched(Upstream(reply.status), reply.retryAfter);
      } else if reply.body.Unzippable? || reply.body.Unreadable? {
        outcome := NotFetched(BadBody, None);
      } else if reply.body.decoded > maxItemBytes || reply.wire > maxItemBytes {
        outcome := NotFetched(ItemTooLarge, None);
      }
      var ok := Close(used);
      r := if ok then outcome else NotFetched(NotPersisted, None);
    }
  }
}
