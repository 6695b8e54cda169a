/**
  The acquisition protocol as a log of events: durable writes, requests to JMA, answers of core,
  failed writes and restarts. What a log amounts to, which event may come next, and what every legal
  log keeps at every point, so also wherever the process is cut off.
 */
module JmaLedger {
  import opened Options

  datatype Url = Url(text: string)

  /** The minimum interval of each feed, and the interval between any two requests. */
  datatype Terms = Terms(floors: map<Url, nat>, interval: nat) {
    function Floor(feed: Url): nat {
      if feed in floors then floors[feed] else 0
    }
  }

  datatype Event =
    | Booted
    | Spooled(url: Url)
    | Marked(url: Url)
    | Acknowledged(url: Url)
    | Deleted(url: Url)
    | Requested(url: Url, at: nat)
    | Received(url: Url)
    | Failed
    | Attempted(feed: Url, at: nat)
    | Polled(feed: Url, at: nat)
    | Scheduled(feed: Url, at: nat, until: nat)
    | Paused(until: nat)

  /** The last request to a feed: when it was planned, when it left, whether its outcome was recorded. */
  datatype Poll = Poll(attempt: nat, at: nat, settled: bool)

  /** Of what was received, that is downloaded or finally refused, only what this process received counts. */
  datatype Ledger = Ledger(
    spool: set<Url>,
    history: set<Url>,
    acknowledged: set<Url>,
    everSpooled: set<Url>,
    failed: bool,
    clock: nat,
    lastStart: Option<nat>,
    next: map<Url, nat>,
    open: map<Url, nat>,
    polls: map<Url, Poll>,
    pausedUntil: nat,
    received: set<Url>)

  const Blank := Ledger({}, {}, {}, {}, false, 0, None, map[], map[], map[], 0, {})

  function After(terms: Terms, l: Ledger, e: Event): Ledger {
    match e
    case Booted => l.(failed := false, lastStart := None, open := map[], received := {})
    case Spooled(url) => l.(spool := l.spool + {url}, everSpooled := l.everSpooled + {url})
    case Marked(url) => l.(history := l.history + {url})
    case Acknowledged(url) => l.(acknowledged := l.acknowledged + {url})
    case Deleted(url) => l.(spool := l.spool - {url})
    case Requested(url, at) => l.(clock := at, lastStart := Some(at))
    case Received(url) => l.(received := l.received + {url})
    case Failed => l.(failed := true)
    case Attempted(feed, at) =>
      l.(clock := at, next := l.next[feed := at + terms.Floor(feed)], open := l.open[feed := at])
    case Polled(feed, at) =>
      var attempt := if feed in l.open then l.open[feed] else at;
      l.(clock := at, lastStart := Some(at), open := l.open - {feed}, polls := l.polls[feed := Poll(attempt, at, false)])
    case Scheduled(feed, at, until) =>
      l.(clock := at, next := l.next[feed := until], open := l.open - {feed},
         polls := if feed in l.polls then l.polls[feed := l.polls[feed].(settled := true)] else l.polls)
    case Paused(until) => l.(pausedUntil := until)
  }

  /** A request may leave: nothing failed since the last start, and interval and pause are over. */
  predicate MayStart(terms: Terms, l: Ledger, at: nat) {
    && !l.failed && l.clock <= at && l.pausedUntil <= at
    && (l.lastStart.Some? ==> l.lastStart.value + terms.interval <= at)
  }

  predicate Allowed(terms: Terms, l: Ledger, e: Event) {
    match e
    case Booted => true
    case Spooled(_) => true
    case Marked(url) => url in l.spool
    case Acknowledged(url) => url in l.spool
    case Deleted(url) => url in l.history && url in l.acknowledged
    case Requested(url, at) => MayStart(terms, l, at) && url !in l.spool && url !in l.history
    case Received(_) => !l.failed
    case Failed => true
    case Attempted(feed, at) => l.clock <= at && (feed in l.next ==> l.next[feed] <= at)
    case Polled(feed, at) => MayStart(terms, l, at) && feed in l.open
    case Scheduled(feed, at, until) => l.clock <= at && at + terms.Floor(feed) <= until && feed in l.next
    case Paused(until) => l.pausedUntil <= until
  }

  /** Spool, history and what core has are the same. */
  predicate SameDocuments(a: Ledger, b: Ledger) {
    a.spool == b.spool && a.history == b.history && a.everSpooled == b.everSpooled && a.acknowledged == b.acknowledged
  }

  /** Nothing was received, spooled, recorded or delivered in between. */
  predicate SameIntake(a: Ledger, b: Ledger) {
    SameDocuments(a, b) && a.received == b.received
  }

  /** Schedules, open attempts and polls are the same. */
  predicate SamePolls(a: Ledger, b: Ledger) {
    a.next == b.next && a.open == b.open && a.polls == b.polls
  }

  function Replay(terms: Terms, log: seq<Event>): Ledger {
    if log == [] then Blank else After(terms, Replay(terms, log[..|log| - 1]), log[|log| - 1])
  }

  predicate Legal(terms: Terms, log: seq<Event>) {
    log == [] || (Legal(terms, log[..|log| - 1]) && Allowed(terms, Replay(terms, log[..|log| - 1]), log[|log| - 1]))
  }

  lemma OneMore(terms: Terms, log: seq<Event>, e: Event)
    ensures Replay(terms, log + [e]) == After(terms, Replay(terms, log), e)
    ensures Legal(terms, log + [e]) <==> Legal(terms, log) && Allowed(terms, Replay(terms, log), e)
  {
    assert (log + [e])[..|log|] == log;
  }

  lemma LastEvent(terms: Terms, log: seq<Event>)
    requires log != []
    ensures Replay(terms, log) == After(terms, Replay(terms, log[..|log| - 1]), log[|log| - 1])
  {
    hide After;
  }

  /** What was asked of JMA: a document or a feed. */
  datatype Sent = Document(url: Url) | Feed(url: Url)

  predicate IsRequest(e: Event) {
    e.Requested? || e.Polled?
  }

  /** The requests an event stands for, at most one. */
  function SentBy(e: Event): seq<Sent> {
    if e.Requested? then [Document(e.url)] else if e.Polled? then [Feed(e.feed)] else []
  }

  /** The requests of a log, in order. */
  function Requests(log: seq<Event>): seq<Sent> {
    if log == [] then [] else Requests(log[..|log| - 1]) + SentBy(log[|log| - 1])
  }

  lemma RequestsMore(log: seq<Event>, e: Event)
    ensures Requests(log + [e]) == Requests(log) + SentBy(e)
  {
    assert (log + [e])[..|log|] == log;
  }

  lemma {:induction false} PrefixLegal(terms: Terms, log: seq<Event>, k: nat)
    requires k <= |log| && Legal(terms, log)
    ensures Legal(terms, log[..k])
  {
    if k == |log| {
      assert log[..k] == log;
    } else {
      PrefixLegal(terms, log[..|log| - 1], k);
      assert log[..|log| - 1][..k] == log[..k];
    }
  }

  lemma AllowedAt(terms: Terms, log: seq<Event>, k: nat)
    requires k < |log| && Legal(terms, log)
    ensures Legal(terms, log[..k]) && Allowed(terms, Replay(terms, log[..k]), log[k])
    ensures Replay(terms, log[..k + 1]) == After(terms, Replay(terms, log[..k]), log[k])
  {
    PrefixLegal(terms, log, k + 1);
    assert log[..k + 1][..k] == log[..k];
  }

  // ----- What every legal log keeps -----

  /** No document is lost before core has it, nor marked without being kept. */
  predicate Kept(l: Ledger) {
    && l.everSpooled <= l.spool + l.history
    && l.history <= l.spool + l.acknowledged
    && l.history <= l.everSpooled
  }

  /** What the next poll of a feed that was polled before has to wait for. */
  predicate Waits(terms: Terms, l: Ledger, feed: Url, bound: nat)
    requires feed in l.polls
  {
    var poll := l.polls[feed];
    bound >= poll.attempt + terms.Floor(feed) && (poll.settled ==> bound >= poll.at + terms.Floor(feed))
  }

  /** One feed: an open attempt set the schedule, and the schedule makes the next poll wait. */
  predicate PoliteTo(terms: Terms, l: Ledger, f: Url) {
    && (f in l.open ==> l.open[f] <= l.clock && f in l.next && l.next[f] == l.open[f] + terms.Floor(f))
    && (f in l.polls ==>
          && l.polls[f].attempt <= l.polls[f].at <= l.clock && f in l.next
          && Waits(terms, l, f, l.next[f])
          && (f in l.open ==> Waits(terms, l, f, l.open[f])))
  }

  ghost predicate Polite(terms: Terms, l: Ledger) {
    && (l.lastStart.Some? ==> l.lastStart.value <= l.clock)
    && (forall f :: f in l.open || f in l.polls ==> PoliteTo(terms, l, f))
  }

  lemma KeptAfter(terms: Terms, l: Ledger, e: Event)
    requires Kept(l) && Allowed(terms, l, e)
    requires e.Marked? ==> e.url in l.everSpooled
    ensures Kept(After(terms, l, e))
  {
  }

  lemma PoliteAfter(terms: Terms, l: Ledger, e: Event)
    requires Polite(terms, l) && Allowed(terms, l, e)
    ensures Polite(terms, After(terms, l, e))
  {
    forall f | f in After(terms, l, e).open || f in After(terms, l, e).polls
      ensures PoliteTo(terms, After(terms, l, e), f)
    {
      PoliteToAfter(terms, l, e, f);
    }
  }

  lemma PoliteToAfter(terms: Terms, l: Ledger, e: Event, f: Url)
    requires Allowed(terms, l, e) && (l.lastStart.Some? ==> l.lastStart.value <= l.clock)
    requires f in l.open || f in l.polls ==> PoliteTo(terms, l, f)
    ensures PoliteTo(terms, After(terms, l, e), f)
  {
  }

  lemma {:induction false} SpoolWasSpooled(terms: Terms, log: seq<Event>)
    ensures Replay(terms, log).spool <= Replay(terms, log).everSpooled
  {
    if log != [] {
      hide Replay, After;
      LastEvent(terms, log);
      SpoolWasSpooled(terms, log[..|log| - 1]);
      SpoolAfter(terms, Replay(terms, log[..|log| - 1]), log[|log| - 1]);
    }
  }

  lemma SpoolAfter(terms: Terms, l: Ledger, e: Event)
    requires l.spool <= l.everSpooled
    ensures After(terms, l, e).spool <= After(terms, l, e).everSpooled
  {
  }

  lemma {:induction false} LegalKeeps(terms: Terms, log: seq<Event>)
    requires Legal(terms, log)
    ensures Kept(Replay(terms, log)) && Polite(terms, Replay(terms, log))
  {
    if log != [] {
      var front := log[..|log| - 1];
      LegalKeeps(terms, front);
      SpoolWasSpooled(terms, front);
      KeptAfter(terms, Replay(terms, front), log[|log| - 1]);
      PoliteAfter(terms, Replay(terms, front), log[|log| - 1]);
    }
  }

  /**
    Crash-safe acquisition: cut a legal log anywhere and restart. Every document ever spooled is still
    in the spool or has been acknowledged by core; and what the history lists is one or the other.
   */
  lemma NothingIsLost(terms: Terms, log: seq<Event>, k: nat)
    requires Legal(terms, log) && k <= |log|
    ensures Legal(terms, log[..k] + [Booted])
    ensures var l := Replay(terms, log[..k] + [Booted]);
      && l.everSpooled <= l.spool + l.history
      && l.everSpooled <= l.spool + l.acknowledged
      && l.history <= l.spool + l.acknowledged
  {
    PrefixLegal(terms, log, k);
    OneMore(terms, log[..k], Booted);
    LegalKeeps(terms, log[..k]);
  }

  lemma {:induction false} StaysSpooled(terms: Terms, log: seq<Event>, i: nat, url: Url)
    requires i < |log| && log[i] == Spooled(url)
    ensures url in Replay(terms, log).everSpooled
  {
    hide Replay;
    LastEvent(terms, log);
    if i < |log| - 1 {
      StaysSpooled(terms, log[..|log| - 1], i, url);
    }
  }

  /** A document once spooled is never requested from JMA again, through any crashes and restarts. */
  lemma NeverAgain(terms: Terms, log: seq<Event>, i: nat, j: nat, url: Url)
    requires Legal(terms, log) && i < j < |log| && log[i] == Spooled(url)
    ensures !(log[j].Requested? && log[j].url == url)
  {
    AllowedAt(terms, log, j);
    LegalKeeps(terms, log[..j]);
    StaysSpooled(terms, log[..j], i, url);
  }

  lemma {:induction false} StaysFailed(terms: Terms, log: seq<Event>, i: nat)
    requires i < |log| && log[i] == Failed && forall k :: i < k < |log| ==> log[k] != Booted
    ensures Replay(terms, log).failed
  {
    hide Replay;
    LastEvent(terms, log);
    if i < |log| - 1 {
      StaysFailed(terms, log[..|log| - 1], i);
    }
  }

  lemma {:induction false} PauseRemembered(terms: Terms, log: seq<Event>, i: nat)
    requires Legal(terms, log) && i < |log| && log[i].Paused?
    ensures log[i].until <= Replay(terms, log).pausedUntil
  {
    hide Replay, Legal;
    AllowedAt(terms, log, |log| - 1);
    assert log[..|log|] == log;
    if i < |log| - 1 {
      PauseRemembered(terms, log[..|log| - 1], i);
    }
  }

  /** While any pause that JMA asked for and that was written runs, nothing is sent, through any restarts. */
  lemma PausesAreKept(terms: Terms, log: seq<Event>, i: nat, j: nat)
    requires Legal(terms, log) && i < j < |log| && log[i].Paused? && IsRequest(log[j])
    ensures log[i].until <= log[j].at
  {
    AllowedAt(terms, log, j);
    PauseRemembered(terms, log[..j], i);
  }

  /** After the first failed write a process sends JMA nothing more. */
  lemma QuietAfterFailure(terms: Terms, log: seq<Event>, i: nat, j: nat)
    requires Legal(terms, log) && i < j < |log| && log[i] == Failed
    requires forall k :: i < k < j ==> log[k] != Booted
    ensures !IsRequest(log[j])
  {
    AllowedAt(terms, log, j);
    StaysFailed(terms, log[..j], i);
  }

  // ----- Polite polling -----

  /** A poll keeps the floor from the last planned instant, and from the last request if that was settled. */
  lemma PollsArePolite(terms: Terms, log: seq<Event>, k: nat)
    requires Legal(terms, log) && k < |log| && log[k].Polled?
    ensures var l, feed := Replay(terms, log[..k]), log[k].feed;
      feed in l.polls ==>
        && log[k].at >= l.polls[feed].attempt + terms.Floor(feed)
        && (l.polls[feed].settled ==> log[k].at >= l.polls[feed].at + terms.Floor(feed))
  {
    AllowedAt(terms, log, k);
    LegalKeeps(terms, log[..k]);
  }

  lemma {:induction false} StartRemembered(terms: Terms, log: seq<Event>, i: nat)
    requires Legal(terms, log) && i < |log| && IsRequest(log[i])
    requires forall k :: i < k < |log| ==> log[k] != Booted
    ensures Replay(terms, log).lastStart.Some? && log[i].at <= Replay(terms, log).lastStart.value
  {
    AllowedAt(terms, log, |log| - 1);
    assert log[..|log|] == log;
    if i < |log| - 1 {
      StartRemembered(terms, log[..|log| - 1], i);
    }
  }

  /** Any two requests of one process are the serial interval apart. */
  lemma RequestsAreSpaced(terms: Terms, log: seq<Event>, i: nat, j: nat)
    requires Legal(terms, log) && i < j < |log|
    requires IsRequest(log[i]) && IsRequest(log[j])
    requires forall k :: i < k < j ==> log[k] != Booted
    ensures log[i].at + terms.interval <= log[j].at
  {
    AllowedAt(terms, log, j);
    StartRemembered(terms, log[..j], i);
  }

  /** run goes on legally from before, and polls the feed at j for the first time. */
  predicate Follows(terms: Terms, before: seq<Event>, run: seq<Event>, j: nat, feed: Url) {
    && Legal(terms, run) && |before| <= j < |run| && run[..|before|] == before
    && run[j].Polled? && run[j].feed == feed
    && forall k :: |before| <= k < j ==> !(run[k].Polled? && run[k].feed == feed)
  }

  lemma PollAfter(terms: Terms, l: Ledger, e: Event, feed: Url)
    ensures var l1 := After(terms, l, e);
      if e.Polled? && e.feed == feed then feed in l1.polls && l1.polls[feed].at == e.at
      else feed in l.polls ==>
        feed in l1.polls && l1.polls[feed].attempt == l.polls[feed].attempt && l1.polls[feed].at == l.polls[feed].at
  {
  }

  lemma {:induction false} SamePoll(terms: Terms, log: seq<Event>, i: nat, feed: Url)
    requires i < |log| && log[i].Polled? && log[i].feed == feed
    requires forall k :: i < k < |log| ==> !(log[k].Polled? && log[k].feed == feed)
    ensures var l, l1 := Replay(terms, log), Replay(terms, log[..i + 1]);
      feed in l.polls && feed in l1.polls && l.polls[feed].attempt == l1.polls[feed].attempt
      && l.polls[feed].at == l1.polls[feed].at == log[i].at
  {
    hide Replay, After;
    LastEvent(terms, log);
    PollAfter(terms, Replay(terms, log[..|log| - 1]), log[|log| - 1], feed);
    if i == |log| - 1 {
      assert log[..i + 1] == log;
    } else {
      var front := log[..|log| - 1];
      SamePoll(terms, front, i, feed);
      assert front[..i + 1] == log[..i + 1];
    }
  }

  lemma CrashAndReturn(terms: Terms, log: seq<Event>, feed: Url, at: nat)
    requires Legal(terms, log + [Polled(feed, at)])
    ensures var attempt := Replay(terms, log + [Polled(feed, at)]).polls[feed].attempt;
      Legal(terms, Shortest(terms, log, feed, attempt, at))
  {
    hide Legal, Replay;
    OneMore(terms, log, Polled(feed, at));
    LegalKeeps(terms, log);
    var attempt := Replay(terms, log + [Polled(feed, at)]).polls[feed].attempt;
    var again := if attempt + terms.Floor(feed) < at then at else attempt + terms.Floor(feed);
    var a := log + [Polled(feed, at)];
    OneMore(terms, a, Booted);
    OneMore(terms, a + [Booted], Attempted(feed, again));
    OneMore(terms, a + [Booted] + [Attempted(feed, again)], Polled(feed, again));
  }

  /** The shortest way from one poll to the next: crash at once, restart, and poll on the planned instant. */
  function Shortest(terms: Terms, log: seq<Event>, feed: Url, attempt: nat, at: nat): seq<Event> {
    var again := if attempt + terms.Floor(feed) < at then at else attempt + terms.Floor(feed);
    log + [Polled(feed, at)] + [Booted] + [Attempted(feed, again)] + [Polled(feed, again)]
  }

  /**
    The floor between requests, exactly: after a poll that was planned at one instant and left at
    another, some legal run polls again before the floor has passed if and only if the two differ.
   */
  lemma FloorBetweenRequests(terms: Terms, log: seq<Event>, feed: Url, at: nat)
    requires Legal(terms, log + [Polled(feed, at)]) && terms.Floor(feed) > 0
    ensures var attempt := Replay(terms, log + [Polled(feed, at)]).polls[feed].attempt;
      if attempt < at then
        var run := Shortest(terms, log, feed, attempt, at);
        Legal(terms, run) && run[|run| - 1].Polled? && run[|run| - 1].at < at + terms.Floor(feed)
      else
        && attempt == at
        && forall run: seq<Event>, j: nat :: Follows(terms, log + [Polled(feed, at)], run, j, feed) ==>
             run[j].at >= at + terms.Floor(feed)
  {
    hide Legal, Replay, Waits;
    var before := log + [Polled(feed, at)];
    OneMore(terms, log, Polled(feed, at));
    LegalKeeps(terms, log);
    CrashAndReturn(terms, log, feed, at);
    forall run: seq<Event>, j: nat | Replay(terms, before).polls[feed].attempt == at && Follows(terms, before, run, j, feed)
      ensures run[j].at >= at + terms.Floor(feed)
    {
      assert run[|log|] == run[..|before|][|log|] == Polled(feed, at);
      SamePoll(terms, run[..j], |log|, feed);
      assert run[..j][..|log| + 1] == before;
      PollsArePolite(terms, run, j);
    }
  }
}
