/**
  The EMSC adapter: live messages are grouped into batches and delivered in order, backfill pages are
  fetched one after the other, and failed attempts are repeated. What the channels, the network and
  core do comes in as a sequence of outcomes, as long as the run has got so far.
 */
module LiveDelivery {

  /** A message and the time of its last update. */
  datatype LiveMessage = LiveMessage(id: nat, lastUpdate: int)

  function Flatten(batches: seq<seq<LiveMessage>>): seq<LiveMessage> {
    if batches == [] then [] else Flatten(batches[..|batches| - 1]) + batches[|batches| - 1]
  }

  lemma FlattenMore(batches: seq<seq<LiveMessage>>, batch: seq<LiveMessage>)
    ensures Flatten(batches + [batch]) == Flatten(batches) + batch
  {
    assert (batches + [batch])[..|batches|] == batches;
  }

  // ----- Batcher -----

  /**
    What the select of the batcher meets next, whether the context is still live then, and, once it is
    not, whether a flush still gets through.
   */
  datatype Input = Input(kind: Kind, live: bool, taken: bool)

  datatype Kind = Message(message: LiveMessage) | TimerFired | Closed | Stopped

  /** Everything received in these inputs. */
  function Received(inputs: seq<Input>): seq<LiveMessage> {
    if inputs == [] then [] else
    var before := Received(inputs[..|inputs| - 1]);
    if inputs[|inputs| - 1].kind.Message? then before + [inputs[|inputs| - 1].kind.message] else before
  }

  /** Every message is received once, in its place: between what came before it and what comes after. */
  lemma {:induction false} ReceivedInPlace(inputs: seq<Input>, k: nat)
    requires k < |inputs|
    ensures Received(inputs) == Received(inputs[..k])
      + (if inputs[k].kind.Message? then [inputs[k].kind.message] else []) + Received(inputs[k + 1..])
    decreases |inputs|
  {
    if k == |inputs| - 1 {
      assert inputs[k + 1..] == [];
    } else {
      var front := inputs[..|inputs| - 1];
      ReceivedInPlace(front, k);
      assert front[..k] == inputs[..k];
      assert inputs[k + 1..][..|inputs| - k - 2] == front[k + 1..];
    }
  }

  /** A flush at this input hands its batch over: the context is live, or the batch is taken all the same. */
  predicate Flushes(input: Input) {
    (input.live && !input.kind.Stopped?) || input.taken
  }

  predicate Live(inputs: seq<Input>) {
    forall k :: 0 <= k < |inputs| ==> Flushes(inputs[k])
  }

  /** The input that ends the batcher. */
  predicate Ends(input: Input) {
    input.kind.Closed? || input.kind.Stopped?
  }

  predicate NoneEnds(inputs: seq<Input>) {
    forall k :: 0 <= k < |inputs| ==> !Ends(inputs[k])
  }

  function Most(size: int): nat {
    if size < 1 then 1 else size
  }

  predicate Sized(batches: seq<seq<LiveMessage>>, size: int) {
    forall k :: 0 <= k < |batches| ==> 1 <= |batches[k]| <= Most(size)
  }

  /**
    Batch k was cut at input cuts[k]. One that neither the timer nor the end has cut is full, and no
    message after the cut is in it.
   */
  predicate CutAt(out: seq<seq<LiveMessage>>, cuts: seq<nat>, inputs: seq<Input>, used: nat, size: int)
    requires used <= |inputs|
  {
    && |cuts| == |out|
    && (forall k :: 0 <= k < |cuts| ==> cuts[k] < used && (inputs[cuts[k]].kind.Message? ==> |out[k]| == Most(size)))
    && (Live(inputs[..used]) ==>
          forall k :: 0 <= k < |cuts| ==> Flatten(out[..k + 1]) == Received(inputs[..cuts[k] + 1]))
  }

  lemma OneMoreCut(out: seq<seq<LiveMessage>>, cuts: seq<nat>, inputs: seq<Input>, i: nat, full: seq<LiveMessage>,
                   size: int)
    requires i < |inputs| && CutAt(out, cuts, inputs, i, size)
    ensures CutAt(out, cuts, inputs, i + 1, size)
    ensures (inputs[i].kind.Message? ==> |full| == Most(size))
         && (Live(inputs[..i + 1]) ==> Flatten(out) + full == Received(inputs[..i + 1]))
         ==> CutAt(out + [full], cuts + [i], inputs, i + 1, size)
  {
    hide Flatten, Received, Most, Live;
    NextInput(inputs, i);
    FlattenMore(out, full);
    assert forall k {:trigger out[..k + 1]} :: 0 <= k < |out| ==> (out + [full])[..k + 1] == out[..k + 1];
    assert (out + [full])[..|out| + 1] == out + [full];
  }

  method Flush(out: seq<seq<LiveMessage>>, buf: seq<LiveMessage>, input: Input) returns (out': seq<seq<LiveMessage>>)
    ensures out' == if buf != [] && Flushes(input) then out + [buf] else out
  {
    if |buf| == 0 {
      return out;
    }
    out' := if (input.live && !input.kind.Stopped?) || input.taken then out + [buf] else out;
  }

  /**
    The batcher over the inputs it gets. It is done at the first input that ends it, and only there, and
    then the buffer has been flushed. While flushes get through, batches and buffer are exactly what was
    received, in order. The timer empties the buffer; without it and the end batches are full.
   */
  method RunBatcher(size: int, inputs: seq<Input>)
    returns (out: seq<seq<LiveMessage>>, buf: seq<LiveMessage>, done: bool, ghost used: nat, ghost cuts: seq<nat>)
    ensures used <= |inputs| && Sized(out, size) && |buf| < Most(size)
    ensures done <==> exists k :: 0 <= k < |inputs| && Ends(inputs[k])
    ensures if done then used > 0 && Ends(inputs[used - 1]) && NoneEnds(inputs[..used - 1]) && buf == []
            else used == |inputs|
    ensures Live(inputs[..used]) ==> Flatten(out) + buf == Received(inputs[..used])
    ensures used > 0 && inputs[used - 1].kind.TimerFired? ==> buf == []
    ensures CutAt(out, cuts, inputs, used, size)
  {
    hide Flatten, Received, Live, Sized, Most, CutAt, Flushes;
    out, buf, done, used, cuts := [], [], false, 0, [];
    var timerSet := false;
    NothingYet(size, inputs);
    for i := 0 to |inputs|
      invariant used == i && timerSet == (buf != []) && |buf| < Most(size) && Sized(out, size)
      invariant NoneEnds(inputs[..i]) && (i > 0 && inputs[i - 1].kind.TimerFired? ==> buf == [])
      invariant Live(inputs[..i]) ==> Flatten(out) + buf == Received(inputs[..i])
      invariant CutAt(out, cuts, inputs, i, size)
    {
      used := i + 1;
      NextInput(inputs, i);
      ghost var was, full := out, if inputs[i].kind.Message? then buf + [inputs[i].kind.message] else buf;
      assert Live(inputs[..i + 1]) ==> Flatten(out) + full == Received(inputs[..i + 1]) by {
        if inputs[i].kind.Message? {
          assert Flatten(out) + buf + [inputs[i].kind.message] == Flatten(out) + full;
        }
      }
      SendsAll(out, full, size);
      OneMoreCut(out, cuts, inputs, i, full, size);
      match inputs[i].kind {
      case Message(message) =>
        buf := buf + [message];
        timerSet := true;
        if |buf| >= size {
          out := Flush(out, buf, inputs[i]);
          buf, timerSet := [], false;
        }
      case TimerFired =>
        if timerSet {
          out := Flush(out, buf, inputs[i]);
          buf, timerSet := [], false;
        }
      case Closed =>
        out := Flush(out, buf, inputs[i]);
        buf, done := [], true;
      case Stopped =>
        out := Flush(out, buf, inputs[i]);
        buf, done := [], true;
      }
      if out != was {
        cuts := cuts + [i];
      }
      if done {
        return;
      }
    }
    assert inputs[..|inputs|] == inputs;
  }

  lemma NothingYet(size: int, inputs: seq<Input>)
    ensures Flatten([]) + [] == Received(inputs[..0]) && Sized([], size) && Most(size) > 0
    ensures CutAt([], [], inputs, 0, size)
  {
  }

  lemma NextInput(inputs: seq<Input>, i: nat)
    requires i < |inputs|
    ensures Received(inputs[..i + 1]) ==
      if inputs[i].kind.Message? then Received(inputs[..i]) + [inputs[i].kind.message] else Received(inputs[..i])
    ensures Live(inputs[..i + 1]) ==> Live(inputs[..i]) && Flushes(inputs[i])
  {
    assert inputs[..i + 1][..i] == inputs[..i];
    if Live(inputs[..i + 1]) {
      assert inputs[..i + 1][i] == inputs[i];
      assert forall k :: 0 <= k < i ==> inputs[..i][k] == inputs[..i + 1][k];
    }
  }

  /** A batch that is sent keeps the messages together and the sizes right. */
  lemma SendsAll(out: seq<seq<LiveMessage>>, buf: seq<LiveMessage>, size: int)
    requires Sized(out, size) && |buf| <= Most(size)
    ensures Flatten(out + [buf]) + [] == Flatten(out) + buf && Flatten(out) + [] == Flatten(out)
    ensures buf != [] ==> Sized(out + [buf], size)
    ensures 0 < Most(size) && (|buf| < size ==> |buf| < Most(size)) && (buf != [] && |buf| >= size ==> |buf| == Most(size))
  {
    FlattenMore(out, buf);
  }

  // ----- Live delivery -----

  /** One attempt to send, and whether the pause after a failure is let run out. */
  datatype Attempt = Attempt(accepted: bool, continues: bool)

  /** The latest update among these messages and start. */
  function Latest(start: int, messages: seq<LiveMessage>): int {
    if messages == [] then start else
    var before := Latest(start, messages[..|messages| - 1]);
    if messages[|messages| - 1].lastUpdate > before then messages[|messages| - 1].lastUpdate else before
  }

  lemma {:induction false} LatestAppend(start: int, a: seq<LiveMessage>, b: seq<LiveMessage>)
    ensures Latest(start, a + b) == Latest(Latest(start, a), b)
  {
    if b == [] {
      assert a + b == a;
    } else {
      assert (a + b)[..|a + b| - 1] == a + b[..|b| - 1];
      LatestAppend(start, a, b[..|b| - 1]);
    }
  }

  /** It is the largest of them and start. */
  lemma {:induction false} LatestIsLargest(start: int, messages: seq<LiveMessage>)
    ensures start <= Latest(start, messages)
    ensures forall k :: 0 <= k < |messages| ==> messages[k].lastUpdate <= Latest(start, messages)
    ensures Latest(start, messages) == start
      || exists k :: 0 <= k < |messages| && messages[k].lastUpdate == Latest(start, messages)
  {
    if messages != [] {
      var front := messages[..|messages| - 1];
      LatestIsLargest(start, front);
      assert forall k :: 0 <= k < |front| ==> messages[k] == front[k];
    }
  }

  predicate GivesUp(attempt: Attempt) {
    !attempt.accepted && !attempt.continues
  }

  predicate NoneGivesUp(attempts: seq<Attempt>) {
    forall k :: 0 <= k < |attempts| ==> !GivesUp(attempts[k])
  }

  /** How many attempts succeed before the first that gives up. */
  function Accepts(attempts: seq<Attempt>): nat {
    if attempts == [] then 0 else
    var front := attempts[..|attempts| - 1];
    Accepts(front) + if attempts[|attempts| - 1].accepted && NoneGivesUp(front) then 1 else 0
  }

  lemma OneMoreAttempt(attempts: seq<Attempt>, k: nat)
    requires k < |attempts| && NoneGivesUp(attempts[..k])
    ensures NoneGivesUp(attempts[..k + 1]) <==> !GivesUp(attempts[k])
    ensures Accepts(attempts[..k + 1]) == Accepts(attempts[..k]) + if attempts[k].accepted then 1 else 0
  {
    assert attempts[..k + 1][..k] == attempts[..k];
  }

  /** Once an attempt has given up, none counts any more; before, every further one can only add. */
  lemma {:induction false} AttemptsAfter(attempts: seq<Attempt>, k: nat)
    requires k <= |attempts|
    ensures Accepts(attempts[..k]) <= Accepts(attempts)
    ensures !NoneGivesUp(attempts[..k]) ==> Accepts(attempts) == Accepts(attempts[..k]) && !NoneGivesUp(attempts)
  {
    if k == |attempts| {
      assert attempts[..k] == attempts;
    } else {
      var front := attempts[..|attempts| - 1];
      assert front[..k] == attempts[..k];
      AttemptsAfter(front, k);
      assert forall j :: 0 <= j < |front| ==> front[j] == attempts[j];
    }
  }

  datatype Ending = AllSent | Cancelled | StillTrying

  /**
    Sends each batch until core accepts it. The accepted batches are the first ones, complete and in
    order, one for each attempt that succeeds before one gives up, until all are sent. The high-water
    mark covers what was accepted, no more.
   */
  method SendLive(batches: seq<seq<LiveMessage>>, attempts: seq<Attempt>, start: int)
    returns (accepted: seq<seq<LiveMessage>>, maxLastUpdate: int, ending: Ending)
    ensures accepted <= batches
    ensures |accepted| == if Accepts(attempts) < |batches| then Accepts(attempts) else |batches|
    ensures ending == if Accepts(attempts) >= |batches| then AllSent
                      else if NoneGivesUp(attempts) then StillTrying else Cancelled
    ensures maxLastUpdate == Latest(start, Flatten(accepted))
  {
    hide Flatten, Latest, Accepts, NoneGivesUp;
    accepted, maxLastUpdate := [], start;
    var next := 0;
    NothingSent(attempts, start);
    for i := 0 to |batches|
      invariant accepted == batches[..i] && next <= |attempts| && Accepts(attempts[..next]) == i
      invariant NoneGivesUp(attempts[..next])
      invariant maxLastUpdate == Latest(start, Flatten(accepted))
    {
      var sent := false;
      while !sent && next < |attempts|
        invariant next <= |attempts| && NoneGivesUp(attempts[..next])
        invariant Accepts(attempts[..next]) == if sent then i + 1 else i
        invariant maxLastUpdate == Latest(start, Flatten(if sent then batches[..i + 1] else batches[..i]))
        decreases |attempts| - next
      {
        OneMoreAttempt(attempts, next);
        if attempts[next].accepted {
          sent := true;
          assert batches[..i + 1] == batches[..i] + [batches[i]];
          FlattenMore(batches[..i], batches[i]);
          LatestAppend(start, Flatten(batches[..i]), batches[i]);
          maxLastUpdate := MaxLastUpdate(maxLastUpdate, batches[i]);
        } else if !attempts[next].continues {
          AttemptsAfter(attempts, next + 1);
          return accepted, maxLastUpdate, Cancelled;
        }
        next := next + 1;
      }
      if !sent {
        assert attempts[..next] == attempts;
        return accepted, maxLastUpdate, StillTrying;
      }
      accepted := accepted + [batches[i]];
      assert batches[..i + 1] == batches[..i] + [batches[i]];
    }
    AttemptsAfter(attempts, next);
    ending := AllSent;
  }

  lemma NothingSent(attempts: seq<Attempt>, start: int)
    ensures NoneGivesUp(attempts[..0]) && Accepts(attempts[..0]) == 0 && Latest(start, Flatten([])) == start
  {
  }

  method MaxLastUpdate(start: int, messages: seq<LiveMessage>) returns (latest: int)
    ensures latest == Latest(start, messages)
  {
    latest := start;
    for i := 0 to |messages|
      invariant latest == Latest(start, messages[..i])
    {
      assert messages[..i + 1][..i] == messages[..i];
      if messages[i].lastUpdate > latest {
        latest := messages[i].lastUpdate;
      }
    }
    assert messages[..|messages|] == messages;
  }

  lemma {:induction false} FlattenPrefix(a: seq<seq<LiveMessage>>, b: seq<seq<LiveMessage>>)
    requires a <= b
    ensures Flatten(a) <= Flatten(b)
  {
    if a != b {
      var k := |b| - 1;
      FlattenPrefix(a, b[..k]);
    }
  }

  /**
    Live delivery from end to end: while the context is live, what core has accepted is a prefix of what
    was received, and all of it exactly if the input has ended and enough attempts succeed for its batches.
   */
  method RunLive(size: int, inputs: seq<Input>, attempts: seq<Attempt>, start: int)
    returns (accepted: seq<seq<LiveMessage>>, maxLastUpdate: int, complete: bool, ghost used: nat,
             ghost batches: seq<seq<LiveMessage>>)
    ensures used <= |inputs| && Sized(batches, size) && accepted <= batches
    ensures |accepted| == if Accepts(attempts) < |batches| then Accepts(attempts) else |batches|
    ensures complete <==> accepted == batches && exists k :: 0 <= k < |inputs| && Ends(inputs[k])
    ensures Live(inputs[..used]) ==> Flatten(accepted) <= Flatten(batches) <= Received(inputs[..used])
    ensures Live(inputs[..used]) && complete ==> Flatten(accepted) == Received(inputs[..used])
    ensures maxLastUpdate == Latest(start, Flatten(accepted))
  {
    hide Accepts, Received;
    var sent, buf, done;
    ghost var cuts;
    sent, buf, done, used, cuts := RunBatcher(size, inputs);
    batches := sent;
    var ending;
    accepted, maxLastUpdate, ending := SendLive(sent, attempts, start);
    FlattenPrefix(accepted, sent);
    complete := done && ending == AllSent;
    assert Flatten(sent) + [] == Flatten(sent);
  }

  // ----- Backfill -----

  /** One attempt at a page: the context is live, the page fetched, accepted by core, and the pause let run out. */
  datatype PageAttempt = PageAttempt(live: bool, fetched: bool, accepted: bool, continues: bool)

  function Outcomes(attempts: seq<PageAttempt>): (outcomes: seq<Attempt>)
    ensures |outcomes| == |attempts|
  {
    seq(|attempts|, k requires 0 <= k < |attempts| =>
      var a := attempts[k];
      Attempt(a.live && a.fetched && a.accepted, a.live && a.continues))
  }

  /** The page at a 1-based offset of a result list. */
  function Page(results: seq<LiveMessage>, offset: nat, limit: nat): (page: seq<LiveMessage>)
    requires offset >= 1
    ensures |page| <= limit
  {
    if offset - 1 >= |results| then []
    else if offset - 1 + limit >= |results| then results[offset - 1..]
    else results[offset - 1..offset - 1 + limit]
  }

  /** Every page starts where the pages before it end. */
  predicate Tiled(pages: seq<seq<LiveMessage>>, results: seq<LiveMessage>, limit: nat) {
    pages == [] ||
    var front := pages[..|pages| - 1];
    Tiled(front, results, limit) && pages[|pages| - 1] == Page(results, 1 + |Flatten(front)|, limit)
  }

  predicate AllFull(pages: seq<seq<LiveMessage>>, limit: nat) {
    forall k :: 0 <= k < |pages| ==> |pages[k]| == limit
  }

  lemma OnePageMore(pages: seq<seq<LiveMessage>>, results: seq<LiveMessage>, limit: nat, page: seq<LiveMessage>)
    requires Tiled(pages, results, limit) && Flatten(pages) <= results
    requires page == Page(results, 1 + |Flatten(pages)|, limit)
    ensures Tiled(pages + [page], results, limit)
    ensures Flatten(pages + [page]) == Flatten(pages) + page <= results
    ensures |page| < limit ==> Flatten(pages + [page]) == results
  {
    hide Flatten, Page;
    FlattenMore(pages, page);
    PageContinues(Flatten(pages), results, limit);
    assert (pages + [page])[..|pages|] == pages;
  }

  lemma PageContinues(done: seq<LiveMessage>, results: seq<LiveMessage>, limit: nat)
    requires done <= results
    ensures var page := Page(results, 1 + |done|, limit);
      done + page <= results && (|page| < limit ==> done + page == results)
  {
    var n := |done|;
    assert results[..n] == done;
    if n + limit < |results| {
      assert done + results[n..n + limit] == results[..n + limit];
    } else {
      assert done + results[n..] == results;
    }
  }

  /**
    Fetches a result list page by page. The accepted pages tile it from the start without gap or
    overlap, one for each attempt that succeeds before one gives up; the sync ends with the whole list,
    at the first page that is not full, and otherwise only for want of attempts.
   */
  method RunFDSNSync(results: seq<LiveMessage>, limit: nat, attempts: seq<PageAttempt>, start: int)
    returns (pages: seq<seq<LiveMessage>>, maxLastUpdate: int, finished: bool)
    requires limit >= 1
    ensures Tiled(pages, results, limit) && Flatten(pages) <= results && maxLastUpdate == Latest(start, Flatten(pages))
    ensures if finished
      then Flatten(pages) == results && pages != [] && |pages[|pages| - 1]| < limit && AllFull(pages[..|pages| - 1], limit)
      else AllFull(pages, limit)
    ensures if finished then |pages| <= Accepts(Outcomes(attempts)) else |pages| == Accepts(Outcomes(attempts))
  {
    hide Flatten, Latest, Tiled, Page, Accepts, NoneGivesUp;
    pages, maxLastUpdate, finished := [], start, false;
    NoPagesYet(results, limit, start);
    NothingSent(Outcomes(attempts), start);
    var offset: nat := 1;
    for i := 0 to |attempts|
      invariant offset == 1 + |Flatten(pages)| && Flatten(pages) <= results
      invariant maxLastUpdate == Latest(start, Flatten(pages))
      invariant Tiled(pages, results, limit) && AllFull(pages, limit)
      invariant NoneGivesUp(Outcomes(attempts)[..i]) && Accepts(Outcomes(attempts)[..i]) == |pages|
    {
      OneMoreAttempt(Outcomes(attempts), i);
      AttemptsAfter(Outcomes(attempts), i + 1);
      if !attempts[i].live {
        return;
      }
      var ok := attempts[i].fetched && attempts[i].accepted;
      if !ok {
        if !attempts[i].continues {
          return;
        }
        continue;
      }
      var page := Page(results, offset, limit);
      OnePageMore(pages, results, limit, page);
      LatestAppend(start, Flatten(pages), page);
      maxLastUpdate := MaxLastUpdate(maxLastUpdate, page);
      ghost var full := pages;
      pages := pages + [page];
      assert pages[..|pages| - 1] == full;
      if |page| < limit {
        return pages, maxLastUpdate, true;
      }
      offset := offset + limit;
    }
    assert Outcomes(attempts)[..|attempts|] == Outcomes(attempts);
  }

  lemma NoPagesYet(results: seq<LiveMessage>, limit: nat, start: int)
    ensures Tiled([], results, limit) && Flatten([]) == [] && Latest(start, []) == start
  {
  }
}
