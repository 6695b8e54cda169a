/**
  Cutting messages out of a byte stream, and decoding each. Scanning is total; between junk it hands
  over exactly the messages, in order; and a message says the same compressed or not.
 */
module BufrMessages {
  import opened Options
  import opened Bits
  import opened BitReading
  import opened BufrTypes
  import opened BufrSections
  import opened BufrLayout
  import opened BufrEquivalence
  import opened BufrRowDecoder
  import opened BufrColumnDecoder

  predicate MarkerAt(data: seq<byte>, pos: nat) {
    pos + 4 <= |data| && data[pos..pos + 4] == MARKER
  }

  /** The first marker at or after pos, or the end of the data. */
  function Find(data: seq<byte>, pos: nat): (at: nat)
    requires pos <= |data|
    ensures pos <= at <= |data| && (at < |data| ==> MarkerAt(data, at))
    ensures forall k :: pos <= k < at ==> !MarkerAt(data, k)
    decreases |data| - pos
  {
    if pos == |data| || MarkerAt(data, pos) then pos else Find(data, pos + 1)
  }

  /** What one marker leads to: an error, or the bytes of a message. */
  datatype Slot = Refused(edition: nat, error: Error) | Handed(start: nat, end: nat)

  /** The slot at a marker, and where to look for the next one. A 24-bit length never exceeds 16 MiB. */
  function SlotAt(data: seq<byte>, start: nat): (r: (Slot, nat))
    requires MarkerAt(data, start)
    ensures start < r.1 <= |data|
    ensures r.0.Handed? ==> r.0.start <= r.0.end <= |data|
  {
    if start + 8 > |data| then (Refused(0, Truncated), |data|) else
    var totalLen, edition := Read24(data, start + 4), data[start + 7];
    if totalLen < 16 then (Refused(edition, InvalidBUFR), start + 4)
    else if start + totalLen > |data| then (Refused(edition, Truncated), |data|)
    else if data[start + totalLen - 4..start + totalLen] != TERMINATOR then (Refused(edition, InvalidBUFR), start + 4)
    else (Handed(start, start + totalLen), start + totalLen)
  }

  function Scan(data: seq<byte>, pos: nat): (slots: seq<Slot>)
    requires pos <= |data|
    ensures forall k :: 0 <= k < |slots| && slots[k].Handed? ==> slots[k].start <= slots[k].end <= |data|
    decreases |data| - pos
  {
    var start := Find(data, pos);
    if start == |data| then [] else [SlotAt(data, start).0] + Scan(data, SlotAt(data, start).1)
  }

  /** What one message decodes to: its header with the subsets, or as much of it as was read and an error. */
  function Single(t: Tables, b: seq<byte>): (Message, Option<Error>) {
    var parsed := ParseMessage(b);
    if parsed.body.Err? then (parsed.msg, Some(parsed.body.error)) else
    var body := parsed.body.value;
    var bits := Unpack(body.payload);
    if parsed.msg.compressed then
      var r := DecodeColumns(t, body.descriptors, body.numSubsets, bits);
      if r.Err? then (parsed.msg, Some(r.error)) else (parsed.msg.(subsets := r.value.m.out), None)
    else
      var r := DecodeRows(t, body.descriptors, body.numSubsets, bits);
      if r.Err? then (parsed.msg, Some(r.error)) else (parsed.msg.(subsets := r.value.values), None)
  }

  method DecodeSingleMessage(t: Tables, msgBytes: seq<byte>) returns (msg: Message, err: Option<Error>)
    ensures (msg, err) == Single(t, msgBytes)
  {
    var parsed := ParseMessage(msgBytes);
    msg := parsed.msg;
    if parsed.body.Err? {
      return msg, Some(parsed.body.error);
    }
    var body := parsed.body.value;
    var reader := new BitReader(body.payload);
    var subsets: Result<seq<seq<Value>>>;
    if msg.compressed {
      subsets := DecodeCompressed(t, body.descriptors, body.numSubsets, reader);
    } else {
      subsets := DecodeUncompressed(t, body.descriptors, body.numSubsets, reader);
    }
    if subsets.Err? {
      return msg, Some(subsets.error);
    }
    msg := msg.(subsets := subsets.value);
    err := None;
  }

  function Answer(t: Tables, data: seq<byte>, slot: Slot): (Message, Option<Error>)
    requires slot.Handed? ==> slot.start <= slot.end <= |data|
  {
    match slot
    case Refused(edition, error) => (BLANK.(edition := edition), Some(error))
    case Handed(start, end) => Single(t, data[start..end])
  }

  predicate Answered(t: Tables, data: seq<byte>, slots: seq<Slot>, messages: seq<Message>, errors: seq<Option<Error>>) {
    && |messages| == |errors| == |slots|
    && forall k :: 0 <= k < |slots| ==>
         (slots[k].Handed? ==> slots[k].start <= slots[k].end <= |data|)
         && (messages[k], errors[k]) == Answer(t, data, slots[k])
  }

  /** One message and one error slot for each marker reached; or nothing but the one error. */
  method Decode(t: Tables, data: seq<byte>) returns (messages: seq<Message>, errors: seq<Option<Error>>)
    ensures data == [] ==> messages == [] && errors == [Some(Truncated)]
    ensures data != [] && Scan(data, 0) == [] ==> messages == [] && errors == [Some(NoBUFRFound)]
    ensures data != [] && Scan(data, 0) != [] ==> Answered(t, data, Scan(data, 0), messages, errors)
  {
    hide Single, Answered, Scan;
    messages, errors := [], [];
    if |data| == 0 {
      return [], [Some(Truncated)];
    }
    var pos, foundAny := 0, false;
    ghost var slots: seq<Slot> := [];
    NoneAnswered(t, data);
    while pos < |data|
      invariant pos <= |data| && (foundAny <==> slots != [])
      invariant Scan(data, 0) == slots + Scan(data, pos)
      invariant Answered(t, data, slots, messages, errors)
    {
      var startPos := Find(data, pos);
      NextSlot(data, pos, slots);
      if startPos == |data| {
        pos := startPos;
        break;
      }
      foundAny := true;
      AnsweredMore(t, data, slots, messages, errors, SlotAt(data, startPos).0);
      slots := slots + [SlotAt(data, startPos).0];
      if startPos + 8 > |data| {
        messages, errors := messages + [BLANK], errors + [Some(Truncated)];
        pos := |data|;
        break;
      }
      var totalLen, edition := Read24(data, startPos + 4), data[startPos + 7];
      if totalLen < 16 {
        messages, errors := messages + [BLANK.(edition := edition)], errors + [Some(InvalidBUFR)];
        pos := startPos + 4;
        continue;
      }
      if startPos + totalLen > |data| {
        messages, errors := messages + [BLANK.(edition := edition)], errors + [Some(Truncated)];
        pos := |data|;
        break;
      }
      var endPos := startPos + totalLen;
      if data[endPos - 4..endPos] != TERMINATOR {
        messages, errors := messages + [BLANK.(edition := edition)], errors + [Some(InvalidBUFR)];
        pos := startPos + 4;
        continue;
      }
      var msg, err := DecodeSingleMessage(t, data[startPos..endPos]);
      messages, errors := messages + [msg], errors + [err];
      pos := endPos;
    }
    NextSlot(data, |data|, slots);
    if !foundAny {
      return [], [Some(NoBUFRFound)];
    }
  }

  lemma NextSlot(data: seq<byte>, pos: nat, slots: seq<Slot>)
    requires pos <= |data|
    ensures var start := Find(data, pos);
      slots + Scan(data, pos) ==
        if start == |data| then slots else (slots + [SlotAt(data, start).0]) + Scan(data, SlotAt(data, start).1)
    ensures Scan(data, |data|) == []
  {
  }

  lemma NoneAnswered(t: Tables, data: seq<byte>)
    ensures Answered(t, data, [], [], []) && [] + Scan(data, 0) == Scan(data, 0)
  {
  }

  lemma AnsweredMore(t: Tables, data: seq<byte>, slots: seq<Slot>, messages: seq<Message>, errors: seq<Option<Error>>,
                     slot: Slot)
    requires Answered(t, data, slots, messages, errors) && (slot.Handed? ==> slot.start <= slot.end <= |data|)
    ensures var (msg, err) := Answer(t, data, slot);
      Answered(t, data, slots + [slot], messages + [msg], errors + [err])
  {
    hide Answer;
  }

  // ----- Messages between junk -----

  predicate Framed(m: seq<byte>) {
    |m| >= 16 && MarkerAt(m, 0) && Read24(m, 4) == |m| && m[|m| - 4..] == TERMINATOR
  }

  predicate Junk(j: seq<byte>) {
    forall k :: 0 <= k < |j| ==> !MarkerAt(j, k)
  }

  /** Junk, message, junk, ... message, junk. */
  function Stream(junks: seq<seq<byte>>, msgs: seq<seq<byte>>): seq<byte>
    requires |junks| == |msgs| + 1
  {
    if msgs == [] then junks[0] else junks[0] + (msgs[0] + Stream(junks[1..], msgs[1..]))
  }

  lemma MarkerStarts(data: seq<byte>)
    requires MarkerAt(data, 0)
    ensures data[0] == MARKER[0]
  {
    assert data[0..4][0] == data[0];
  }

  /** No marker begins in junk, not even one that runs into a message: the marker does not overlap itself. */
  lemma NoMarkerInJunk(prefix: seq<byte>, junk: seq<byte>, rest: seq<byte>, k: nat)
    requires Junk(junk) && (rest == [] || MarkerAt(rest, 0)) && k < |junk|
    ensures !MarkerAt(prefix + (junk + rest), |prefix| + k)
  {
    var data := prefix + (junk + rest);
    var at := |prefix| + k;
    assert !MarkerAt(junk, k);
    if k + 4 <= |junk| {
      var four, own := data[at..at + 4], junk[k..k + 4];
      forall i | 0 <= i < 4
        ensures four[i] == own[i]
      {
        assert data[at + i] == (junk + rest)[k + i];
      }
      assert four == own;
    } else if rest != [] && at + 4 <= |data| {
      var shared := |junk| - k;
      MarkerStarts(rest);
      assert data[at..at + 4][shared] == data[at + shared] == (junk + rest)[|junk|] == rest[0];
      assert MARKER[shared] != MARKER[0];
    }
  }

  lemma FindsNext(prefix: seq<byte>, junk: seq<byte>, rest: seq<byte>)
    requires Junk(junk) && (rest == [] || MarkerAt(rest, 0))
    ensures Find(prefix + (junk + rest), |prefix|) == |prefix| + |junk|
  {
    var data := prefix + (junk + rest);
    forall p | |prefix| <= p < |prefix| + |junk|
      ensures !MarkerAt(data, p)
    {
      NoMarkerInJunk(prefix, junk, rest, p - |prefix|);
    }
    var at := Find(data, |prefix|);
    if at >= |prefix| + |junk| && rest != [] {
      assert data[|prefix| + |junk|..|prefix| + |junk| + 4] == rest[0..4];
      assert MarkerAt(data, |prefix| + |junk|);
    }
  }

  lemma HandsOver(data: seq<byte>, at: nat, m: seq<byte>)
    requires Framed(m) && Has(data, at, m)
    ensures MarkerAt(data, at) && SlotAt(data, at) == (Handed(at, at + |m|), at + |m|)
  {
    forall k | 0 <= k < |m|
      ensures data[at + k] == m[k]
    {
      HasAt(data, at, m, k);
    }
    assert data[at..at + 4] == m[0..4];
    assert data[at + |m| - 4..at + |m|] == m[|m| - 4..];
  }

  lemma FrameAfterJunk(prefix: seq<byte>, junk: seq<byte>, m: seq<byte>, tail: seq<byte>)
    requires Junk(junk) && Framed(m)
    ensures var data, at := prefix + (junk + (m + tail)), |prefix| + |junk|;
      && Has(data, at, m) && data == (prefix + junk + m) + tail
      && Scan(data, |prefix|) == [Handed(at, at + |m|)] + Scan(data, at + |m|)
  {
    hide Framed, Junk, MarkerAt, Scan, Find, Has;
    var data, at := prefix + (junk + (m + tail)), |prefix| + |junk|;
    assert Find(data, |prefix|) == at by {
      MarkerFirst(m, tail);
      FindsNext(prefix, junk, m + tail);
    }
    Between(prefix, junk, m, tail);
    ScanAt(data, |prefix|, at, m);
  }

  lemma ScanAt(data: seq<byte>, pos: nat, at: nat, m: seq<byte>)
    requires pos <= |data| && Find(data, pos) == at && Framed(m) && Has(data, at, m)
    ensures Scan(data, pos) == [Handed(at, at + |m|)] + Scan(data, at + |m|)
  {
    hide SlotAt, Framed;
    HandsOver(data, at, m);
    FramedLength(m);
  }

  lemma FramedLength(m: seq<byte>)
    requires Framed(m)
    ensures |m| >= 16
  {
  }

  lemma Between(prefix: seq<byte>, junk: seq<byte>, m: seq<byte>, tail: seq<byte>)
    ensures var data, at := prefix + (junk + (m + tail)), |prefix| + |junk|;
      Has(data, at, m) && data == (prefix + junk + m) + tail
  {
    assert prefix + (junk + (m + tail)) == (prefix + junk) + (m + tail);
  }

  lemma {:induction false} ScanFrames(prefix: seq<byte>, junks: seq<seq<byte>>, msgs: seq<seq<byte>>)
    requires |junks| == |msgs| + 1
    requires (forall j :: j in junks ==> Junk(j)) && (forall m :: m in msgs ==> Framed(m))
    ensures var data := prefix + Stream(junks, msgs);
      var slots := Scan(data, |prefix|);
      |slots| == |msgs| && forall k :: 0 <= k < |msgs| ==>
        slots[k].Handed? && data[slots[k].start..slots[k].end] == msgs[k]
    decreases |msgs|
  {
    hide SlotAt, Framed, Junk;
    var data := prefix + Stream(junks, msgs);
    if msgs == [] {
      assert junks[0] + [] == junks[0];
      FindsNext(prefix, junks[0], []);
    } else {
      hide Scan;
      var tail := Stream(junks[1..], msgs[1..]);
      FrameAfterJunk(prefix, junks[0], msgs[0], tail);
      ScanFrames(prefix + junks[0] + msgs[0], junks[1..], msgs[1..]);
    }
  }

  lemma MarkerFirst(m: seq<byte>, tail: seq<byte>)
    requires Framed(m)
    ensures MarkerAt(m + tail, 0)
  {
    assert (m + tail)[0..4] == m[0..4];
  }

  /** Main result on framing: every message is decoded as if it were alone, in order, and nothing else is. */
  lemma JunkIsSkipped(t: Tables, junks: seq<seq<byte>>, msgs: seq<seq<byte>>,
                      messages: seq<Message>, errors: seq<Option<Error>>)
    requires |junks| == |msgs| + 1
    requires (forall j :: j in junks ==> Junk(j)) && (forall m :: m in msgs ==> Framed(m))
    requires Answered(t, Stream(junks, msgs), Scan(Stream(junks, msgs), 0), messages, errors)
    ensures |messages| == |errors| == |msgs|
    ensures forall k :: 0 <= k < |msgs| ==> (messages[k], errors[k]) == Single(t, msgs[k])
  {
    hide Single;
    assert [] + Stream(junks, msgs) == Stream(junks, msgs);
    ScanFrames([], junks, msgs);
  }

  // ----- False markers -----

  /** A marker that no message stands behind: its length is too short, or no terminator is where it ends. */
  predicate FalseMarker(data: seq<byte>, p: nat) {
    && MarkerAt(data, p) && p + 8 <= |data|
    && var length := Read24(data, p + 4);
       length < 16 || (p + length <= |data| && data[p + length - 4..p + length] != TERMINATOR)
  }

  lemma MarkerOctets(data: seq<byte>, p: nat)
    requires MarkerAt(data, p)
    ensures data[p] == 0x42 && data[p + 1] == 0x55 && data[p + 2] == 0x46 && data[p + 3] == 0x52
  {
    var four := data[p..p + 4];
    assert data[p] == four[0] && data[p + 1] == four[1] && data[p + 2] == four[2] && data[p + 3] == four[3];
  }

  lemma MarkersApart(data: seq<byte>, p: nat, q: nat)
    requires MarkerAt(data, p) && MarkerAt(data, q) && p < q
    ensures p + 4 <= q
  {
    MarkerOctets(data, p);
    MarkerOctets(data, q);
  }

  /** These are the markers from pos to before q, from first to last. */
  predicate MarkersBetween(data: seq<byte>, pos: nat, q: nat, at: seq<nat>)
    decreases |at|
  {
    if at == [] then forall p :: pos <= p < q ==> !MarkerAt(data, p)
    else
      && pos <= at[0] < q && MarkerAt(data, at[0]) && (forall p :: pos <= p < at[0] ==> !MarkerAt(data, p))
      && MarkersBetween(data, at[0] + 1, q, at[1..])
  }

  lemma FromLater(data: seq<byte>, p: nat, q: nat, at: seq<nat>)
    requires MarkerAt(data, p) && p + 4 <= q && MarkersBetween(data, p + 4, q, at)
    ensures MarkersBetween(data, p + 1, q, at)
  {
    forall o | p + 1 <= o < p + 4
      ensures !MarkerAt(data, o)
    {
      if MarkerAt(data, o) {
        MarkersApart(data, p, o);
      }
    }
  }

  /** Each false marker is refused with its edition, and the message behind them is still handed over. */
  lemma {:induction false} FalseMarkersSkipped(data: seq<byte>, pos: nat, q: nat, m: seq<byte>) returns (at: seq<nat>)
    requires pos <= q && Has(data, q, m) && Framed(m)
    requires forall p :: pos <= p < q && MarkerAt(data, p) ==> FalseMarker(data, p)
    ensures MarkersBetween(data, pos, q, at)
    ensures q + |m| <= |data| && Scan(data, pos) == RefusedAt(data, at) + [Handed(q, q + |m|)] + Scan(data, q + |m|)
    decreases q - pos
  {
    hide Framed, SlotAt, Has, FalseMarker, RefusedAt, MarkerAt;
    HandsOver(data, q, m);
    HasRoom(data, q, m);
    var p := Find(data, pos);
    if p < q {
      MarkersApart(data, p, q);
      RefusedSlot(data, p);
      var rest := FalseMarkersSkipped(data, p + 4, q, m);
      at := [p] + rest;
      FromLater(data, p, q, rest);
      OneRefused(data, p, rest);
      assert Scan(data, pos) == [Refused(data[p + 7], InvalidBUFR)] + Scan(data, p + 4);
    } else {
      at := [];
      NoneRefused(data);
    }
  }

  lemma NoneRefused(data: seq<byte>)
    ensures RefusedAt(data, []) == []
  {
  }

  lemma OneRefused(data: seq<byte>, p: nat, rest: seq<nat>)
    requires p + 8 <= |data|
    ensures RefusedAt(data, [p] + rest) == [Refused(data[p + 7], InvalidBUFR)] + RefusedAt(data, rest)
  {
  }

  function RefusedAt(data: seq<byte>, at: seq<nat>): seq<Slot> {
    seq(|at|, k requires 0 <= k < |at| => Refused(if at[k] + 7 < |data| then data[at[k] + 7] else 0, InvalidBUFR))
  }

  lemma RefusedSlot(data: seq<byte>, p: nat)
    requires FalseMarker(data, p)
    ensures MarkerAt(data, p) && p + 8 <= |data| && SlotAt(data, p) == (Refused(data[p + 7], InvalidBUFR), p + 4)
  {
  }

  /** A marker too close to the end, or with a length beyond it, ends the scan: nothing behind it is reached. */
  lemma CutOffEndsScan(data: seq<byte>, p: nat)
    requires MarkerAt(data, p)
    requires p + 8 > |data| || (Read24(data, p + 4) >= 16 && p + Read24(data, p + 4) > |data|)
    ensures Scan(data, p) == [Refused(if p + 8 > |data| then 0 else data[p + 7], Truncated)]
  {
    hide Read24;
    assert Find(data, p) == p;
    assert Scan(data, |data|) == [];
  }

  // ----- Built messages -----

  lemma BuiltIsFramed(c: Contents)
    requires Wellformed(c)
    ensures Framed(Build(c))
  {
    hide U24, Read24, Bytes1, Bytes2, Bytes3, Bytes4;
    var b := Build(c);
    var rest := Bytes1(c) + (Bytes2(c) + (Bytes3(c) + (Bytes4(c) + TERMINATOR)));
    HasAll(b);
    HasBoth(b, 0, MARKER + U24(Length(c)) + [c.edition], rest);
    HasBoth(b, 0, MARKER + U24(Length(c)), [c.edition]);
    HasBoth(b, 0, MARKER, U24(Length(c)));
    Read24Back(b, 4, Length(c));
    assert b[|b| - 4..] == TERMINATOR;
  }

  /** What decoding a message with these contents has to give: its header, and its subsets or the error. */
  predicate Tells(t: Tables, c: Contents, msg: Message, err: Option<Error>)
    requires Wellformed(c)
  {
    var bits := Unpack(c.body.payload);
    if c.compressed then
      var r := DecodeColumns(t, c.body.descriptors, c.body.numSubsets, bits);
      if r.Ok? then msg == Header(c).(subsets := r.value.m.out) && err == None
      else msg == Header(c) && err == Some(r.error)
    else
      var r := DecodeRows(t, c.body.descriptors, c.body.numSubsets, bits);
      if r.Ok? then msg == Header(c).(subsets := r.value.values) && err == None
      else msg == Header(c) && err == Some(r.error)
  }

  /**
    From bytes to message: every message that is built is decoded to its header with exactly the
    subsets of its payload, or, if that does not decode, to its header without any and the error.
   */
  lemma BuiltTells(t: Tables, c: Contents)
    requires Wellformed(c)
    ensures var (msg, err) := Single(t, Build(c)); Tells(t, c, msg, err)
    ensures Header(c).subsets == [] && Header(c).compressed == c.compressed
  {
    hide ParseMessage, Build;
    ParseUndoesBuild(c);
  }

  /** What the header of any bytes tells, accepted or not: as much of it as stands in them. */
  lemma HeaderOfAny(t: Tables, b: seq<byte>)
    ensures var (msg, err) := Single(t, b);
      var header := msg.(subsets := [], compressed := false);
      && (err.Some? ==> msg.subsets == [])
      && if |b| < 16 then header == BLANK && err == Some(Truncated)
         else if b[7] != 3 && b[7] != 4 then header == BLANK && err == Some(InvalidBUFR)
         else
           var n := Read24(b, 8);
           if 8 + n > |b| - 4 || n < 8 then header == BLANK.(edition := b[7]) && err == Some(Truncated)
           else if n < (if b[7] == 4 then 22 else 17) then header == BLANK.(edition := b[7]) && err == Some(InvalidBUFR)
           else header == FillHeader(b, BLANK.(edition := b[7]))
  {
    hide Read24, Read16, DecodeRows, DecodeColumns;
  }

  /** So does a whole stream of built messages between junk, each in its place. */
  lemma StreamTells(t: Tables, junks: seq<seq<byte>>, cs: seq<Contents>, msgs: seq<seq<byte>>,
                    messages: seq<Message>, errors: seq<Option<Error>>)
    requires |junks| == |cs| + 1 == |msgs| + 1 && forall j :: j in junks ==> Junk(j)
    requires forall k :: 0 <= k < |cs| ==> Wellformed(cs[k]) && msgs[k] == Build(cs[k])
    requires Answered(t, Stream(junks, msgs), Scan(Stream(junks, msgs), 0), messages, errors)
    ensures |messages| == |errors| == |cs|
    ensures forall k :: 0 <= k < |cs| ==> Tells(t, cs[k], messages[k], errors[k])
  {
    hide Single, Build, Wellformed, Framed, Junk, Answered, Stream, Scan, Tells;
    forall k | 0 <= k < |cs|
      ensures Framed(msgs[k])
    {
      BuiltIsFramed(cs[k]);
    }
    JunkIsSkipped(t, junks, msgs, messages, errors);
    forall k | 0 <= k < |cs|
      ensures Tells(t, cs[k], messages[k], errors[k])
    {
      BuiltTells(t, cs[k]);
    }
  }

  /**
    From matrix to message: the same values sent row by row in one message and column by column in
    another are decoded to their headers with the same subsets, or both are over the limit.
   */
  lemma SameEitherWay(t: Tables, plain: Contents, packed: Contents, cols: seq<Column>, limit: nat)
    requires Wellformed(plain) && Wellformed(packed) && !plain.compressed && packed.compressed
    requires plain.body.descriptors == packed.body.descriptors && plain.body.numSubsets == packed.body.numSubsets
    requires Template(t, plain.body.descriptors, plain.body.numSubsets, cols, limit)
    requires Holds(Unpack(plain.body.payload), 0, RowsBits(cols, plain.body.numSubsets))
    requires Holds(Unpack(packed.body.payload), 0, ColumnsBits(cols, plain.body.numSubsets))
    ensures var n, ds := plain.body.numSubsets, plain.body.descriptors;
      var expanded := Expand(t, ds, n, cols, limit).value;
      var (a, e), (b, f) := Single(t, Build(plain)), Single(t, Build(packed));
      if n * expanded.total <= MAX_EXPANDED_DESCRIPTORS
      then e == f == None && a == Header(plain).(subsets := expanded.m.out)
        && b == Header(packed).(subsets := expanded.m.out)
      else e == f == Some(LimitExceeded) && a == Header(plain) && b == Header(packed)
  {
    hide Single, Build, Template, Expand, Header;
    BuiltTells(t, plain);
    BuiltTells(t, packed);
    CompressedMeansTheSame(t, plain.body.descriptors, plain.body.numSubsets, cols, limit,
                           Unpack(plain.body.payload), Unpack(packed.body.payload));
  }
}
