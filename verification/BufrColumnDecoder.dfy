/**
  The decoder of column-compressed data as the program runs it: every descriptor appends one value
  to each subset in place, and nothing leaves the subsets misaligned, not even an error.
 */
module BufrColumnDecoder {
  import opened Options
  import opened Bits
  import opened BitReading
  import opened BufrTypes
  import opened BufrMachine
  import opened BufrLeaves
  import opened BufrInterpreter
  import opened BufrBounds
  import opened BufrEquivalence
  import opened BufrState
  import opened BufrTransposition

  /** Values that share descriptor, name and unit with kind. */
  function Labelled(kind: Value, data: seq<Datum>): (vals: seq<Value>)
    ensures |vals| == |data|
  {
    seq(|data|, s requires 0 <= s < |data| => kind.(datum := data[s]))
  }

  lemma LabelledLikeElements(d: Descriptor, e: Entry, data: seq<Datum>)
    ensures Labelled(Said(d, e, Missing), data) == SaidAll(d, e, data)
    ensures Labelled(Signified(d, Missing), data) == SignifiedAll(d, data)
  {
  }

  /** The first s subsets have their next value, the others not yet. */
  ghost predicate Filled(before: seq<seq<Value>>, now: seq<seq<Value>>, kind: Value, data: seq<Datum>) {
    && |now| == |before| && |data| <= |before|
    && (forall k :: 0 <= k < |data| ==> now[k] == before[k] + [kind.(datum := data[k])])
    && (forall k :: |data| <= k < |before| ==> now[k] == before[k])
  }

  lemma FilledUp(before: seq<seq<Value>>, now: seq<seq<Value>>, kind: Value, data: seq<Datum>)
    requires Filled(before, now, kind, data) && |data| == |before|
    ensures now == Append(before, Labelled(kind, data))
  {
  }

  method AppendToAll(subsets: array<seq<Value>>, v: Value)
    modifies subsets
    ensures subsets[..] == AppendAll(old(subsets[..]), v)
  {
    ghost var before := subsets[..];
    for s := 0 to subsets.Length
      invariant forall k :: 0 <= k < s ==> subsets[k] == before[k] + [v]
      invariant forall k :: s <= k < subsets.Length ==> subsets[k] == before[k]
    {
      subsets[s] := subsets[s] + [v];
    }
  }

  lemma SameForAll(out: seq<seq<Value>>, kind: Value, datum: Datum)
    ensures AppendAll(out, kind.(datum := datum)) == Append(out, Labelled(kind, seq(|out|, s => datum)))
  {
  }

  // ----- The increments of a column, subset by subset -----

  /** What an increment of step bits at pos finds. */
  ghost predicate Within(bits: seq<bool>, incs: Increments, step: nat) {
    !incs.exhausted && incs.pos + step <= |bits|
  }

  lemma NextIncrement(bits: seq<bool>, pos: nat, step: nat, s: nat)
    requires pos <= |bits|
    ensures var incs, more := ReadIncrements(bits, pos, step, s), ReadIncrements(bits, pos, step, s + 1);
      if Within(bits, incs, step)
      then more == Increments(incs.pos + step, false, incs.at + [Some(incs.pos)])
      else more == Increments(incs.pos, true, incs.at + [None])
  {
  }

  ghost function Texts(bits: seq<bool>, pos: nat, reference: seq<byte>, nbinc: nat, s: nat): (data: seq<Datum>)
    requires pos <= |bits|
    ensures |data| == s
  {
    IncrementTexts(bits, ReadIncrements(bits, pos, 8 * nbinc, s).at, reference, nbinc)
  }

  lemma NextText(bits: seq<bool>, pos: nat, reference: seq<byte>, nbinc: nat, s: nat)
    requires pos <= |bits|
    ensures var incs := ReadIncrements(bits, pos, 8 * nbinc, s);
      Texts(bits, pos, reference, nbinc, s + 1) == Texts(bits, pos, reference, nbinc, s)
        + [if !Within(bits, incs, 8 * nbinc) || AllFF(reference) then Missing
           else TextDatum(Octets(bits, incs.pos, nbinc))]
  {
    hide TextDatum, Octets, AllFF, ReadIncrements;
    NextIncrement(bits, pos, 8 * nbinc, s);
  }

  ghost function Numbers(bits: seq<bool>, pos: nat, reference: nat, nbinc: nat, f: Format, s: nat): (data: seq<Datum>)
    requires pos <= |bits|
    ensures |data| == s
  {
    IncrementNumbers(bits, ReadIncrements(bits, pos, nbinc, s).at, reference, nbinc, f)
  }

  lemma NextNumber(bits: seq<bool>, pos: nat, reference: nat, nbinc: nat, f: Format, s: nat)
    requires pos <= |bits|
    ensures var incs := ReadIncrements(bits, pos, nbinc, s);
      Numbers(bits, pos, reference, nbinc, f, s + 1) == Numbers(bits, pos, reference, nbinc, f, s)
        + [if !Within(bits, incs, nbinc) then Missing
           else Increased(reference, Cut(bits, incs.pos, nbinc), nbinc, f)]
  {
    hide Increased, Cut, ReadIncrements;
    NextIncrement(bits, pos, nbinc, s);
  }

  lemma FilledMore(before: seq<seq<Value>>, now: seq<seq<Value>>, kind: Value, data: seq<Datum>, datum: Datum)
    requires Filled(before, now, kind, data) && |data| < |before|
    ensures var s := |data|;
      Filled(before, now[s := now[s] + [kind.(datum := datum)]], kind, data + [datum])
  {
  }

  method ReadIncrementText(reader: BitReader, state: DecoderState, isRefMiss: bool, nbinc: nat)
    returns (datum: Datum)
    requires Sound(reader, state)
    modifies reader`bitPos, state`streamExhausted
    ensures Sound(reader, state)
    ensures if !old(state.streamExhausted) && old(reader.bitPos) + 8 * nbinc <= |reader.Stream()|
            then reader.bitPos == old(reader.bitPos) + 8 * nbinc && !state.streamExhausted
                 && datum == if isRefMiss then Missing else TextDatum(Octets(reader.Stream(), old(reader.bitPos), nbinc))
            else reader.bitPos == old(reader.bitPos) && state.streamExhausted && datum == Missing
  {
    hide Unpack, Octets;
    datum := Missing;
    if !state.streamExhausted && reader.BitsRemaining() >= nbinc * 8 {
      var incStr := reader.ReadString(nbinc);
      if !incStr.value.1 && !isRefMiss {
        datum := TextDatum(incStr.value.0);
      }
    } else {
      state.streamExhausted := true;
    }
  }

  /** One text for each subset, each from an increment of nbinc octets. */
  method AppendTexts(reader: BitReader, state: DecoderState, subsets: array<seq<Value>>, kind: Value,
                     isRefMiss: bool, nbinc: nat, ghost reference: seq<byte>)
    requires Sound(reader, state) && !state.streamExhausted && isRefMiss == AllFF(reference)
    modifies reader`bitPos, state`streamExhausted, subsets
    ensures Sound(reader, state)
    ensures var incs := ReadIncrements(reader.Stream(), old(reader.bitPos), 8 * nbinc, subsets.Length);
      && reader.bitPos == incs.pos && state.streamExhausted == incs.exhausted
      && Filled(old(subsets[..]), subsets[..], kind,
                Texts(reader.Stream(), old(reader.bitPos), reference, nbinc, subsets.Length))
  {
    hide Unpack, TextDatum, Octets, AllFF, Texts, ReadIncrements, Filled;
    ghost var bits, start, before := reader.Stream(), reader.bitPos, subsets[..];
    NothingYet(bits, start, 8 * nbinc, before, kind);
    for s := 0 to subsets.Length
      invariant Sound(reader, state)
      invariant var incs := ReadIncrements(bits, start, 8 * nbinc, s);
        && reader.bitPos == incs.pos && state.streamExhausted == incs.exhausted
      invariant Filled(before, subsets[..], kind, Texts(bits, start, reference, nbinc, s))
    {
      NextIncrement(bits, start, 8 * nbinc, s);
      NextText(bits, start, reference, nbinc, s);
      ghost var now := subsets[..];
      var datum := ReadIncrementText(reader, state, isRefMiss, nbinc);
      FilledMore(before, now, kind, Texts(bits, start, reference, nbinc, s), datum);
      subsets[s] := subsets[s] + [kind.(datum := datum)];
      assert subsets[..] == now[s := now[s] + [kind.(datum := datum)]];
    }
  }

  lemma NothingYet(bits: seq<bool>, pos: nat, step: nat, out: seq<seq<Value>>, kind: Value)
    requires pos <= |bits|
    ensures ReadIncrements(bits, pos, step, 0) == Increments(pos, false, [])
    ensures Filled(out, out, kind, [])
  {
  }

  method ReadIncrementNumber(reader: BitReader, state: DecoderState, reference: nat, nbinc: nat, f: Format)
    returns (datum: Datum)
    requires Sound(reader, state) && nbinc <= 64
    modifies reader`bitPos, state`streamExhausted
    ensures Sound(reader, state)
    ensures if !old(state.streamExhausted) && old(reader.bitPos) + nbinc <= |reader.Stream()|
            then reader.bitPos == old(reader.bitPos) + nbinc && !state.streamExhausted
                 && datum == Increased(reference, Cut(reader.Stream(), old(reader.bitPos), nbinc), nbinc, f)
            else reader.bitPos == old(reader.bitPos) && state.streamExhausted && datum == Missing
  {
    datum := Missing;
    if !state.streamExhausted && reader.BitsRemaining() >= nbinc {
      var incBits := reader.ReadBits(nbinc);
      datum := Increased(reference, incBits.value, nbinc, f);
    } else {
      state.streamExhausted := true;
    }
  }

  /** One number for each subset, each from an increment of nbinc bits. */
  method AppendNumbers(reader: BitReader, state: DecoderState, subsets: array<seq<Value>>, kind: Value,
                       reference: nat, nbinc: nat, f: Format)
    requires Sound(reader, state) && !state.streamExhausted && nbinc <= 64
    modifies reader`bitPos, state`streamExhausted, subsets
    ensures Sound(reader, state)
    ensures var incs := ReadIncrements(reader.Stream(), old(reader.bitPos), nbinc, subsets.Length);
      && reader.bitPos == incs.pos && state.streamExhausted == incs.exhausted
      && Filled(old(subsets[..]), subsets[..], kind,
                Numbers(reader.Stream(), old(reader.bitPos), reference, nbinc, f, subsets.Length))
  {
    hide Unpack, Increased, Cut, Numbers, ReadIncrements, Filled;
    ghost var bits, start, before := reader.Stream(), reader.bitPos, subsets[..];
    NothingYet(bits, start, nbinc, before, kind);
    for s := 0 to subsets.Length
      invariant Sound(reader, state)
      invariant var incs := ReadIncrements(bits, start, nbinc, s);
        && reader.bitPos == incs.pos && state.streamExhausted == incs.exhausted
      invariant Filled(before, subsets[..], kind, Numbers(bits, start, reference, nbinc, f, s))
    {
      NextIncrement(bits, start, nbinc, s);
      NextNumber(bits, start, reference, nbinc, f, s);
      ghost var now := subsets[..];
      var datum := ReadIncrementNumber(reader, state, reference, nbinc, f);
      FilledMore(before, now, kind, Numbers(bits, start, reference, nbinc, f, s), datum);
      subsets[s] := subsets[s] + [kind.(datum := datum)];
      assert subsets[..] == now[s := now[s] + [kind.(datum := datum)]];
    }
  }

  // ----- One descriptor -----

  method DecodeTextColumn(reader: BitReader, state: DecoderState, subsets: array<seq<Value>>, kind: Value, width: nat)
    requires Sound(reader, state)
    modifies reader`bitPos, state`streamExhausted, subsets
    ensures Sound(reader, state)
    ensures var col := ColumnText(reader.Stream(), old(Now(reader, state, subsets[..])), width);
      Now(reader, state, subsets[..]) == col.0.(out := Append(col.0.out, Labelled(kind, col.1)))
  {
    hide Unpack, TextDatum, Octets, AllFF, ReadIncrements, IncrementTexts, Filled, Append, Labelled, Cut;
    ghost var out := subsets[..];
    if state.streamExhausted || reader.BitsRemaining() < width + 6 {
      state.streamExhausted := true;
      AppendToAll(subsets, kind.(datum := Missing));
      SameForAll(out, kind, Missing);
      return;
    }
    var refStr := reader.ReadString(width / 8);
    ghost var reference := Octets(reader.Stream(), old(reader.bitPos), width / 8);
    var nbinc := reader.ReadBits(6);
    if nbinc.value == 0 {
      MissingText(reference);
      var datum := if refStr.value.1 then Missing else TextDatum(refStr.value.0);
      AppendToAll(subsets, kind.(datum := datum));
      SameForAll(out, kind, TextDatum(reference));
    } else {
      ghost var start := reader.bitPos;
      AppendTexts(reader, state, subsets, kind, refStr.value.1, nbinc.value, reference);
      FilledUp(out, subsets[..], kind, Texts(reader.Stream(), start, reference, nbinc.value, |out|));
    }
  }

  lemma MissingText(s: seq<byte>)
    ensures AllFF(s) ==> TextDatum(s) == Missing
  {
  }

  method DecodeNumberColumn(reader: BitReader, state: DecoderState, subsets: array<seq<Value>>, kind: Value, f: Format)
    requires Sound(reader, state) && 0 < f.width <= 64
    modifies reader`bitPos, state`streamExhausted, subsets
    ensures Sound(reader, state)
    ensures var col := ColumnNumber(reader.Stream(), old(Now(reader, state, subsets[..])), f);
      Now(reader, state, subsets[..]) == col.0.(out := Append(col.0.out, Labelled(kind, col.1)))
  {
    hide Unpack, NumberDatum, ReadIncrements, IncrementNumbers, Filled, Append, Labelled, Cut;
    ghost var out := subsets[..];
    if state.streamExhausted || reader.BitsRemaining() < f.width + 6 {
      state.streamExhausted := true;
      AppendToAll(subsets, kind.(datum := Missing));
      SameForAll(out, kind, Missing);
      return;
    }
    var refBits := reader.ReadBits(f.width);
    var nbinc := reader.ReadBits(6);
    SixBits(reader.Stream(), old(reader.bitPos) + f.width);
    if nbinc.value == 0 {
      AppendToAll(subsets, kind.(datum := NumberDatum(refBits.value, f)));
      SameForAll(out, kind, NumberDatum(refBits.value, f));
    } else {
      ghost var start := reader.bitPos;
      AppendNumbers(reader, state, subsets, kind, refBits.value, nbinc.value, f);
      FilledUp(out, subsets[..], kind, Numbers(reader.Stream(), start, refBits.value, nbinc.value, f, |out|));
    }
  }

  lemma SixBits(bits: seq<bool>, pos: nat)
    requires pos + 6 <= |bits|
    ensures Cut(bits, pos, 6) < 64
  {
    assert Pow2(3) == 8;
    assert Pow2(6) == 64;
  }

  method DecodeElementColumn(t: Tables, desc: Descriptor, reader: BitReader, state: DecoderState,
                             subsets: array<seq<Value>>)
    returns (r: Result<()>)
    requires Sound(reader, state)
    modifies reader`bitPos, state, subsets
    ensures Sound(reader, state) && (r.Err? ==> subsets[..] == old(subsets[..]))
    ensures state.recursionDepth == old(state.recursionDepth)
    ensures state.totalDescriptorsRead == old(state.totalDescriptorsRead)
    ensures ColumnElement(t, reader.Stream(), desc, old(Now(reader, state, subsets[..])))
         == if r.Ok? then Ok(Now(reader, state, subsets[..])) else Err(r.error)
  {
    hide ColumnText, ColumnNumber, NewReference, NumberFormat, SaidAll, Labelled, Append;
    var code := desc.Code();
    if code !in t.b {
      return Err(UnknownDescriptor(desc));
    }
    var entry := t.b[code];
    if state.newRefWidth > 0 {
      r := ReadNewReference(reader, state, code, subsets[..]);
      return;
    }
    ghost var m := Now(reader, state, subsets[..]);
    var kind := Said(desc, entry, Missing);
    if entry.unit == CHARACTER_UNIT {
      var effWidth := if state.stringWidthOverride > 0 then state.stringWidthOverride else entry.width;
      DecodeTextColumn(reader, state, subsets, kind, effWidth);
      LabelledLikeElements(desc, entry, ColumnText(reader.Stream(), m, effWidth).1);
    } else {
      var f := EffectiveFormat(state, entry, code);
      if f.width <= 0 || f.width > 64 {
        return Err(InvalidBUFR);
      }
      DecodeNumberColumn(reader, state, subsets, kind, f);
      LabelledLikeElements(desc, entry, ColumnNumber(reader.Stream(), m, f).1);
    }
    r := Ok(());
  }

  method DecodeLeafColumn(t: Tables, desc: Descriptor, reader: BitReader, state: DecoderState,
                          subsets: array<seq<Value>>)
    returns (r: Result<()>)
    requires Sound(reader, state) && Leafy(desc)
    modifies reader`bitPos, state, subsets
    ensures Sound(reader, state) && (r.Err? ==> subsets[..] == old(subsets[..]))
    ensures state.recursionDepth == old(state.recursionDepth)
    ensures state.totalDescriptorsRead == old(state.totalDescriptorsRead)
    ensures ColumnLeaf(t, reader.Stream(), desc, old(Now(reader, state, subsets[..])))
         == if r.Ok? then Ok(Now(reader, state, subsets[..])) else Err(r.error)
  {
    hide ColumnText, ColumnElement, SkipLocal, SignifiedAll, Labelled, Append, Operate;
    if desc.IsLocal() {
      r := SkipLocalField(reader, state, desc, subsets[..]);
    } else if desc.f == 2 {
      if desc.x == 5 {
        ghost var m := Now(reader, state, subsets[..]);
        DecodeTextColumn(reader, state, subsets, Signified(desc, Missing), desc.y * 8);
        LabelledLikeElements(desc, Entry("", "", 0, 0, 0), ColumnText(reader.Stream(), m, 8 * desc.y).1);
      } else {
        ApplyOperator(state, desc.x, desc.y);
      }
      r := Ok(());
    } else {
      r := DecodeElementColumn(t, desc, reader, state, subsets);
    }
  }

  /** One count for all subsets; the increments behind it are read and dropped. */
  method DecodeFactorColumn(t: Tables, desc: Descriptor, reader: BitReader, state: DecoderState,
                            subsets: array<seq<Value>>)
    returns (r: Result<int>)
    requires Sound(reader, state)
    modifies reader`bitPos, state`streamExhausted, subsets
    ensures Sound(reader, state) && (r.Err? ==> subsets[..] == old(subsets[..]))
    ensures ColumnCount(t, reader.Stream(), desc, old(Now(reader, state, subsets[..])))
         == if r.Ok? then Ok((Now(reader, state, subsets[..]), r.value)) else Err(r.error)
  {
    hide CountOf, Cut, Unpack, ReadIncrements;
    var code := desc.Code();
    if code !in t.b {
      return Err(UnknownDescriptor(desc));
    }
    var entry := t.b[code];
    var effWidth := entry.width + state.dataWidthChange;
    var count := 0;
    if state.streamExhausted || reader.BitsRemaining() < effWidth + 6 {
      state.streamExhausted := true;
    } else {
      var refBits := reader.ReadBits(effWidth);
      if refBits.Err? {
        return Err(refBits.error);
      }
      var nbinc := reader.ReadBits(6);
      SixBits(reader.Stream(), old(reader.bitPos) + effWidth);
      count := SignedCount(refBits.value, effWidth, code);
      var dropped := DropIncrements(reader, nbinc.value, subsets.Length);
      if dropped.Err? {
        return Err(dropped.error);
      }
    }
    AppendToAll(subsets, Said(desc, entry, Number(count, 0)));
    r := Ok(count);
  }

  method DropIncrements(reader: BitReader, nbinc: nat, n: nat) returns (r: Result<()>)
    requires reader.Valid() && nbinc <= 64
    modifies reader`bitPos
    ensures reader.Valid()
    ensures var incs := ReadIncrements(reader.Stream(), old(reader.bitPos), nbinc, n);
      if incs.exhausted then r == Err(UnexpectedEOF) else r == Ok(()) && reader.bitPos == incs.pos
  {
    ghost var bits, start := reader.Stream(), reader.bitPos;
    if nbinc > 0 {
      for s := 0 to n
        invariant reader.Valid()
        invariant ReadIncrements(bits, start, nbinc, s).pos == reader.bitPos
        invariant !ReadIncrements(bits, start, nbinc, s).exhausted
      {
        var incBits := reader.ReadBits(nbinc);
        if incBits.Err? {
          OutOfIncrements(bits, start, nbinc, s + 1, n);
          return Err(incBits.error);
        }
      }
    } else {
      NoIncrements(bits, start, n);
    }
    r := Ok(());
  }

  lemma {:induction false} OutOfIncrements(bits: seq<bool>, pos: nat, step: nat, s: nat, n: nat)
    requires pos <= |bits| && s <= n && ReadIncrements(bits, pos, step, s).exhausted
    ensures ReadIncrements(bits, pos, step, n).exhausted
  {
    if s < n {
      OutOfIncrements(bits, pos, step, s, n - 1);
    }
  }

  // ----- A descriptor list -----

  ghost function ColumnProgram(t: Tables, reader: BitReader): Program {
    Program(t, Columns(reader.Stream()), MAX_EXPANDED_DESCRIPTORS)
  }

  /**
    All subsets under a descriptor list, one level deeper than the caller: their values, the cursor,
    operators and budget become those of the interpreter, or the error is its error. Aligned subsets
    stay aligned either way.
   */
  method DecodeDescriptorsCompressed(t: Tables, descriptors: seq<Descriptor>, reader: BitReader,
                                     state: DecoderState, subsets: array<seq<Value>>)
    returns (r: Result<()>)
    requires Sound(reader, state) && state.recursionDepth <= MAX_RECURSION_DEPTH
    modifies reader`bitPos, state, subsets
    ensures r.Ok? ==> Sound(reader, state) && state.recursionDepth == old(state.recursionDepth)
    ensures Aligned(old(subsets[..])) ==> Aligned(subsets[..])
    ensures Call(ColumnProgram(t, reader), descriptors, old(state.recursionDepth),
                 Progress(old(Now(reader, state, subsets[..])), old(state.totalDescriptorsRead)))
         == if r.Ok? then Ok(Progress(Now(reader, state, subsets[..]), state.totalDescriptorsRead)) else Err(r.error)
    decreases MAX_RECURSION_DEPTH - state.recursionDepth, 0
  {
    hide Proceed, Aligned;
    state.recursionDepth := state.recursionDepth + 1;
    if state.recursionDepth > MAX_RECURSION_DEPTH {
      return Err(LimitExceeded);
    }
    ghost var p, depth := ColumnProgram(t, reader), state.recursionDepth;
    ghost var whole := Run(p, descriptors, 0, depth, Progress(Now(reader, state, subsets[..]), state.totalDescriptorsRead));
    var numSubsets := subsets.Length;
    var i: nat := 0;
    while i < |descriptors|
      invariant i <= |descriptors| && Sound(reader, state) && state.recursionDepth == depth
      invariant whole == Run(p, descriptors, i, depth,
                             Progress(Now(reader, state, subsets[..]), state.totalDescriptorsRead))
      invariant Aligned(old(subsets[..])) ==> Aligned(subsets[..])
      decreases MAX_EXPANDED_DESCRIPTORS - state.totalDescriptorsRead
    {
      var inc := numSubsets;
      if inc < 1 {
        inc := 1;
      }
      state.totalDescriptorsRead := state.totalDescriptorsRead + inc;
      if state.totalDescriptorsRead > MAX_EXPANDED_DESCRIPTORS {
        return Err(LimitExceeded);
      }
      var round := ObeyCompressed(t, descriptors, i, reader, state, subsets);
      if round.Err? {
        return Err(round.error);
      }
      i := round.value;
    }
    state.recursionDepth := state.recursionDepth - 1;
    r := Ok(());
  }

  /** One round of the loop after its charge: the next index. */
  method ObeyCompressed(t: Tables, descriptors: seq<Descriptor>, i: nat, reader: BitReader,
                        state: DecoderState, subsets: array<seq<Value>>)
    returns (r: Result<nat>)
    requires Sound(reader, state) && i < |descriptors| && state.recursionDepth <= MAX_RECURSION_DEPTH
    modifies reader`bitPos, state, subsets
    ensures r.Ok? ==> Sound(reader, state) && state.recursionDepth == old(state.recursionDepth)
    ensures Aligned(old(subsets[..])) ==> Aligned(subsets[..])
    ensures Proceed(ColumnProgram(t, reader), descriptors, i, old(state.recursionDepth),
                    Progress(old(Now(reader, state, subsets[..])), old(state.totalDescriptorsRead)))
         == if r.Ok?
            then Ok(Spot(r.value, Progress(Now(reader, state, subsets[..]), state.totalDescriptorsRead)))
            else Err(r.error)
    decreases MAX_RECURSION_DEPTH - state.recursionDepth, 2
  {
    hide Call, ColumnLeaf, Aligned;
    var desc := descriptors[i];
    if Leafy(desc) {
      LeafEarns(ColumnProgram(t, reader), desc, Now(reader, state, subsets[..]));
      var leaf := DecodeLeafColumn(t, desc, reader, state, subsets);
      r := if leaf.Err? then Err(leaf.error) else Ok(i + 1);
    } else if desc.f == 3 {
      if desc.Code() !in t.d {
        return Err(UnknownDescriptor(desc));
      }
      var nested := DecodeDescriptorsCompressed(t, Nested(t.d[desc.Code()]), reader, state, subsets);
      r := if nested.Err? then Err(nested.error) else Ok(i + 1);
    } else if desc.f == 1 {
      r := ReplicateCompressed(t, descriptors, i, reader, state, subsets);
    } else {
      r := Ok(i);
    }
  }

  method ReplicateCompressed(t: Tables, descriptors: seq<Descriptor>, at: nat, reader: BitReader,
                             state: DecoderState, subsets: array<seq<Value>>)
    returns (r: Result<nat>)
    requires Sound(reader, state) && at < |descriptors| && descriptors[at].f == 1
    requires state.recursionDepth <= MAX_RECURSION_DEPTH
    modifies reader`bitPos, state, subsets
    ensures r.Ok? ==> Sound(reader, state) && state.recursionDepth == old(state.recursionDepth)
    ensures Aligned(old(subsets[..])) ==> Aligned(subsets[..])
    ensures Proceed(ColumnProgram(t, reader), descriptors, at, old(state.recursionDepth),
                    Progress(old(Now(reader, state, subsets[..])), old(state.totalDescriptorsRead)))
         == if r.Ok?
            then Ok(Spot(r.value, Progress(Now(reader, state, subsets[..]), state.totalDescriptorsRead)))
            else Err(r.error)
    decreases MAX_RECURSION_DEPTH - state.recursionDepth, 1
  {
    hide Call, ColumnCount, Aligned, Repeat;
    var i := at;
    var repDescriptors, repCount := descriptors[i].x, descriptors[i].y as int;
    if repDescriptors == 0 {
      return Err(InvalidBUFR);
    }
    if repCount == 0 {
      i := i + 1;
      if i >= |descriptors| {
        return Err(Truncated);
      }
      LeafEarns(ColumnProgram(t, reader), descriptors[i], Now(reader, state, subsets[..]));
      var factor := DecodeFactorColumn(t, descriptors[i], reader, state, subsets);
      if factor.Err? {
        return Err(factor.error);
      }
      repCount := factor.value;
    }
    if repCount > MAX_REPLICATION_COUNT {
      return Err(LimitExceeded);
    }
    if i + 1 + repDescriptors > |descriptors| {
      return Err(Truncated);
    }
    var block := descriptors[i + 1..i + 1 + repDescriptors];
    i := i + 1 + repDescriptors;
    var more := RepeatCompressed(t, block, repCount, reader, state, subsets);
    r := if more.Err? then Err(more.error) else Ok(i);
  }

  method RepeatCompressed(t: Tables, block: seq<Descriptor>, repCount: int, reader: BitReader,
                          state: DecoderState, subsets: array<seq<Value>>)
    returns (r: Result<()>)
    requires Sound(reader, state) && state.recursionDepth <= MAX_RECURSION_DEPTH
    modifies reader`bitPos, state, subsets
    ensures r.Ok? ==> Sound(reader, state) && state.recursionDepth == old(state.recursionDepth)
    ensures Aligned(old(subsets[..])) ==> Aligned(subsets[..])
    ensures Repeat(ColumnProgram(t, reader), block, repCount, old(state.recursionDepth),
                   Progress(old(Now(reader, state, subsets[..])), old(state.totalDescriptorsRead)))
         == if r.Ok? then Ok(Progress(Now(reader, state, subsets[..]), state.totalDescriptorsRead)) else Err(r.error)
    decreases MAX_RECURSION_DEPTH - state.recursionDepth, 1, 0
  {
    hide Call, Aligned;
    ghost var p, depth := ColumnProgram(t, reader), state.recursionDepth;
    ghost var whole := Repeat(p, block, repCount, depth,
                              Progress(Now(reader, state, subsets[..]), state.totalDescriptorsRead));
    var n := 0;
    while n < repCount
      invariant 0 <= n && (n <= repCount || repCount <= 0 == n)
      invariant Sound(reader, state) && state.recursionDepth == depth
      invariant Aligned(old(subsets[..])) ==> Aligned(subsets[..])
      invariant whole == Repeat(p, block, repCount - n, depth,
                                Progress(Now(reader, state, subsets[..]), state.totalDescriptorsRead))
    {
      var once := DecodeDescriptorsCompressed(t, block, reader, state, subsets);
      if once.Err? {
        return once;
      }
      n := n + 1;
    }
    r := Ok(());
  }

  method DecodeCompressed(t: Tables, descriptors: seq<Descriptor>, numSubsets: nat, reader: BitReader)
    returns (r: Result<seq<seq<Value>>>)
    requires reader.bitPos == 0
    modifies reader`bitPos
    ensures var found := DecodeColumns(t, descriptors, numSubsets, reader.Stream());
      if r.Ok? then found.Ok? && r.value == found.value.m.out else found == Err(r.error)
    ensures r.Ok? ==> Aligned(r.value)
  {
    hide Call;
    var subsets := new seq<Value>[numSubsets](s => []);
    var state := new DecoderState();
    assert subsets[..] == Empty(numSubsets);
    assert Now(reader, state, subsets[..]) == Start.(out := Empty(numSubsets));
    var done := DecodeDescriptorsCompressed(t, descriptors, reader, state, subsets);
    r := if done.Err? then Err(done.error) else Ok(subsets[..]);
  }
}
