/**
  The decoder of row-wise data as the program runs it: loops over the descriptors, a shared bit
  cursor, and recursion for sequences and replicated blocks.
 */
module BufrRowDecoder {
  import opened Bits
  import opened BitReading
  import opened BufrTypes
  import opened BufrMachine
  import opened BufrLeaves
  import opened BufrInterpreter
  import opened BufrEquivalence
  import opened BufrState

  method ReadTextRow(reader: BitReader, state: DecoderState, width: nat) returns (datum: Datum)
    requires Sound(reader, state)
    modifies reader`bitPos, state`streamExhausted
    ensures Sound(reader, state)
    ensures RowText(reader.Stream(), old(Now(reader, state, [])), width) == (Now(reader, state, []), datum)
  {
    datum := Missing;
    if !state.streamExhausted {
      if reader.BitsRemaining() < width {
        state.streamExhausted := true;
      } else {
        var s := reader.ReadString(width / 8);
        datum := if s.value.1 then Missing else TextDatum(s.value.0);
      }
    }
  }

  method ReadNumberRow(reader: BitReader, state: DecoderState, f: Format) returns (datum: Datum)
    requires Sound(reader, state) && 0 < f.width <= 64
    modifies reader`bitPos, state`streamExhausted
    ensures Sound(reader, state)
    ensures RowNumber(reader.Stream(), old(Now(reader, state, [])), f) == (Now(reader, state, []), datum)
  {
    datum := Missing;
    if !state.streamExhausted {
      if reader.BitsRemaining() < f.width {
        state.streamExhausted := true;
      } else {
        var rawBits := reader.ReadBits(f.width);
        datum := NumberDatum(rawBits.value, f);
      }
    }
  }

  /** Operator 237: one presence bit for each of the next y elements. */
  method ReadBitmap(reader: BitReader, state: DecoderState, y: nat)
    requires Sound(reader, state)
    modifies reader`bitPos, state`streamExhausted, state`bitmapRemaining, state`bitmapBits
    ensures Sound(reader, state)
    ensures Now(reader, state, []) == RowBitmap(reader.Stream(), old(Now(reader, state, [])), y)
  {
    hide Unpack, Cut;
    ghost var bits, start, exhausted := reader.Stream(), reader.bitPos, state.streamExhausted;
    var present: seq<bool> := [];
    for b := 0 to y
      invariant reader.Valid()
      invariant ReadFlags(bits, start, exhausted, b) == Flags(reader.bitPos, state.streamExhausted, present)
    {
      if state.streamExhausted {
        present := present + [false];
      } else if reader.BitsRemaining() < 1 {
        state.streamExhausted := true;
        present := present + [false];
      } else {
        var raw := reader.ReadBits(1);
        OneBitRead(bits, reader.bitPos - 1);
        present := present + [raw.value == 1];
      }
    }
    state.bitmapRemaining := y;
    state.bitmapBits := present;
  }

  lemma OneBitRead(bits: seq<bool>, pos: nat)
    requires pos < |bits|
    ensures Cut(bits, pos, 1) == Digit(bits[pos])
  {
    assert bits[pos..pos + 1] == [bits[pos]];
    OneBit(bits[pos]);
  }

  lemma OneMore(pre: seq<Value>, v: Value)
    ensures AppendAll([pre], v) == [pre + [v]]
  {
  }

  lemma NoneMore(pre: seq<Value>)
    ensures pre + [] == pre
  {
  }

  method DecodeOperatorRow(desc: Descriptor, reader: BitReader, state: DecoderState, ghost pre: seq<Value>)
    returns (vals: seq<Value>)
    requires Sound(reader, state)
    modifies reader`bitPos, state
    ensures Sound(reader, state)
    ensures state.recursionDepth == old(state.recursionDepth)
    ensures state.totalDescriptorsRead == old(state.totalDescriptorsRead)
    ensures RowOperator(reader.Stream(), desc, old(Now(reader, state, [pre]))) == Now(reader, state, [pre + vals])
  {
    vals := [];
    NoneMore(pre);
    if desc.x == 5 {
      var datum := ReadTextRow(reader, state, desc.y * 8);
      vals := [Signified(desc, datum)];
      OneMore(pre, Signified(desc, datum));
    } else if desc.x == 37 {
      if desc.y == 0 {
        state.bitmapRemaining := 0;
        state.bitmapBits := [];
      } else {
        ReadBitmap(reader, state, desc.y);
      }
    } else {
      ApplyOperator(state, desc.x, desc.y);
    }
  }

  /** Skips the associated field of operator 204, if there is one. */
  method SkipAssociatedField(reader: BitReader, state: DecoderState, code: nat, ghost out: seq<seq<Value>>)
    requires Sound(reader, state)
    modifies reader`bitPos, state`streamExhausted
    ensures Sound(reader, state)
    ensures RowAssociated(reader.Stream(), code, old(Now(reader, state, out))) == Now(reader, state, out)
  {
    if state.assocFieldWidth > 0 && code != 31021 && !state.streamExhausted {
      if reader.BitsRemaining() < state.assocFieldWidth {
        state.streamExhausted := true;
      } else {
        var skipped := reader.SkipBits(state.assocFieldWidth);
      }
    }
  }

  method DecodeFieldRow(desc: Descriptor, entry: Entry, reader: BitReader, state: DecoderState, ghost pre: seq<Value>)
    returns (r: Result<Value>)
    requires Sound(reader, state)
    modifies reader`bitPos, state`streamExhausted
    ensures Sound(reader, state)
    ensures RowField(reader.Stream(), desc, entry, old(Now(reader, state, [pre])))
         == if r.Ok? then Ok(Now(reader, state, [pre + [r.value]])) else Err(r.error)
  {
    var datum: Datum;
    if entry.unit == CHARACTER_UNIT {
      var effWidth := if state.stringWidthOverride > 0 then state.stringWidthOverride else entry.width;
      datum := ReadTextRow(reader, state, effWidth);
    } else {
      var f := EffectiveFormat(state, entry, desc.Code());
      if f.width <= 0 || f.width > 64 {
        return Err(InvalidBUFR);
      }
      datum := ReadNumberRow(reader, state, f);
    }
    OneMore(pre, Said(desc, entry, datum));
    r := Ok(Said(desc, entry, datum));
  }

  method DecodeElementRow(t: Tables, desc: Descriptor, reader: BitReader, state: DecoderState, ghost pre: seq<Value>)
    returns (r: Result<seq<Value>>)
    requires Sound(reader, state)
    modifies reader`bitPos, state
    ensures Sound(reader, state)
    ensures state.recursionDepth == old(state.recursionDepth)
    ensures state.totalDescriptorsRead == old(state.totalDescriptorsRead)
    ensures RowElement(t, reader.Stream(), desc, old(Now(reader, state, [pre])))
         == if r.Ok? then Ok(Now(reader, state, [pre + r.value])) else Err(r.error)
  {
    hide RowField, RowAssociated, NewReference;
    NoneMore(pre);
    var code := desc.Code();
    if code !in t.b {
      return Err(UnknownDescriptor(desc));
    }
    var entry := t.b[code];
    if state.newRefWidth > 0 {
      var skipped := ReadNewReference(reader, state, code, [pre]);
      return if skipped.Err? then Err(skipped.error) else Ok([]);
    }
    if state.bitmapRemaining > 0 {
      var bitPresent := state.bitmapBits[|state.bitmapBits| - state.bitmapRemaining];
      state.bitmapRemaining := state.bitmapRemaining - 1;
      if !bitPresent {
        OneMore(pre, Said(desc, entry, Missing));
        return Ok([Said(desc, entry, Missing)]);
      }
    }
    SkipAssociatedField(reader, state, code, [pre]);
    var field := DecodeFieldRow(desc, entry, reader, state, pre);
    r := if field.Err? then Err(field.error) else Ok([field.value]);
  }

  method DecodeLeafRow(t: Tables, desc: Descriptor, reader: BitReader, state: DecoderState, ghost pre: seq<Value>)
    returns (r: Result<seq<Value>>)
    requires Sound(reader, state) && Leafy(desc)
    modifies reader`bitPos, state
    ensures Sound(reader, state)
    ensures state.recursionDepth == old(state.recursionDepth)
    ensures state.totalDescriptorsRead == old(state.totalDescriptorsRead)
    ensures RowLeaf(t, reader.Stream(), desc, old(Now(reader, state, [pre])))
         == if r.Ok? then Ok(Now(reader, state, [pre + r.value])) else Err(r.error)
  {
    hide RowElement, RowOperator, SkipLocal;
    if desc.IsLocal() {
      NoneMore(pre);
      var skipped := SkipLocalField(reader, state, desc, [pre]);
      r := if skipped.Err? then Err(skipped.error) else Ok([]);
    } else if desc.f == 2 {
      var vals := DecodeOperatorRow(desc, reader, state, pre);
      r := Ok(vals);
    } else {
      r := DecodeElementRow(t, desc, reader, state, pre);
    }
  }

  method DecodeFactorRow(t: Tables, desc: Descriptor, reader: BitReader, state: DecoderState, ghost pre: seq<Value>)
    returns (r: Result<(Value, int)>)
    requires Sound(reader, state)
    modifies reader`bitPos, state`streamExhausted
    ensures Sound(reader, state)
    ensures RowCount(t, reader.Stream(), desc, old(Now(reader, state, [pre])))
         == if r.Ok? then Ok((Now(reader, state, [pre + [r.value.0]]), r.value.1)) else Err(r.error)
  {
    hide CountOf;
    var code := desc.Code();
    if code !in t.b {
      return Err(UnknownDescriptor(desc));
    }
    var entry := t.b[code];
    var effWidth := entry.width + state.dataWidthChange;
    if effWidth <= 0 || effWidth > 64 {
      return Err(InvalidBUFR);
    }
    var count := 0;
    if state.streamExhausted || reader.BitsRemaining() < effWidth {
      state.streamExhausted := true;
    } else {
      var rawBits := reader.ReadBits(effWidth);
      count := SignedCount(rawBits.value, effWidth, code);
    }
    OneMore(pre, Said(desc, entry, Number(count, 0)));
    r := Ok((Said(desc, entry, Number(count, 0)), count));
  }

  /**
    Row-wise data under a descriptor list, one level deeper than the caller: the values read, in the
    order and with the cursor, operators and budget of the interpreter, or its error.
   */
  method DecodeDescriptorsUncompressed(t: Tables, descriptors: seq<Descriptor>, reader: BitReader,
                                       state: DecoderState, ghost pre: seq<Value>)
    returns (r: Result<seq<Value>>)
    requires Sound(reader, state) && state.recursionDepth <= MAX_RECURSION_DEPTH
    modifies reader`bitPos, state
    ensures r.Ok? ==> Sound(reader, state) && state.recursionDepth == old(state.recursionDepth)
    ensures Call(RowProgram(t, reader), descriptors, old(state.recursionDepth),
                 Progress(old(Now(reader, state, [pre])), old(state.totalDescriptorsRead)))
         == if r.Ok? then Ok(Progress(Now(reader, state, [pre + r.value]), state.totalDescriptorsRead)) else Err(r.error)
    decreases MAX_RECURSION_DEPTH - state.recursionDepth, 0
  {
    hide Proceed;
    state.recursionDepth := state.recursionDepth + 1;
    if state.recursionDepth > MAX_RECURSION_DEPTH {
      return Err(LimitExceeded);
    }
    ghost var p, depth := RowProgram(t, reader), state.recursionDepth;
    ghost var whole := Run(p, descriptors, 0, depth, Progress(Now(reader, state, [pre]), state.totalDescriptorsRead));
    var res: seq<Value> := [];
    NoneMore(pre);
    var i: nat := 0;
    while i < |descriptors|
      invariant i <= |descriptors| && Sound(reader, state) && state.recursionDepth == depth
      invariant whole == Run(p, descriptors, i, depth,
                             Progress(Now(reader, state, [pre + res]), state.totalDescriptorsRead))
      decreases MAX_EXPANDED_DESCRIPTORS - state.totalDescriptorsRead
    {
      state.totalDescriptorsRead := state.totalDescriptorsRead + 1;
      if state.totalDescriptorsRead > MAX_EXPANDED_DESCRIPTORS {
        return Err(LimitExceeded);
      }
      var round := ObeyUncompressed(t, descriptors, i, reader, state, pre + res);
      if round.Err? {
        return Err(round.error);
      }
      assert (pre + res) + round.value.0 == pre + (res + round.value.0);
      res := res + round.value.0;
      i := round.value.1;
    }
    state.recursionDepth := state.recursionDepth - 1;
    r := Ok(res);
  }

  ghost function RowProgram(t: Tables, reader: BitReader): Program {
    Program(t, Rows(reader.Stream()), MAX_EXPANDED_DESCRIPTORS)
  }

  /** One round of the loop after its charge: the values it adds and the next index. */
  method ObeyUncompressed(t: Tables, descriptors: seq<Descriptor>, i: nat, reader: BitReader,
                          state: DecoderState, ghost pre: seq<Value>)
    returns (r: Result<(seq<Value>, nat)>)
    requires Sound(reader, state) && i < |descriptors| && state.recursionDepth <= MAX_RECURSION_DEPTH
    modifies reader`bitPos, state
    ensures r.Ok? ==> Sound(reader, state) && state.recursionDepth == old(state.recursionDepth)
    ensures Proceed(RowProgram(t, reader), descriptors, i, old(state.recursionDepth),
                    Progress(old(Now(reader, state, [pre])), old(state.totalDescriptorsRead)))
         == if r.Ok?
            then Ok(Spot(r.value.1, Progress(Now(reader, state, [pre + r.value.0]), state.totalDescriptorsRead)))
            else Err(r.error)
    decreases MAX_RECURSION_DEPTH - state.recursionDepth, 2
  {
    hide Call, RowLeaf;
    var desc := descriptors[i];
    if Leafy(desc) {
      var vals := DecodeLeafRow(t, desc, reader, state, pre);
      r := if vals.Err? then Err(vals.error) else Ok((vals.value, i + 1));
    } else if desc.f == 3 {
      if desc.Code() !in t.d {
        return Err(UnknownDescriptor(desc));
      }
      var vals := DecodeDescriptorsUncompressed(t, Nested(t.d[desc.Code()]), reader, state, pre);
      r := if vals.Err? then Err(vals.error) else Ok((vals.value, i + 1));
    } else if desc.f == 1 {
      r := ReplicateUncompressed(t, descriptors, i, reader, state, pre);
    } else {
      NoneMore(pre);
      r := Ok(([], i));
    }
  }

  method ReplicateUncompressed(t: Tables, descriptors: seq<Descriptor>, at: nat, reader: BitReader,
                               state: DecoderState, ghost pre: seq<Value>)
    returns (r: Result<(seq<Value>, nat)>)
    requires Sound(reader, state) && at < |descriptors| && descriptors[at].f == 1
    requires state.recursionDepth <= MAX_RECURSION_DEPTH
    modifies reader`bitPos, state
    ensures r.Ok? ==> Sound(reader, state) && state.recursionDepth == old(state.recursionDepth)
    ensures Proceed(RowProgram(t, reader), descriptors, at, old(state.recursionDepth),
                    Progress(old(Now(reader, state, [pre])), old(state.totalDescriptorsRead)))
         == if r.Ok?
            then Ok(Spot(r.value.1, Progress(Now(reader, state, [pre + r.value.0]), state.totalDescriptorsRead)))
            else Err(r.error)
    decreases MAX_RECURSION_DEPTH - state.recursionDepth, 1
  {
    hide Call, RowCount;
    ghost var p, depth := RowProgram(t, reader), state.recursionDepth;
    var i := at;
    var repDescriptors, repCount := descriptors[i].x, descriptors[i].y as int;
    var res: seq<Value> := [];
    NoneMore(pre);
    if repDescriptors == 0 {
      return Err(InvalidBUFR);
    }
    if repCount == 0 {
      i := i + 1;
      if i >= |descriptors| {
        return Err(Truncated);
      }
      var factor := DecodeFactorRow(t, descriptors[i], reader, state, pre);
      if factor.Err? {
        return Err(factor.error);
      }
      res := [factor.value.0];
      repCount := factor.value.1;
    }
    if repCount > MAX_REPLICATION_COUNT {
      return Err(LimitExceeded);
    }
    if i + 1 + repDescriptors > |descriptors| {
      return Err(Truncated);
    }
    var block := descriptors[i + 1..i + 1 + repDescriptors];
    i := i + 1 + repDescriptors;
    var more := RepeatUncompressed(t, block, repCount, reader, state, pre + res);
    if more.Err? {
      return Err(more.error);
    }
    assert (pre + res) + more.value == pre + (res + more.value);
    r := Ok((res + more.value, i));
  }

  method RepeatUncompressed(t: Tables, block: seq<Descriptor>, repCount: int, reader: BitReader,
                            state: DecoderState, ghost pre: seq<Value>)
    returns (r: Result<seq<Value>>)
    requires Sound(reader, state) && state.recursionDepth <= MAX_RECURSION_DEPTH
    modifies reader`bitPos, state
    ensures r.Ok? ==> Sound(reader, state) && state.recursionDepth == old(state.recursionDepth)
    ensures Repeat(RowProgram(t, reader), block, repCount, old(state.recursionDepth),
                   Progress(old(Now(reader, state, [pre])), old(state.totalDescriptorsRead)))
         == if r.Ok? then Ok(Progress(Now(reader, state, [pre + r.value]), state.totalDescriptorsRead)) else Err(r.error)
    decreases MAX_RECURSION_DEPTH - state.recursionDepth, 1, 0
  {
    hide Call;
    ghost var p, depth := RowProgram(t, reader), state.recursionDepth;
    ghost var whole := Repeat(p, block, repCount, depth, Progress(Now(reader, state, [pre]), state.totalDescriptorsRead));
    var res: seq<Value> := [];
    NoneMore(pre);
    var n := 0;
    while n < repCount
      invariant 0 <= n && (n <= repCount || repCount <= 0 == n)
      invariant Sound(reader, state) && state.recursionDepth == depth
      invariant whole == Repeat(p, block, repCount - n, depth,
                                Progress(Now(reader, state, [pre + res]), state.totalDescriptorsRead))
    {
      var vals := DecodeDescriptorsUncompressed(t, block, reader, state, pre + res);
      if vals.Err? {
        return Err(vals.error);
      }
      assert (pre + res) + vals.value == pre + (res + vals.value);
      res := res + vals.value;
      n := n + 1;
    }
    r := Ok(res);
  }

  /** The first subset that fails decides. */
  lemma {:induction false} RowsStop(t: Tables, ds: seq<Descriptor>, k: nat, n: nat, bits: seq<bool>)
    requires k <= n && DecodeRows(t, ds, k, bits).Err?
    ensures DecodeRows(t, ds, n, bits) == DecodeRows(t, ds, k, bits)
  {
    if k < n {
      RowsStop(t, ds, k, n - 1, bits);
    }
  }

  /** One more subset, from where the subsets before it end. */
  lemma RowsFrom(t: Tables, ds: seq<Descriptor>, k: nat, bits: seq<bool>)
    ensures DecodeRows(t, ds, 0, bits) == Ok(Subsets([], 0, 0, 0))
    ensures var prev := DecodeRows(t, ds, k, bits);
      prev.Ok? ==>
        var r := Call(Program(t, Rows(bits), MAX_EXPANDED_DESCRIPTORS), ds, 0,
                      Progress(Fresh(prev.value.pos, prev.value.localWidth), prev.value.total));
        DecodeRows(t, ds, k + 1, bits) ==
          if r.Err? then Err(r.error)
          else Ok(Subsets(prev.value.values + r.value.m.out, r.value.m.pos, r.value.total, r.value.m.ops.localWidth))
  {
    hide Call;
  }

  method DecodeUncompressed(t: Tables, descriptors: seq<Descriptor>, numSubsets: nat, reader: BitReader)
    returns (r: Result<seq<seq<Value>>>)
    requires reader.bitPos == 0
    modifies reader`bitPos
    ensures DecodedRows(DecodeRows(t, descriptors, numSubsets, reader.Stream()), r)
  {
    hide Call, Unpack, DecodeRows;
    var subsets := new seq<Value>[numSubsets];
    var state := new DecoderState();
    ghost var bits := reader.Stream();
    RowsFrom(t, descriptors, 0, bits);
    for s := 0 to numSubsets
      invariant Sound(reader, state) && state.recursionDepth == 0
      invariant DecodeRows(t, descriptors, s, bits)
             == Ok(Subsets(subsets[..s], reader.bitPos, state.totalDescriptorsRead, state.localWidth))
    {
      RowsFrom(t, descriptors, s, bits);
      state.Reset();
      assert Now(reader, state, [[]]) == Fresh(reader.bitPos, state.localWidth);
      var vals := DecodeDescriptorsUncompressed(t, descriptors, reader, state, []);
      if vals.Err? {
        assert DecodeRows(t, descriptors, s + 1, bits) == Err(vals.error);
        RowsStop(t, descriptors, s + 1, numSubsets, bits);
        return Err(vals.error);
      }
      assert [] + vals.value == vals.value;
      subsets[s] := vals.value;
      assert subsets[..s + 1] == subsets[..s] + [vals.value];
    }
    r := Ok(subsets[..]);
  }

  /** What the row decoder returns of what the interpreter found. */
  ghost predicate DecodedRows(found: Result<Subsets>, r: Result<seq<seq<Value>>>) {
    if r.Ok? then found.Ok? && r.value == found.value.values else found == Err(r.error)
  }
}
