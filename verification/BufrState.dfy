/**
  The state object both decoders write to, and what they do alike with a descriptor. Every method
  is tied to the machine of the interpreter.
 */
module BufrState {
  import opened Bits
  import opened BitReading
  import opened BufrTypes
  import opened BufrMachine

  class DecoderState {
    var dataWidthChange: int
    var scaleChange: int
    var newRefWidth: nat
    var newRefValues: map<nat, int>
    var assocFieldWidth: nat
    var stringWidthOverride: nat
    var scaleRefWidthExtra: nat
    var bitmapRemaining: nat
    var bitmapBits: seq<bool>
    var skipNextLocal: bool
    var localWidth: nat
    var recursionDepth: nat
    var totalDescriptorsRead: nat
    var streamExhausted: bool

    constructor ()
      ensures Ops() == Neutral && !streamExhausted && recursionDepth == 0 && totalDescriptorsRead == 0
    {
      dataWidthChange, scaleChange := 0, 0;
      newRefWidth, newRefValues := 0, map[];
      assocFieldWidth, stringWidthOverride, scaleRefWidthExtra := 0, 0, 0;
      bitmapRemaining, bitmapBits := 0, [];
      skipNextLocal, localWidth := false, 0;
      recursionDepth, totalDescriptorsRead, streamExhausted := 0, 0, false;
    }

    /** What the fields that descriptors set amount to. */
    ghost function Ops(): Operators
      reads this
    {
      Operators(dataWidthChange, scaleChange, newRefWidth, newRefValues, assocFieldWidth, stringWidthOverride,
                scaleRefWidthExtra, bitmapRemaining, bitmapBits, skipNextLocal, localWidth)
    }

    ghost predicate Valid()
      reads this
    {
      bitmapRemaining <= |bitmapBits|
    }

    /** Between subsets of row-wise data: the width of operator 206, the depth and the budget stay. */
    method Reset()
      modifies this
      ensures dataWidthChange == scaleChange == newRefWidth == 0 && newRefValues == map[]
      ensures assocFieldWidth == stringWidthOverride == scaleRefWidthExtra == 0
      ensures bitmapRemaining == 0 && bitmapBits == [] && !skipNextLocal && !streamExhausted
      ensures localWidth == old(localWidth)
      ensures recursionDepth == old(recursionDepth) && totalDescriptorsRead == old(totalDescriptorsRead)
    {
      dataWidthChange := 0;
      scaleChange := 0;
      newRefWidth := 0;
      newRefValues := map[];
      assocFieldWidth := 0;
      stringWidthOverride := 0;
      scaleRefWidthExtra := 0;
      bitmapRemaining := 0;
      bitmapBits := [];
      skipNextLocal := false;
      streamExhausted := false;
    }
  }

  /** The machine the state, the cursor and the values so far amount to. */
  ghost function Now(reader: BitReader, state: DecoderState, out: seq<seq<Value>>): Machine
    reads reader, state
  {
    Machine(state.Ops(), reader.bitPos, state.streamExhausted, out)
  }

  ghost predicate Sound(reader: BitReader, state: DecoderState)
    reads reader, state
    ensures Sound(reader, state) ==> Now(reader, state, []).Ready(|reader.Stream()|)
  {
    reader.Valid() && state.Valid()
  }

  // ----- What both decoders do with a descriptor -----

  method SkipLocalField(reader: BitReader, state: DecoderState, desc: Descriptor, ghost out: seq<seq<Value>>)
    returns (r: Result<()>)
    requires Sound(reader, state)
    modifies reader`bitPos, state`skipNextLocal, state`streamExhausted
    ensures Sound(reader, state)
    ensures var m := SkipLocal(reader.Stream(), desc, old(Now(reader, state, out)));
      if r.Ok? then m == Ok(Now(reader, state, out)) else m == Err(r.error)
  {
    if !state.skipNextLocal {
      return Err(LocalDescriptor(desc));
    }
    state.skipNextLocal := false;
    if !state.streamExhausted {
      if reader.BitsRemaining() < state.localWidth {
        state.streamExhausted := true;
      } else {
        var skipped := reader.SkipBits(state.localWidth);
        if skipped.Err? {
          return Err(skipped.error);
        }
      }
    }
    r := Ok(());
  }

  /** Operators 201 to 204 and 206 to 208. */
  method ApplyOperator(state: DecoderState, x: nat, y: nat)
    modifies state
    ensures state.Ops() == Operate(old(state.Ops()), x, y)
    ensures state.streamExhausted == old(state.streamExhausted)
    ensures state.recursionDepth == old(state.recursionDepth)
    ensures state.totalDescriptorsRead == old(state.totalDescriptorsRead)
  {
    if x == 1 {
      state.dataWidthChange := if y == 0 then 0 else y - 128;
    } else if x == 2 {
      state.scaleChange := if y == 0 then 0 else y - 128;
    } else if x == 3 {
      if y == 0 {
        state.newRefWidth := 0;
        state.newRefValues := map[];
      } else if y == 255 {
        state.newRefWidth := 0;
      } else {
        state.newRefWidth := y;
      }
    } else if x == 4 {
      state.assocFieldWidth := y;
    } else if x == 6 {
      state.skipNextLocal := true;
      state.localWidth := y;
    } else if x == 7 {
      state.scaleRefWidthExtra := y;
    } else if x == 8 {
      state.stringWidthOverride := y * 8;
    }
  }

  method ReadNewReference(reader: BitReader, state: DecoderState, code: nat, ghost out: seq<seq<Value>>)
    returns (r: Result<()>)
    requires Sound(reader, state) && state.newRefWidth > 0
    modifies reader`bitPos, state`newRefValues, state`streamExhausted
    ensures Sound(reader, state)
    ensures var m := NewReference(reader.Stream(), code, old(Now(reader, state, out)));
      if r.Ok? then m == Ok(Now(reader, state, out)) else m == Err(r.error)
  {
    if !state.streamExhausted {
      if reader.BitsRemaining() < state.newRefWidth {
        state.streamExhausted := true;
      } else {
        hide Signed, Unpack, ToNat, Cut;
        ghost var field := reader.Stream()[reader.bitPos..reader.bitPos + state.newRefWidth];
        ShortReference(field);
        var newRef := reader.ReadSignedBits(state.newRefWidth);
        if newRef.Err? {
          return Err(newRef.error);
        }
        state.newRefValues := state.newRefValues[code := newRef.value];
      }
    }
    r := Ok(());
  }

  lemma ShortReference(field: seq<bool>)
    ensures |field| <= 1 ==> Signed(field) == 0
  {
  }

  method EffectiveFormat(state: DecoderState, entry: Entry, code: nat) returns (f: Format)
    ensures f == NumberFormat(entry, code, state.Ops())
  {
    var effRef := if code in state.newRefValues then state.newRefValues[code] else entry.reference;
    var effScale := entry.scale + state.scaleChange + state.scaleRefWidthExtra;
    var effWidth := entry.width + state.dataWidthChange;
    if state.scaleRefWidthExtra > 0 {
      effRef := effRef * Pow10(state.scaleRefWidthExtra);
      effWidth := effWidth + (10 * state.scaleRefWidthExtra + 2) / 3;
    }
    f := Format(effWidth, effRef, effScale);
  }

  /** A count as the signed 64-bit integer it is converted to. */
  method SignedCount(raw: nat, width: int, code: nat) returns (count: int)
    ensures count == CountOf(raw, width, code)
  {
    if code != 31000 && IsAllOnes(raw, width) {
      return 0;
    }
    count := if raw >= 0x8000_0000_0000_0000 then raw - 0x1_0000_0000_0000_0000 else raw;
  }
}
