/**
  The state a BUFR template is interpreted in, and what both interpreters do alike: operators,
  skipped local fields, new reference values, and how a raw field becomes a datum.
 */
module BufrMachine {
  import opened Bits
  import opened BitReading
  import opened BufrTexts
  import opened BufrTypes

  /** The operator state that Table C descriptors set and element descriptors obey. */
  datatype Operators = Operators(
    dataWidthChange: int,
    scaleChange: int,
    newRefWidth: nat,
    newRefValues: map<nat, int>,
    assocFieldWidth: nat,
    stringWidthOverride: nat,
    scaleRefWidthExtra: nat,
    bitmapRemaining: nat,
    bitmapBits: seq<bool>,
    skipNextLocal: bool,
    localWidth: nat)

  const Neutral := Operators(0, 0, 0, map[], 0, 0, 0, 0, [], false, 0)

  /** Operators, cursor, whether the stream ran out, and the values decoded so far by subset. */
  datatype Machine = Machine(ops: Operators, pos: nat, exhausted: bool, out: seq<seq<Value>>) {
    predicate Ready(size: nat) {
      pos <= size && ops.bitmapRemaining <= |ops.bitmapBits|
    }

    /** Fewer than n bits are left, or the stream ran out before. */
    predicate Short(bits: seq<bool>, n: int)
      requires pos <= |bits|
    {
      exhausted || |bits| - pos < n
    }
  }

  /** One more value for every subset. */
  function Append(out: seq<seq<Value>>, vals: seq<Value>): (r: seq<seq<Value>>)
    requires |vals| == |out|
    ensures |r| == |out|
  {
    seq(|out|, s requires 0 <= s < |out| => out[s] + [vals[s]])
  }

  function AppendAll(out: seq<seq<Value>>, v: Value): (r: seq<seq<Value>>)
    ensures |r| == |out|
  {
    Append(out, seq(|out|, s => v))
  }

  /** Table C operators 201 to 204 and 206 to 208; every other operator changes nothing. */
  function Operate(ops: Operators, x: nat, y: nat): (r: Operators)
    ensures r.bitmapRemaining == ops.bitmapRemaining && r.bitmapBits == ops.bitmapBits
  {
    match x
    case 1 => ops.(dataWidthChange := if y == 0 then 0 else y - 128)
    case 2 => ops.(scaleChange := if y == 0 then 0 else y - 128)
    case 3 =>
      if y == 0 then ops.(newRefWidth := 0, newRefValues := map[])
      else if y == 255 then ops.(newRefWidth := 0)
      else ops.(newRefWidth := y)
    case 4 => ops.(assocFieldWidth := y)
    case 6 => ops.(skipNextLocal := true, localWidth := y)
    case 7 => ops.(scaleRefWidthExtra := y)
    case 8 => ops.(stringWidthOverride := y * 8)
    case _ => ops
  }

  /** A local descriptor is skipped if operator 206 announced its width, otherwise refused. */
  function SkipLocal(bits: seq<bool>, d: Descriptor, m: Machine): (r: Result<Machine>)
    requires m.Ready(|bits|)
    ensures r.Ok? ==> r.value.Ready(|bits|) && m.pos <= r.value.pos && r.value.out == m.out
  {
    if !m.ops.skipNextLocal then Err(LocalDescriptor(d)) else
    var m' := m.(ops := m.ops.(skipNextLocal := false));
    if m.Short(bits, m.ops.localWidth) then Ok(m'.(exhausted := true))
    else Ok(m'.(pos := m.pos + m.ops.localWidth))
  }

  /** While operator 203 is defining references, an element carries its new reference value. */
  function NewReference(bits: seq<bool>, code: nat, m: Machine): (r: Result<Machine>)
    requires m.Ready(|bits|)
    ensures r.Ok? ==> r.value.Ready(|bits|) && m.pos <= r.value.pos && r.value.out == m.out
  {
    var w := m.ops.newRefWidth;
    if m.Short(bits, w) then Ok(m.(exhausted := true))
    else if w > 64 then Err(BadBitCount)
    else
      var v := Signed(bits[m.pos..m.pos + w]);
      Ok(m.(pos := if w <= 1 then m.pos else m.pos + w,
            ops := m.ops.(newRefValues := m.ops.newRefValues[code := v])))
  }

  function Pow10(n: nat): nat {
    if n == 0 then 1 else 10 * Pow10(n - 1)
  }

  /** Width, reference and scale of a numeric element under the operators in force. */
  datatype Format = Format(width: int, reference: int, scale: int)

  function NumberFormat(e: Entry, code: nat, ops: Operators): Format {
    var reference := if code in ops.newRefValues then ops.newRefValues[code] else e.reference;
    var extra := ops.scaleRefWidthExtra;
    Format(e.width + ops.dataWidthChange + (if extra > 0 then (10 * extra + 2) / 3 else 0),
           if extra > 0 then reference * Pow10(extra) else reference,
           e.scale + ops.scaleChange + extra)
  }

  function TextWidth(e: Entry, ops: Operators): nat {
    if ops.stringWidthOverride > 0 then ops.stringWidthOverride else e.width
  }

  /** All ones means missing. */
  function NumberDatum(raw: nat, f: Format): Datum {
    if IsAllOnes(raw, f.width) then Missing else Number(raw + f.reference, f.scale)
  }

  /** Only padding means missing; otherwise NULs and then white space are trimmed. */
  function TextDatum(s: seq<byte>): Datum {
    if AllFF(s) || IsPadding(s) then Missing else Text(Trimmed(s))
  }

  /**
    A text is missing exactly if every character of it is NUL, blank or U+FFFD, as which any octet
    outside valid UTF-8 reads. Otherwise one stretch of it is the text, and what is cut off is blank.
   */
  lemma TextsKept(s: seq<byte>) returns (a: nat, b: nat)
    ensures a <= b <= |s| && TextDatum(s) == if AllPad(s) then Missing else Text(s[a..b])
    ensures forall k :: 0 <= k < a || b <= k < |s| ==> Blank(s, k)
    ensures !StartsWithSpace(s[a..b]) && !EndsWithSpace(s[a..b])
  {
    hide Trimmed, Blank, StartsWithSpace, EndsWithSpace, IsPadding;
    PaddingIsAllPad(s);
    a, b := TrimmedEnds(s);
  }

  /** An octet below 0x80 that is seen keeps a text from being missing, and stays in it. */
  lemma VisibleKept(s: seq<byte>, k: nat)
    requires k < |s| && 0x20 < s[k] < 0x80
    ensures TextDatum(s).Text? && s[k] in TextDatum(s).octets
  {
    hide TextDatum;
    var a, b := TextsKept(s);
    assert !PadAt(s, k);
    if k < a || b <= k {
      NotBlank(s, k);
      assert false;
    }
    assert s[a..b][k - a] == s[k];
  }

  lemma NotBlank(s: seq<byte>, k: nat)
    requires k < |s| && 0x20 < s[k] < 0x80
    ensures !Blank(s, k)
  {
  }

  /** A delayed count as a signed 64-bit integer; all ones is zero except for descriptor 031000. */
  function CountOf(raw: nat, width: int, code: nat): int {
    if code != 31000 && IsAllOnes(raw, width) then 0
    else if raw >= 0x8000_0000_0000_0000 then raw - 0x1_0000_0000_0000_0000
    else raw
  }

  function Said(d: Descriptor, e: Entry, datum: Datum): Value {
    Value(d, e.name, e.unit, datum)
  }

  /** The same for a whole column. */
  function SaidAll(d: Descriptor, e: Entry, data: seq<Datum>): (vals: seq<Value>)
    ensures |vals| == |data|
  {
    seq(|data|, s requires 0 <= s < |data| => Said(d, e, data[s]))
  }

  function Signified(d: Descriptor, datum: Datum): Value {
    Value(d, "Signify character", CHARACTER_UNIT, datum)
  }

  function SignifiedAll(d: Descriptor, data: seq<Datum>): (vals: seq<Value>)
    ensures |vals| == |data|
  {
    seq(|data|, s requires 0 <= s < |data| => Signified(d, data[s]))
  }
}
