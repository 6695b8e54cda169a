/**
  The sections of one BUFR message: what the decoder takes from them, and the bytes a message with
  given contents is made of. The parser is total, and it undoes the builder.
 */
module BufrSections {
  import opened Options
  import opened Bits
  import opened BufrTypes

  datatype Message = Message(
    edition: nat,
    masterTable: nat,
    masterTableVersion: nat,
    localTableVersion: nat,
    centre: nat,
    subCentre: nat,
    dataCategory: nat,
    dataSubcategory: nat,
    compressed: bool,
    subsets: seq<seq<Value>>)

  const BLANK := Message(0, 0, 0, 0, 0, 0, 0, 0, false, [])
  const MARKER: seq<byte> := [0x42, 0x55, 0x46, 0x52]
  const TERMINATOR: seq<byte> := [0x37, 0x37, 0x37, 0x37]

  /** What is left to interpret: the template, the number of subsets and the data section. */
  datatype Body = Body(descriptors: seq<Descriptor>, numSubsets: nat, payload: seq<byte>)

  /** The header fields read before the first error, and the body or that error. */
  datatype Parsed = Parsed(msg: Message, body: Result<Body>)

  function Read24(b: seq<byte>, pos: nat): nat
    requires pos + 3 <= |b|
  {
    (b[pos] as nat) * 0x1_0000 + (b[pos + 1] as nat) * 0x100 + b[pos + 2]
  }

  function Read16(b: seq<byte>, pos: nat): nat
    requires pos + 2 <= |b|
  {
    (b[pos] as nat) * 0x100 + b[pos + 1]
  }

  // ----- The parser, section by section -----

  function ParseMessage(b: seq<byte>): Parsed {
    if |b| < 16 then Parsed(BLANK, Err(Truncated)) else
    var edition := b[7];
    if edition != 3 && edition != 4 then Parsed(BLANK, Err(InvalidBUFR)) else
    var msg := BLANK.(edition := edition);
    var s1Len := Read24(b, 8);
    if s1Len < 8 || 8 + s1Len > |b| - 4 then Parsed(msg, Err(Truncated))
    else if s1Len < (if edition == 4 then 22 else 17) then Parsed(msg, Err(InvalidBUFR)) else
    var filled := FillHeader(b, msg);
    var pos := AfterSection2(b, 8 + s1Len, HasSection2(b, edition));
    if pos.Err? then Parsed(filled, Err(pos.error)) else Section3(b, pos.value, filled)
  }

  function FillHeader(b: seq<byte>, msg: Message): Message
    requires |b| >= (if msg.edition == 4 then 23 else 20)
  {
    if msg.edition == 4 then
      msg.(masterTable := b[11], centre := Read16(b, 12), subCentre := Read16(b, 14), dataCategory := b[18],
           dataSubcategory := b[20], masterTableVersion := b[21], localTableVersion := b[22])
    else
      msg.(masterTable := b[11], subCentre := b[12], centre := b[13], dataCategory := b[16],
           dataSubcategory := b[17], masterTableVersion := b[18], localTableVersion := b[19])
  }

  predicate HasSection2(b: seq<byte>, edition: nat)
    requires |b| >= 18
  {
    b[if edition == 4 then 17 else 15] >= 0x80
  }

  function AfterSection2(b: seq<byte>, pos: nat, hasSec2: bool): (r: Result<nat>)
    requires pos <= |b| - 4
    ensures r.Ok? ==> r.value <= |b| - 4
  {
    if !hasSec2 then Ok(pos)
    else if pos + 3 > |b| - 4 then Err(Truncated)
    else
      var s2Len := Read24(b, pos);
      if s2Len < 3 || pos + s2Len > |b| - 4 then Err(Truncated) else Ok(pos + s2Len)
  }

  function Section3(b: seq<byte>, pos: nat, msg: Message): Parsed
    requires pos <= |b| - 4
  {
    if pos + 7 > |b| - 4 then Parsed(msg, Err(Truncated)) else
    var s3Len := Read24(b, pos);
    if s3Len < 7 || pos + s3Len > |b| - 4 then Parsed(msg, Err(Truncated)) else
    var numSubsets := Read16(b, pos + 4);
    if numSubsets == 0 then Parsed(msg, Err(InvalidBUFR))
    else if numSubsets > MAX_SUBSETS then Parsed(msg, Err(LimitExceeded))
    else
      var payload := Section4(b, pos + s3Len);
      Parsed(msg.(compressed := b[pos + 6] / 0x40 % 2 == 1),
             if payload.Err? then Err(payload.error)
             else Ok(Body(ReadDescriptors(b, pos + 7, (s3Len - 7) / 2), numSubsets, payload.value)))
  }

  function ReadDescriptor(val: nat): (d: Descriptor) {
    Descriptor(val / 0x4000 % 4, val / 0x100 % 0x40, val % 0x100)
  }

  function ReadDescriptors(b: seq<byte>, pos: nat, n: nat): (ds: seq<Descriptor>)
    requires pos + 2 * n <= |b|
    ensures |ds| == n
  {
    seq(n, i requires 0 <= i < n => ReadDescriptor(Read16(b, pos + 2 * i)))
  }

  function Section4(b: seq<byte>, pos: nat): Result<seq<byte>>
    requires pos <= |b| - 4
  {
    if pos + 4 > |b| - 4 then Err(Truncated) else
    var s4Len := Read24(b, pos);
    if s4Len < 4 || pos + s4Len > |b| - 4 then Err(Truncated) else Ok(b[pos + 4..pos + s4Len])
  }

  // ----- The builder -----

  /** The contents of a message; identification and extra hold all of sections 1 and 2 but their lengths. */
  datatype Contents = Contents(
    edition: byte,
    identification: seq<byte>,
    extra: Option<seq<byte>>,
    compressed: bool,
    body: Body,
    padded: bool)

  predicate Wellformed(c: Contents) {
    && (c.edition == 3 || c.edition == 4)
    && |c.identification| >= (if c.edition == 4 then 19 else 14)
    && (c.identification[if c.edition == 4 then 6 else 4] >= 0x80 <==> c.extra.Some?)
    && 1 <= c.body.numSubsets <= MAX_SUBSETS
    && (forall k :: 0 <= k < |c.body.descriptors| ==> Encodable(c.body.descriptors[k]))
    && Length(c) < 0x100_0000
  }

  predicate Encodable(d: Descriptor) {
    d.f < 4 && d.x < 0x40 && d.y < 0x100
  }

  function Length(c: Contents): nat {
    8 + Length1(c) + Length2(c) + Length3(c) + (4 + |c.body.payload|) + 4
  }
  function Length1(c: Contents): nat {
    3 + |c.identification|
  }
  function Length2(c: Contents): nat {
    if c.extra.Some? then 3 + |c.extra.value| else 0
  }
  function Length3(c: Contents): nat {
    7 + 2 * |c.body.descriptors| + if c.padded then 1 else 0
  }

  function U24(n: nat): (b: seq<byte>)
    requires n < 0x100_0000
    ensures |b| == 3
  {
    [n / 0x1_0000, n / 0x100 % 0x100, n % 0x100]
  }

  function U16(n: nat): (b: seq<byte>)
    requires n < 0x1_0000
    ensures |b| == 2
  {
    [n / 0x100, n % 0x100]
  }

  function DescriptorBytes(ds: seq<Descriptor>): (b: seq<byte>)
    requires forall k :: 0 <= k < |ds| ==> Encodable(ds[k])
    ensures |b| == 2 * |ds|
  {
    seq(2 * |ds|, i requires 0 <= i < 2 * |ds| => DescriptorByte(ds[i / 2], i % 2 == 0))
  }

  function DescriptorByte(d: Descriptor, first: bool): byte
    requires Encodable(d)
  {
    if first then d.f * 0x40 + d.x else d.y
  }

  function Bytes1(c: Contents): (b: seq<byte>)
    requires Wellformed(c)
    ensures |b| == Length1(c)
  {
    U24(Length1(c)) + c.identification
  }

  function Bytes2(c: Contents): (b: seq<byte>)
    requires Wellformed(c)
    ensures |b| == Length2(c)
  {
    if c.extra.Some? then U24(Length2(c)) + c.extra.value else []
  }

  function Bytes3(c: Contents): (b: seq<byte>)
    requires Wellformed(c)
    ensures |b| == Length3(c)
  {
    var flags: byte := if c.compressed then 0xc0 else 0x80;
    U24(Length3(c)) + [0] + U16(c.body.numSubsets) + [flags] + DescriptorBytes(c.body.descriptors)
      + if c.padded then [0] else []
  }

  function Bytes4(c: Contents): (b: seq<byte>)
    requires Wellformed(c)
    ensures |b| == 4 + |c.body.payload|
  {
    U24(4 + |c.body.payload|) + [0] + c.body.payload
  }

  function Build(c: Contents): (b: seq<byte>)
    requires Wellformed(c)
    ensures |b| == Length(c)
  {
    MARKER + U24(Length(c)) + [c.edition] + (Bytes1(c) + (Bytes2(c) + (Bytes3(c) + (Bytes4(c) + TERMINATOR))))
  }

  // ----- The parser undoes the builder -----

  predicate Has(b: seq<byte>, pos: nat, s: seq<byte>) {
    pos + |s| <= |b| && b[pos..pos + |s|] == s
  }

  lemma HasBoth(b: seq<byte>, pos: nat, s: seq<byte>, t: seq<byte>)
    requires Has(b, pos, s + t)
    ensures Has(b, pos, s) && Has(b, pos + |s|, t)
  {
    assert b[pos..pos + |s|] == (s + t)[..|s|];
    assert b[pos + |s|..pos + |s| + |t|] == (s + t)[|s|..];
  }

  lemma HasAt(b: seq<byte>, pos: nat, s: seq<byte>, k: nat)
    requires Has(b, pos, s) && k < |s|
    ensures b[pos + k] == s[k]
  {
    assert b[pos..pos + |s|][k] == s[k];
  }

  lemma Read24Back(b: seq<byte>, pos: nat, n: nat)
    requires n < 0x100_0000 && Has(b, pos, U24(n))
    ensures Read24(b, pos) == n
  {
    HasAt(b, pos, U24(n), 0);
    HasAt(b, pos, U24(n), 1);
    HasAt(b, pos, U24(n), 2);
  }

  lemma Read16Back(b: seq<byte>, pos: nat, n: nat)
    requires n < 0x1_0000 && Has(b, pos, U16(n))
    ensures Read16(b, pos) == n
  {
    HasAt(b, pos, U16(n), 0);
    HasAt(b, pos, U16(n), 1);
  }

  lemma DescriptorBack(d: Descriptor)
    requires Encodable(d)
    ensures ReadDescriptor((d.f * 0x40 + d.x) * 0x100 + d.y) == d
  {
  }

  lemma DescriptorsBack(b: seq<byte>, pos: nat, ds: seq<Descriptor>)
    requires forall k :: 0 <= k < |ds| ==> Encodable(ds[k])
    requires Has(b, pos, DescriptorBytes(ds))
    ensures ReadDescriptors(b, pos, |ds|) == ds
  {
    hide Has, ReadDescriptor;
    HasRoom(b, pos, DescriptorBytes(ds));
    forall i | 0 <= i < |ds|
      ensures ReadDescriptor(Read16(b, pos + 2 * i)) == ds[i]
    {
      HasAt(b, pos, DescriptorBytes(ds), 2 * i);
      HasAt(b, pos, DescriptorBytes(ds), 2 * i + 1);
      DescriptorBack(ds[i]);
    }
  }

  lemma HasRoom(b: seq<byte>, pos: nat, s: seq<byte>)
    requires Has(b, pos, s)
    ensures pos + |s| <= |b|
  {
  }

  lemma Section4Back(b: seq<byte>, pos: nat, c: Contents)
    requires Wellformed(c) && Has(b, pos, Bytes4(c)) && pos + |Bytes4(c)| <= |b| - 4
    ensures Section4(b, pos) == Ok(c.body.payload)
  {
    var n := 4 + |c.body.payload|;
    HasBoth(b, pos, U24(n) + [0], c.body.payload);
    HasBoth(b, pos, U24(n), [0]);
    Read24Back(b, pos, n);
  }

  lemma Section3Back(b: seq<byte>, pos: nat, c: Contents, msg: Message)
    requires Wellformed(c) && Has(b, pos, Bytes3(c) + (Bytes4(c) + TERMINATOR))
    ensures pos <= |b| - 4
    ensures Section3(b, pos, msg) == Parsed(msg.(compressed := c.compressed), Ok(c.body))
  {
    hide Has, U24, U16, DescriptorBytes, Read24, Read16, ReadDescriptors, Section4, Bytes4;
    HasRoom(b, pos, Bytes3(c) + (Bytes4(c) + TERMINATOR));
    HasBoth(b, pos, Bytes3(c), Bytes4(c) + TERMINATOR);
    HasBoth(b, pos + Length3(c), Bytes4(c), TERMINATOR);
    Section4Back(b, pos + Length3(c), c);
    var flags: byte := if c.compressed then 0xc0 else 0x80;
    var length, count, codes := U24(Length3(c)), U16(c.body.numSubsets), DescriptorBytes(c.body.descriptors);
    HasBoth(b, pos, length + [0] + count + [flags] + codes, if c.padded then [0] else []);
    HasBoth(b, pos, length + [0] + count + [flags], codes);
    HasBoth(b, pos, length + [0] + count, [flags]);
    HasBoth(b, pos, length + [0], count);
    HasBoth(b, pos, length, [0]);
    Read24Back(b, pos, Length3(c));
    Read16Back(b, pos + 4, c.body.numSubsets);
    HasAt(b, pos + 6, [flags], 0);
    DescriptorsBack(b, pos + 7, c.body.descriptors);
  }

  lemma Section2Back(b: seq<byte>, pos: nat, c: Contents, rest: seq<byte>)
    requires Wellformed(c) && Has(b, pos, Bytes2(c) + rest) && |rest| >= 4
    ensures pos <= |b| - 4 && AfterSection2(b, pos, c.extra.Some?) == Ok(pos + Length2(c))
    ensures Has(b, pos + Length2(c), rest)
  {
    hide U24, Read24;
    HasBoth(b, pos, Bytes2(c), rest);
    if c.extra.Some? {
      HasBoth(b, pos, U24(Length2(c)), c.extra.value);
      Read24Back(b, pos, Length2(c));
    }
  }

  lemma Section1Back(b: seq<byte>, c: Contents, rest: seq<byte>)
    requires Wellformed(c) && Has(b, 0, MARKER + U24(Length(c)) + [c.edition] + (Bytes1(c) + rest))
    ensures |b| >= 8 + Length1(c) && b[7] == c.edition && Read24(b, 8) == Length1(c)
    ensures HasSection2(b, c.edition) <==> c.extra.Some?
    ensures Has(b, 11, c.identification) && Has(b, 8 + Length1(c), rest)
  {
    hide U24, Read24, Has;
    var header := MARKER + U24(Length(c)) + [c.edition];
    HasRoom(b, 0, header + (Bytes1(c) + rest));
    HasBoth(b, 0, header, Bytes1(c) + rest);
    HasBoth(b, 8, Bytes1(c), rest);
    HasBoth(b, 8, U24(Length1(c)), c.identification);
    Read24Back(b, 8, Length1(c));
    HasAt(b, 0, header, 7);
    HasAt(b, 11, c.identification, if c.edition == 4 then 6 else 4);
  }

  /** Octet k of section 1, counted from 1 as in the Manual on Codes; its first three are the length. */
  function Octet(c: Contents, k: nat): byte
    requires 4 <= k < 4 + |c.identification|
  {
    c.identification[k - 4]
  }

  /** The header that section 1 of either edition stands for. */
  function Header(c: Contents): Message
    requires Wellformed(c)
  {
    if c.edition == 4 then
      Message(4, Octet(c, 4), Octet(c, 14), Octet(c, 15), Octet(c, 5) as nat * 0x100 + Octet(c, 6),
              Octet(c, 7) as nat * 0x100 + Octet(c, 8), Octet(c, 11), Octet(c, 13), c.compressed, [])
    else
      Message(3, Octet(c, 4), Octet(c, 11), Octet(c, 12), Octet(c, 6), Octet(c, 5), Octet(c, 9), Octet(c, 10),
              c.compressed, [])
  }

  lemma HeaderBack(b: seq<byte>, c: Contents)
    requires Wellformed(c) && Has(b, 11, c.identification)
    ensures FillHeader(b, BLANK.(edition := c.edition)).(compressed := c.compressed) == Header(c)
  {
    forall k | 4 <= k < 4 + |c.identification|
      ensures b[7 + k] == Octet(c, k)
    {
      HasAt(b, 11, c.identification, k - 4);
    }
  }

  /** Every message that is built reads back: its header, template, number of subsets and payload. */
  lemma ParseUndoesBuild(c: Contents)
    requires Wellformed(c)
    ensures ParseMessage(Build(c)) == Parsed(Header(c), Ok(c.body))
  {
    hide Has, U24, Read24, Section3, Bytes1, Bytes2, Bytes3, Bytes4, AfterSection2, HasSection2, FillHeader, Header;
    var b := Build(c);
    var rest3 := Bytes3(c) + (Bytes4(c) + TERMINATOR);
    HasAll(b);
    Section1Back(b, c, Bytes2(c) + rest3);
    HeaderBack(b, c);
    Section2Back(b, 8 + Length1(c), c, rest3);
    Section3Back(b, 8 + Length1(c) + Length2(c), c, FillHeader(b, BLANK.(edition := c.edition)));
  }

  lemma HasAll(b: seq<byte>)
    ensures Has(b, 0, b)
  {
  }

  /**
    Sections 1 to 4 stand in a row from octet 8 on: each as long as its first three octets say and no
    shorter than the format allows, and four octets are left behind the last.
   */
  predicate InARow(b: seq<byte>, section2: nat, section3: nat, section4: nat, end: nat) {
    && |b| >= 16 && (b[7] == 3 || b[7] == 4)
    && 8 + (if b[7] == 4 then 22 else 17) <= section2 <= section3 && section3 + 7 <= section4
    && section4 + 4 <= end <= |b| - 4
    && section2 == 8 + Read24(b, 8)
    && (if HasSection2(b, b[7]) then section2 + 3 <= section3 == section2 + Read24(b, section2)
        else section3 == section2)
    && section4 == section3 + Read24(b, section3)
    && end == section4 + Read24(b, section4)
  }

  /** What the sections at these places hold. */
  function BodyAt(b: seq<byte>, section3: nat, section4: nat, end: nat): Body
    requires section3 + 7 <= section4 && section4 + 4 <= end <= |b|
  {
    Body(ReadDescriptors(b, section3 + 7, (section4 - section3 - 7) / 2), Read16(b, section3 + 4), b[section4 + 4..end])
  }

  /**
    Whatever is accepted lies within the message: its sections are in a row, and template, number of
    subsets and payload are what stands in sections 3 and 4.
   */
  lemma AcceptedLiesWithin(b: seq<byte>) returns (section2: nat, section3: nat, section4: nat, end: nat)
    requires ParseMessage(b).body.Ok?
    ensures InARow(b, section2, section3, section4, end)
    ensures ParseMessage(b).body.value == BodyAt(b, section3, section4, end)
    ensures 1 <= Read16(b, section3 + 4) <= MAX_SUBSETS
    ensures forall k :: 0 <= k < |ParseMessage(b).body.value.descriptors| ==>
      Encodable(ParseMessage(b).body.value.descriptors[k])
  {
    hide Read24, Read16, FillHeader, HasSection2;
    section2 := 8 + Read24(b, 8);
    section3 := AfterSection2(b, section2, HasSection2(b, b[7])).value;
    section4 := section3 + Read24(b, section3);
    end := section4 + Read24(b, section4);
  }

  /** And whatever has its sections in a row, and a number of subsets within the limit, is accepted. */
  lemma InARowIsAccepted(b: seq<byte>, section2: nat, section3: nat, section4: nat, end: nat)
    requires InARow(b, section2, section3, section4, end) && 1 <= Read16(b, section3 + 4) <= MAX_SUBSETS
    ensures ParseMessage(b).body == Ok(BodyAt(b, section3, section4, end))
  {
    hide Read24, Read16, FillHeader, HasSection2, ReadDescriptors;
    assert AfterSection2(b, section2, HasSection2(b, b[7])) == Ok(section3);
    assert Section4(b, section4) == Ok(b[section4 + 4..end]);
  }
}
