/**
  Descriptors, table entries, decoded values and errors shared by the BUFR modules.
 */
module BufrTypes {
  import opened Bits

  /** A six-digit FXY descriptor: F the kind, X the class or count, Y the element or operand. */
  datatype Descriptor = Descriptor(f: nat, x: nat, y: nat) {
    function Code(): nat {
      f * 100000 + x * 1000 + y
    }

    predicate IsLocal() {
      (f == 0 || f == 3) && (x >= 48 || y >= 192)
    }
  }

  function NewDescriptor(code: nat): Descriptor {
    Descriptor(code / 100000, code % 100000 / 1000, code % 1000)
  }

  /** The six digits determine the descriptor. */
  lemma DigitsDetermine(d: Descriptor)
    requires d.x < 100 && d.y < 1000
    ensures NewDescriptor(d.Code()) == d
  {
    hide NewDescriptor;
    var rest := d.x * 1000 + d.y;
    LastDigits(d.f, 100000, rest);
    LastDigits(d.x, 1000, d.y);
    LastDigits(100 * d.f + d.x, 1000, d.y);
    assert d.Code() == d.f * 100000 + rest == (100 * d.f + d.x) * 1000 + d.y;
    FromParts(d.Code(), d);
  }

  lemma LastDigits(q: nat, n: nat, r: nat)
    requires n in {1000, 100000} && r < n
    ensures (q * n + r) / n == q && (q * n + r) % n == r
  {
    if n == 1000 {
      assert (q * 1000 + r) / 1000 == q;
    } else {
      assert (q * 100000 + r) / 100000 == q;
    }
  }

  lemma FromParts(code: nat, d: Descriptor)
    requires code / 100000 == d.f && code % 100000 / 1000 == d.x && code % 1000 == d.y
    ensures NewDescriptor(code) == d
  {
  }

  datatype Entry = Entry(name: string, unit: string, scale: int, reference: int, width: nat)

  /** Tables B and D: any maps at all, including sequences that contain themselves. */
  datatype Tables = Tables(b: map<nat, Entry>, d: map<nat, seq<nat>>)

  /** The nested descriptors of a Table D sequence. */
  function Nested(codes: seq<nat>): (ds: seq<Descriptor>)
    ensures |ds| == |codes|
  {
    seq(|codes|, k requires 0 <= k < |codes| => NewDescriptor(codes[k]))
  }

  /**
    What a value says. A number is kept exactly, as the integer raw + reference and the decimal
    scale that divides it.
   */
  datatype Datum = Missing | Number(mantissa: int, scale: int) | Text(octets: seq<byte>)

  datatype Value = Value(descriptor: Descriptor, name: string, unit: string, datum: Datum)

  datatype Error =
    | Truncated
    | InvalidBUFR
    | LimitExceeded
    | NoBUFRFound
    | LocalDescriptor(descriptor: Descriptor)
    | UnknownDescriptor(descriptor: Descriptor)
    | BadBitCount
    | UnexpectedEOF

  datatype Result<+T> = Ok(value: T) | Err(error: Error)

  const MAX_RECURSION_DEPTH := 64
  const MAX_EXPANDED_DESCRIPTORS := 100_000
  const MAX_REPLICATION_COUNT := 1_000
  const MAX_SUBSETS := 10_000
  const CHARACTER_UNIT := "CCITT IA5"
}
