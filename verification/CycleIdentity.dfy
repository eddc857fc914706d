/** The bytes that are hashed into the identity of a lead cycle: every field with its length
    in four bytes before it. The fields are already encoded text. */
module CycleIdentity {
  import opened SortedSets

  newtype Byte = x: int | 0 <= x < 256

  type Field = seq<Byte>

  const TOO_LONG := 0x1_0000_0000

  /** The length as four bytes, the highest first. */
  function LengthBytes(n: nat): (r: seq<Byte>)
    requires n < TOO_LONG
    ensures |r| == 4
  {
    [(n / 256 / 256 / 256) as Byte, (n / 256 / 256 % 256) as Byte, (n / 256 % 256) as Byte, (n % 256) as Byte]
  }

  function LengthOf(b: seq<Byte>): (n: nat)
    requires |b| == 4
    ensures n < TOO_LONG
  {
    ((b[0] as int * 256 + b[1] as int) * 256 + b[2] as int) * 256 + b[3] as int
  }

  /** Nothing for a field whose length does not fit. */
  function Payload(fields: seq<Field>): Option<seq<Byte>> {
    if fields == [] then Some([])
    else if |fields[0]| >= TOO_LONG then None
    else
      match Payload(fields[1..])
      case None => None
      case Some(rest) => Some(LengthBytes(|fields[0]|) + fields[0] + rest)
  }

  /** Read the fields back, if the bytes are a payload. */
  function Fields(p: seq<Byte>): Option<seq<Field>>
    decreases |p|
  {
    if p == [] then Some([])
    else if |p| < 4 || |p| - 4 < LengthOf(p[..4]) then None
    else
      var n := LengthOf(p[..4]);
      match Fields(p[4 + n..])
      case None => None
      case Some(rest) => Some([p[4..4 + n]] + rest)
  }

  lemma LengthRoundTrip(n: nat)
    requires n < TOO_LONG
    ensures LengthOf(LengthBytes(n)) == n
  {
  }

  lemma DivideBack(q: nat, r: nat)
    requires r < 256
    ensures (q * 256 + r) / 256 == q && (q * 256 + r) % 256 == r
  {
  }

  lemma BytesRoundTrip(b: seq<Byte>)
    requires |b| == 4
    ensures LengthBytes(LengthOf(b)) == b
  {
    var high := b[0] as int;
    var middle := high * 256 + b[1] as int;
    var low := middle * 256 + b[2] as int;
    DivideBack(high, b[1] as int);
    DivideBack(middle, b[2] as int);
    DivideBack(low, b[3] as int);
    assert b == [b[0], b[1], b[2], b[3]];
  }

  /** The fields can be read back from the payload ... */
  lemma {:induction false} FieldsOfPayload(fields: seq<Field>)
    requires Payload(fields).Some?
    ensures Fields(Payload(fields).value) == Some(fields)
  {
    if fields == [] {
    } else {
      var first, rest := fields[0], Payload(fields[1..]).value;
      var p := Payload(fields).value;
      FieldsOfPayload(fields[1..]);
      LengthRoundTrip(|first|);
      assert p[..4] == LengthBytes(|first|) && p[4..4 + |first|] == first && p[4 + |first|..] == rest;
      assert fields == [first] + fields[1..];
    }
  }

  /** ... and no other bytes read as the same fields. */
  lemma {:induction false} PayloadOfFields(p: seq<Byte>)
    requires Fields(p).Some?
    ensures Payload(Fields(p).value) == Some(p)
    decreases |p|
  {
    if p == [] {
    } else {
      var length, n := p[..4], LengthOf(p[..4]);
      var first, tail := p[4..4 + n], p[4 + n..];
      var rest := Fields(tail).value;
      PayloadOfFields(tail);
      BytesRoundTrip(length);
      assert p == length + first + tail;
      PayloadOfCons(first, rest);
    }
  }

  lemma PayloadOfCons(first: Field, rest: seq<Field>)
    requires |first| < TOO_LONG && Payload(rest).Some?
    ensures Payload([first] + rest) == Some(LengthBytes(|first|) + first + Payload(rest).value)
  {
    assert ([first] + rest)[1..] == rest;
  }

  /** Cycles are told apart by their domain, code, record and entry time, all four: no two
      different identities are hashed from the same bytes, however their fields meet. */
  lemma IdentitiesDiffer(a: seq<Field>, b: seq<Field>)
    requires Payload(a).Some? && Payload(b).Some?
    ensures Payload(a) == Payload(b) <==> a == b
  {
    FieldsOfPayload(a);
    FieldsOfPayload(b);
  }
}
