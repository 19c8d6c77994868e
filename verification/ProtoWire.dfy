/** The Protocol Buffers wire format as the fast reader takes it apart: base 128 varints and
    length-delimited fields, with explicit failures. */
module ProtoWire {
  import opened Arithmetic
  import opened Bits

  type Byte = n: nat | n < 256

  const WIRE_VARINT := 0
  const WIRE_FIXED64 := 1
  const WIRE_BYTES := 2
  const WIRE_FIXED32 := 5

  /** A value and the position after it, or a malformed input. */
  datatype Read<+T> = Ok(value: T, next: nat) | Malformed

  // ---------------------------------------------------------------- varints

  /** The groups of seven bits from position i on, least significant first, when k of at most
      ten bytes are read already. */
  function Groups(data: seq<Byte>, i: nat, k: nat): (r: Read<nat>)
    requires k <= 10
    ensures r.Ok? ==> i < r.next <= |data|
    decreases 10 - k
  {
    if k == 10 || i >= |data| then Malformed
    else if data[i] < 128 then Ok(data[i], i + 1)
    else
      match Groups(data, i + 1, k + 1)
      case Malformed => Malformed
      case Ok(v, next) => Ok(data[i] - 128 + 128 * v, next)
  }

  /** A varint; bits beyond the 64th are dropped. */
  function Varint(data: seq<Byte>, i: nat): (r: Read<nat>)
    ensures r.Ok? ==> r.value < TWO64 && i < r.next <= |data|
  {
    match Groups(data, i, 0)
    case Malformed => Malformed
    case Ok(v, next) => Ok(v % TWO64, next)
  }

  lemma {:induction false} OrIsSum(a: nat, b: nat, k: nat)
    requires a < Pow2(k)
    ensures Or(a, b * Pow2(k)) == a + b * Pow2(k)
    decreases k
  {
    if k == 0 {
      OrWithZero(b);
    } else {
      var p := Pow2(k - 1);
      var c := b * p;
      assert b * Pow2(k) == 2 * c;
      OrIsSum(a / 2, b, k - 1);
      assert (2 * c) / 2 == c && (2 * c) % 2 == 0;
    }
  }

  lemma {:induction false} OrWithZero(b: nat)
    ensures Or(0, b) == b
  {
    if b > 0 {
      OrWithZero(b / 2);
    }
  }

  /** uint64(x) << shift. */
  function ShiftLeft64(x: nat, shift: nat): nat { (x * Pow2(shift)) % TWO64 }

  lemma ModOfSum(a: nat, b: nat)
    requires a + b % TWO64 < TWO64
    ensures (a + b) % TWO64 == a + b % TWO64
  {
    assert b == (b / TWO64) * TWO64 + b % TWO64;
    RemainderIs(a + b, TWO64, b / TWO64, a + b % TWO64);
  }

  /** Cutting a shifted group to p * h drops its high bits and leaves a multiple of p. */
  lemma CutMultiple(group: nat, p: nat, h: nat)
    requires p > 0 && h > 0
    ensures p * h > 0 && (group * p) % (p * h) == (group % h) * p && (group % h) * p <= p * h - p
  {
    var q, cut := group / h, group % h;
    assert group == q * h + cut;
    assert group * p == q * (p * h) + cut * p by {
      assert (q * h + cut) * p == q * h * p + cut * p;
      assert q * h * p == q * (p * h);
    }
    assert cut * p <= (h - 1) * p;
    assert (h - 1) * p == p * h - p;
    RemainderIs(group * p, p * h, q, cut * p);
  }

  /** ORing in the next group, shifted and cut to 64 bits, adds it. */
  lemma OrNextGroup(value: nat, group: nat, k: nat)
    requires 1 <= k <= 9 && value < Pow2(7 * k) && group < 128
    ensures Or(value, ShiftLeft64(group, 7 * k)) == (value + group * Pow2(7 * k)) % TWO64
    ensures value + group * Pow2(7 * k) < Pow2(7 * k + 7)
  {
    hide Pow2, Or;
    var shift := 7 * k;
    var p, h := Pow2(shift), Pow2(64 - shift);
    Pow2Adds(shift, 7);
    Pow2Of7();
    assert group * p <= 127 * p;
    Pow2Adds(shift, 64 - shift);
    Pow2Is64();
    CutMultiple(group, p, h);
    OrIsSum(value, group % h, shift);
    ModOfSum(value, group * p);
  }

  lemma Pow2Of7()
    ensures Pow2(7) == 128
  {
    assert Pow2(3) == 8;
  }

  /** v moved up by k groups of seven bits. */
  function Scaled(v: nat, k: nat): nat { v * Pow2(7 * k) }

  /** The groups read so far hold `value`; the rest of the varint follows above them. */
  ghost predicate Partial(data: seq<Byte>, i: nat, next: nat, k: nat, value: nat) {
    1 <= k <= 10 && next == i + k && value < TWO64 && (k < 10 ==> value < Pow2(7 * k))
    && Groups(data, i, 0) ==
       match Groups(data, next, k)
       case Malformed => Malformed
       case Ok(v, n) => Ok(value + Scaled(v, k), n)
  }

  /** The accumulator after one more group: exact below ten groups, else cut to 64 bits. */
  lemma NextValue(value: nat, b: Byte, k: nat)
    requires 1 <= k <= 9 && value < Pow2(7 * k)
    ensures var more := Or(value, ShiftLeft64(b % 128, 7 * k));
      more == (value + Scaled(b % 128, k)) % TWO64 && more < TWO64
      && (k < 9 ==> more == value + Scaled(b % 128, k) && more < Pow2(7 * (k + 1)))
  {
    hide Pow2, Or, ShiftLeft64;
    OrNextGroup(value, b % 128, k);
    assert 7 * (k + 1) == 7 * k + 7;
    if k < 9 {
      SmallSum(value + (b % 128) * Pow2(7 * k), k);
    }
  }

  lemma Horner(g: nat, v: nat, k: nat)
    ensures Scaled(g + 128 * v, k) == Scaled(g, k) + Scaled(v, k + 1)
  {
    hide Pow2;
    assert 7 * (k + 1) == 7 * k + 7;
    Pow2Adds(7 * k, 7);
    Pow2Of7();
    var p := Pow2(7 * k);
    assert p * (g + 128 * v) == p * g + p * 128 * v;
  }

  lemma PartialLast(data: seq<Byte>, i: nat, next: nat, k: nat, value: nat)
    requires Partial(data, i, next, k, value) && k < 10 && next < |data| && data[next] < 128
    ensures Varint(data, i) == Ok(Or(value, ShiftLeft64(data[next] % 128, 7 * k)), next + 1)
  {
    hide Pow2, Or, ShiftLeft64, Scaled;
    NextValue(value, data[next], k);
    assert Groups(data, next, k) == Ok(data[next], next + 1);
  }

  lemma PartialMore(data: seq<Byte>, i: nat, next: nat, k: nat, value: nat)
    requires Partial(data, i, next, k, value) && k < 10 && next < |data| && data[next] >= 128
    ensures Partial(data, i, next + 1, k + 1, Or(value, ShiftLeft64(data[next] % 128, 7 * k)))
  {
    hide Pow2, Or, ShiftLeft64, Scaled;
    var b := data[next];
    NextValue(value, b, k);
    assert b % 128 == b - 128;
    match Groups(data, next + 1, k + 1)
    case Malformed =>
    case Ok(v, n) =>
      assert k < 9;
      Horner(b - 128, v, k);
  }

  lemma SmallSum(sum: nat, k: nat)
    requires k < 9 && sum < Pow2(7 * k + 7)
    ensures sum % TWO64 == sum
  {
    hide Pow2;
    Pow2Is64();
    Pow2Adds(7 * k + 7, 64 - (7 * k + 7));
    var p, h := Pow2(7 * k + 7), Pow2(64 - (7 * k + 7));
    assert p * h >= p;
  }

  /** readProtoVarint and its slow loop. */
  method ReadVarint(data: seq<Byte>, i: nat) returns (r: Read<nat>)
    ensures r == Varint(data, i)
  {
    hide Pow2, Or, And, Partial;
    if i >= |data| {
      return Malformed;
    }
    if data[i] < 128 {
      return Ok(data[i], i + 1);
    }
    LowBits7(data[i]);
    var value, shift, next := And(data[i], 0x7f), 7, i + 1;
    ghost var k := 1;
    PartialStart(data, i);
    while shift < 64
      invariant 1 <= k <= 10 && shift == 7 * k && Partial(data, i, next, k, value)
      decreases 64 - shift
    {
      if next >= |data| {
        PartialEnd(data, i, next, k, value);
        return Malformed;
      }
      var b := data[next];
      if b < 128 {
        PartialLast(data, i, next, k, value);
      } else {
        PartialMore(data, i, next, k, value);
      }
      next := next + 1;
      LowBits7(b);
      value := Or(value, ShiftLeft64(And(b, 0x7f), shift));
      if b < 128 {
        return Ok(value, next);
      }
      shift, k := shift + 7, k + 1;
    }
    PartialEnd(data, i, next, k, value);
    return Malformed;
  }

  lemma PartialStart(data: seq<Byte>, i: nat)
    requires i < |data| && data[i] >= 128
    ensures Partial(data, i, i + 1, 1, data[i] - 128)
  {
    hide Pow2;
    Pow2Of7();
  }

  lemma PartialEnd(data: seq<Byte>, i: nat, next: nat, k: nat, value: nat)
    requires Partial(data, i, next, k, value) && (next >= |data| || k == 10)
    ensures Varint(data, i) == Malformed
  {
    hide Pow2;
  }

  lemma LowBits7(b: Byte)
    ensures And(b, 0x7f) == b % 128
  {
    Pow2Of7();
    MaskIsRemainder(b, 7);
  }

  // ---------------------------------------------------------------- encoding

  /** binary.AppendUvarint */
  function Uvarint(x: nat): (r: seq<Byte>)
    ensures |r| >= 1
  {
    if x < 128 then [x] else [x % 128 + 128] + Uvarint(x / 128)
  }

  lemma {:induction false} GroupsOfUvarint(before: seq<Byte>, x: nat, after: seq<Byte>, k: nat)
    requires k < 10 && x < Pow2(7 * (10 - k))
    ensures Groups(before + Uvarint(x) + after, |before|, k) == Ok(x, |before| + |Uvarint(x)|)
    decreases x
  {
    var data := before + Uvarint(x) + after;
    if x >= 128 {
      var first := x % 128 + 128;
      assert data[|before|] == first;
      Pow2Of7();
      assert k < 9;
      var rest := before + [first];
      assert data == rest + Uvarint(x / 128) + after;
      assert x / 128 < Pow2(7 * (9 - k)) by {
        Pow2Adds(7, 7 * (9 - k));
      }
      GroupsOfUvarint(rest, x / 128, after, k + 1);
    }
  }

  /** Every 64-bit length written is read back, whatever surrounds it. */
  lemma UvarintRoundTrip(before: seq<Byte>, x: nat, after: seq<Byte>)
    requires x < TWO64
    ensures Varint(before + Uvarint(x) + after, |before|) == Ok(x, |before| + |Uvarint(x)|)
  {
    hide Pow2, Groups, Uvarint;
    assert x < Pow2(70) by { Pow2Is64(); Pow2Adds(64, 6); }
    GroupsOfUvarint(before, x, after, 0);
  }

  // ---------------------------------------------------------------- fields

  function LengthDelimited(data: seq<Byte>, i: nat): (r: Read<seq<Byte>>)
    ensures r.Ok? ==> i < r.next <= |data|
  {
    match Varint(data, i)
    case Malformed => Malformed
    case Ok(length, start) =>
      if length > |data| - start then Malformed else Ok(data[start..start + length], start + length)
  }

  /** Little-endian unsigned integer. */
  function LittleEndian(data: seq<Byte>): nat {
    if data == [] then 0 else data[0] + 256 * LittleEndian(data[1..])
  }

  datatype Payload = Number(v: nat) | Double(bits: nat) | Bytes(data: seq<Byte>) | Skipped32

  datatype Field = Field(num: nat, payload: Payload)

  function Content(data: seq<Byte>, i: nat, wire: nat): (r: Read<Payload>)
    requires i <= |data|
    ensures r.Ok? ==> i <= r.next <= |data| && (wire == WIRE_BYTES ==> r.value.Bytes?)
  {
    if wire == WIRE_VARINT then
      match Varint(data, i)
      case Malformed => Malformed
      case Ok(v, next) => Ok(Number(v), next)
    else if wire == WIRE_FIXED64 then
      if |data| - i < 8 then Malformed else Ok(Double(LittleEndian(data[i..i + 8])), i + 8)
    else if wire == WIRE_BYTES then
      match LengthDelimited(data, i)
      case Malformed => Malformed
      case Ok(b, next) => Ok(Bytes(b), next)
    else if wire == WIRE_FIXED32 then
      if |data| - i < 4 then Malformed else Ok(Skipped32, i + 4)
    else Malformed
  }

  /** One field: its key and its content. */
  function NextField(data: seq<Byte>, i: nat): (r: Read<Field>)
    ensures r.Ok? ==> i < r.next <= |data|
  {
    match Varint(data, i)
    case Malformed => Malformed
    case Ok(key, start) =>
      match Content(data, start, key % 8)
      case Malformed => Malformed
      case Ok(payload, next) => Ok(Field(key / 8, payload), next)
  }

  datatype Message = Fields(fields: seq<Field>) | Broken

  /** The message structure: all fields from position i to the end. */
  function Scan(data: seq<Byte>, i: nat): Message
    requires i <= |data|
    decreases |data| - i
  {
    if i == |data| then Fields([])
    else
      match NextField(data, i)
      case Malformed => Broken
      case Ok(field, next) =>
        match Scan(data, next)
        case Broken => Broken
        case Fields(rest) => Fields([field] + rest)
  }

  method ReadBytes(data: seq<Byte>, i: nat) returns (r: Read<seq<Byte>>)
    ensures r == LengthDelimited(data, i)
  {
    var length := ReadVarint(data, i);
    if length.Malformed? || length.value > |data| - length.next {
      return Malformed;
    }
    return Ok(data[length.next..length.next + length.value], length.next + length.value);
  }

  /** skipProtoField: the position after a field's content. */
  method SkipField(data: seq<Byte>, i: nat, wire: nat) returns (r: Read<()>)
    requires i <= |data|
    ensures match Content(data, i, wire) case Malformed => r == Malformed case Ok(_, next) => r == Ok((), next)
  {
    if wire == WIRE_VARINT {
      var v := ReadVarint(data, i);
      return if v.Ok? then Ok((), v.next) else Malformed;
    } else if wire == WIRE_FIXED64 {
      return if |data| - i < 8 then Malformed else Ok((), i + 8);
    } else if wire == WIRE_BYTES {
      var b := ReadBytes(data, i);
      return if b.Ok? then Ok((), b.next) else Malformed;
    } else if wire == WIRE_FIXED32 {
      return if |data| - i < 4 then Malformed else Ok((), i + 4);
    }
    return Malformed;
  }

  // ---------------------------------------------------------------- framing

  /** One message in a payload: field 1, length-delimited. */
  function Frame(message: seq<Byte>): seq<Byte> {
    [0x0a] + Uvarint(|message|) + message
  }

  function Framed(messages: seq<seq<Byte>>): seq<Byte> {
    if messages == [] then [] else Framed(messages[..|messages| - 1]) + Frame(messages[|messages| - 1])
  }

  function Unframed(messages: seq<seq<Byte>>): seq<Field> {
    seq(|messages|, k requires 0 <= k < |messages| => Field(1, Bytes(messages[k])))
  }

  lemma FrameIsField(before: seq<Byte>, message: seq<Byte>, after: seq<Byte>)
    requires |message| < TWO64
    ensures NextField(before + Frame(message) + after, |before|) ==
            Ok(Field(1, Bytes(message)), |before| + |Frame(message)|)
  {
    hide Groups;
    var data := before + Frame(message) + after;
    var n := Uvarint(|message|);
    assert data == before + Uvarint(0x0a) + (n + message + after);
    UvarintRoundTrip(before, 0x0a, n + message + after);
    assert data == (before + [0x0a]) + n + (message + after);
    UvarintRoundTrip(before + [0x0a], |message|, message + after);
    var start := |before| + 1 + |n|;
    assert data[start..start + |message|] == message;
  }

  lemma {:induction false} ScanFrames(messages: seq<seq<Byte>>, k: nat)
    requires forall m :: m in messages ==> |m| < TWO64
    requires k <= |messages|
    ensures Framed(messages[..k]) <= Framed(messages)
    ensures Scan(Framed(messages), |Framed(messages[..k])|) == Fields(Unframed(messages[k..]))
    decreases |messages| - k
  {
    hide NextField, Frame;
    PayloadOfPrefix(messages, k);
    var data, i := Framed(messages), |Framed(messages[..k])|;
    if k == |messages| {
      assert messages[..k] == messages;
    } else {
      PayloadOfPrefix(messages, k + 1);
      ScanFrames(messages, k + 1);
      assert messages[..k + 1][..k] == messages[..k];
      var rest := data[|Framed(messages[..k + 1])|..];
      assert data == Framed(messages[..k]) + Frame(messages[k]) + rest;
      FrameIsField(Framed(messages[..k]), messages[k], rest);
      FrameIsNotEmpty(messages[k]);
      assert Unframed(messages[k..]) == [Field(1, Bytes(messages[k]))] + Unframed(messages[k + 1..]);
    }
  }

  lemma FrameIsNotEmpty(message: seq<Byte>)
    ensures |Frame(message)| > 0
  {
  }

  lemma {:induction false} PayloadOfPrefix(messages: seq<seq<Byte>>, k: nat)
    requires k <= |messages|
    ensures Framed(messages[..k]) <= Framed(messages)
    decreases |messages|
  {
    if k < |messages| {
      PayloadOfPrefix(messages[..|messages| - 1], k);
      assert messages[..|messages| - 1][..k] == messages[..k];
    } else {
      assert messages[..k] == messages;
    }
  }

  /** The receiver's outer loop splits a payload into exactly the messages framed into it, in
      order. */
  lemma PayloadRoundTrip(messages: seq<seq<Byte>>)
    requires forall m :: m in messages ==> |m| < TWO64
    ensures Scan(Framed(messages), 0) == Fields(Unframed(messages))
  {
    ScanFrames(messages, 0);
    assert messages[..0] == [] && messages[0..] == messages;
  }
}
