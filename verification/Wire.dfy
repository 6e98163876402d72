/** The parts of the Protocol Buffers wire format that actual/proto.go relies on: base 128 varints,
    tags and length-delimited records, with the limits of the 64-bit encoding. */
module Wire {
  import opened Sums

  type byte = x: int | 0 <= x < 256

  const VARINT_LIMIT: int := 0x1_0000_0000_0000_0000
  const MAX_FIELD_NUMBER: int := 0x7fff_ffff
  const MAX_LENGTH: int := 0x8000_0000_0000_0000
  const RECURSION_LIMIT: int := 10000

  const VARINT := 0
  const FIXED64 := 1
  const BYTES := 2
  const START_GROUP := 3
  const END_GROUP := 4
  const FIXED32 := 5

  // ----- Varints -----

  function AppendVarint(v: nat): (s: seq<byte>)
    ensures |s| >= 1
  {
    if v < 128 then [v] else [v % 128 + 128] + AppendVarint(v / 128)
  }

  /** How much the k-th byte of a varint and those after it can carry within 64 bits. */
  function Capacity(k: nat): nat
    requires k <= 9
    decreases 9 - k
  {
    if k == 9 then 2 else 128 * Capacity(k + 1)
  }

  /** Reads a varint from its k-th byte on: the value and what follows it, or nothing if the bytes
      run out or the value leaves 64 bits. */
  function VarintFrom(b: seq<byte>, k: nat): (r: Option<(nat, seq<byte>)>)
    requires k <= 9
    ensures r.Some? ==> |r.value.1| < |b|
    decreases 9 - k
  {
    if b == [] then None
    else if k == 9 && b[0] > 1 then None
    else if b[0] < 128 then Some((b[0], b[1..]))
    else
      match VarintFrom(b[1..], k + 1)
      case None => None
      case Some((high, rest)) => Some((b[0] - 128 + 128 * high, rest))
  }

  function ConsumeVarint(b: seq<byte>): (r: Option<(nat, seq<byte>)>)
    ensures r.Some? ==> |r.value.1| < |b|
  {
    VarintFrom(b, 0)
  }

  lemma {:induction false} VarintReadsBack(v: nat, rest: seq<byte>, k: nat)
    requires k <= 9 && v < Capacity(k)
    ensures VarintFrom(AppendVarint(v) + rest, k) == Some((v, rest))
    decreases 9 - k
  {
    var b := AppendVarint(v) + rest;
    if v < 128 {
      assert b[1..] == rest;
    } else {
      assert b[1..] == AppendVarint(v / 128) + rest;
      VarintReadsBack(v / 128, rest, k + 1);
    }
  }

  lemma {:induction false} VarintBounded(b: seq<byte>, k: nat)
    requires k <= 9
    ensures VarintFrom(b, k).Some? ==> VarintFrom(b, k).value.0 < Capacity(k)
    decreases 9 - k
  {
    CapacityHolds(k);
    if b != [] && k < 9 {
      VarintBounded(b[1..], k + 1);
    }
  }

  lemma {:induction false} CapacityHolds(k: nat)
    requires k <= 9
    ensures k < 9 ==> Capacity(k) >= 256
    decreases 9 - k
  {
    if k < 9 {
      CapacityHolds(k + 1);
    }
  }

  lemma FullCapacity()
    ensures Capacity(0) == VARINT_LIMIT
  {
    assert Capacity(7) == 32768;
    assert Capacity(5) == 32768 * 16384;
    assert Capacity(3) == 32768 * 16384 * 16384;
    assert Capacity(1) == 32768 * 16384 * 16384 * 16384;
  }

  lemma VarintWithin64(b: seq<byte>)
    ensures ConsumeVarint(b).Some? ==> ConsumeVarint(b).value.0 < VARINT_LIMIT
  {
    FullCapacity();
    VarintBounded(b, 0);
  }

  /** Every 64-bit value is read back, whatever follows it. */
  lemma VarintRoundTrip(v: nat, rest: seq<byte>)
    requires v < VARINT_LIMIT
    ensures ConsumeVarint(AppendVarint(v) + rest) == Some((v, rest))
  {
    FullCapacity();
    VarintReadsBack(v, rest, 0);
  }

  /** What the low seven bits of the bytes add up to, the first byte's being the lowest. */
  function Digits(b: seq<byte>): nat { if b == [] then 0 else b[0] % 128 + 128 * Digits(b[1..]) }

  /** A varint carries its value seven bits a byte, the lowest first, with the top bit set on every byte
      but the last, and no byte more than it takes. */
  lemma {:induction false} VarintDigits(v: nat)
    ensures var b := AppendVarint(v);
            && Digits(b) == v && b[|b| - 1] < 128 && (forall i :: 0 <= i < |b| - 1 ==> b[i] >= 128)
            && (|b| > 1 ==> b[|b| - 1] != 0)
    decreases v
  {
    var b := AppendVarint(v);
    if v < 128 {
      assert b[1..] == [];
    } else {
      VarintDigits(v / 128);
      assert b[1..] == AppendVarint(v / 128);
      assert forall i :: 0 < i < |b| ==> b[i] == AppendVarint(v / 128)[i - 1];
    }
  }

  // ----- Fields -----

  /** One field as it is carried: its number with a varint, a fixed word or a length-delimited record. */
  datatype Field =
    | VarintField(number: nat, value: nat)
    | Fixed64Field(number: nat, word: seq<byte>)
    | BytesField(number: nat, data: seq<byte>)
    | Fixed32Field(number: nat, word: seq<byte>)

  function AppendTag(number: nat, wireType: nat): seq<byte> { AppendVarint(8 * number + wireType) }

  function AppendBytes(data: seq<byte>): seq<byte> { AppendVarint(|data|) + data }

  /** A field number and a wire type; numbers outside the encoding's range are refused. */
  function ConsumeTag(b: seq<byte>): (r: Option<(nat, nat, seq<byte>)>)
    ensures r.Some? ==> |r.value.2| < |b| && r.value.0 >= 1
  {
    match ConsumeVarint(b)
    case None => None
    case Some((v, rest)) =>
      if 1 <= v / 8 <= MAX_FIELD_NUMBER then Some((v / 8, v % 8, rest)) else None
  }

  function ConsumeBytes(b: seq<byte>): (r: Option<(seq<byte>, seq<byte>)>)
    ensures r.Some? ==> |r.value.1| < |b|
  {
    match ConsumeVarint(b)
    case None => None
    case Some((n, rest)) => if n > |rest| then None else Some((rest[..n], rest[n..]))
  }

  function ConsumeFixed(b: seq<byte>, width: nat): (r: Option<(seq<byte>, seq<byte>)>)
    ensures r.Some? ==> |r.value.1| == |b| - width
  {
    if |b| < width then None else Some((b[..width], b[width..]))
  }

  /** What is left after the value of a field of the given number and wire type. A group is walked
      field by field up to its end tag, which has to carry the number the group was opened with. */
  function SkipValue(number: int, wireType: nat, b: seq<byte>, depth: int): (r: Option<seq<byte>>)
    ensures r.Some? ==> |r.value| <= |b|
    decreases |b|, 1
  {
    match wireType
    case 0 => (match ConsumeVarint(b) case None => None case Some((_, rest)) => Some(rest))
    case 1 => (match ConsumeFixed(b, 8) case None => None case Some((_, rest)) => Some(rest))
    case 2 => (match ConsumeBytes(b) case None => None case Some((_, rest)) => Some(rest))
    case 5 => (match ConsumeFixed(b, 4) case None => None case Some((_, rest)) => Some(rest))
    case 3 => if depth < 0 then None else SkipGroup(number, b, depth)
    case _ => None
  }

  function SkipGroup(number: int, b: seq<byte>, depth: int): (r: Option<seq<byte>>)
    ensures r.Some? ==> |r.value| <= |b|
    decreases |b|, 0
  {
    match ConsumeTag(b)
    case None => None
    case Some((inner, wireType, rest)) =>
      if wireType == END_GROUP then if number != inner then None else Some(rest)
      else
        match SkipValue(inner, wireType, rest, depth - 1)
        case None => None
        case Some(after) => SkipGroup(number, after, depth)
  }

  /** How unknown fields are skipped: the field's own number is not passed on. */
  function SkipField(b: seq<byte>, wireType: nat): (r: Option<seq<byte>>)
    ensures r.Some? ==> |r.value| <= |b|
  {
    SkipValue(0, wireType, b, RECURSION_LIMIT)
  }

  /** Since no end tag carries the number 0, a group is never skipped: its presence fails the decode. */
  lemma {:induction false} GroupsNeverSkipped(b: seq<byte>, depth: int)
    ensures SkipGroup(0, b, depth) == None
    decreases |b|
  {
    match ConsumeTag(b)
    case None =>
    case Some((inner, wireType, rest)) =>
      if wireType != END_GROUP {
        match SkipValue(inner, wireType, rest, depth - 1)
        case None =>
        case Some(after) => GroupsNeverSkipped(after, depth);
      }
  }

  /** A group that a decoder passing the field's number on would skip, and this one does not. */
  lemma EmptyGroup(number: nat, rest: seq<byte>)
    requires 1 <= number <= MAX_FIELD_NUMBER
    ensures SkipValue(number, START_GROUP, AppendTag(number, END_GROUP) + rest, RECURSION_LIMIT) == Some(rest)
    ensures SkipField(AppendTag(number, END_GROUP) + rest, START_GROUP) == None
  {
    TagRoundTrip(number, END_GROUP, rest);
    GroupsNeverSkipped(AppendTag(number, END_GROUP) + rest, RECURSION_LIMIT);
  }

  lemma TagRoundTrip(number: nat, wireType: nat, rest: seq<byte>)
    requires 1 <= number <= MAX_FIELD_NUMBER && wireType < 8
    ensures ConsumeTag(AppendTag(number, wireType) + rest) == Some((number, wireType, rest))
  {
    VarintRoundTrip(8 * number + wireType, rest);
  }

  lemma BytesRoundTrip(data: seq<byte>, rest: seq<byte>)
    requires |data| < MAX_LENGTH
    ensures ConsumeBytes(AppendBytes(data) + rest) == Some((data, rest))
  {
    assert AppendBytes(data) + rest == AppendVarint(|data|) + (data + rest);
    VarintRoundTrip(|data|, data + rest);
    assert (data + rest)[..|data|] == data && (data + rest)[|data|..] == rest;
  }

  // ----- A record as the fields it carries -----

  predicate WellFormed(f: Field) {
    && 1 <= f.number <= MAX_FIELD_NUMBER
    && match f
       case VarintField(_, v) => v < VARINT_LIMIT
       case Fixed64Field(_, word) => |word| == 8
       case BytesField(_, data) => |data| < MAX_LENGTH
       case Fixed32Field(_, word) => |word| == 4
  }

  function EncodeField(f: Field): seq<byte> {
    match f
    case VarintField(n, v) => AppendTag(n, VARINT) + AppendVarint(v)
    case Fixed64Field(n, word) => AppendTag(n, FIXED64) + word
    case BytesField(n, data) => AppendTag(n, BYTES) + AppendBytes(data)
    case Fixed32Field(n, word) => AppendTag(n, FIXED32) + word
  }

  function Encode(fs: seq<Field>): seq<byte> {
    if fs == [] then [] else Encode(fs[..|fs| - 1]) + EncodeField(fs[|fs| - 1])
  }

  /** The first field of b and what follows it. */
  function ConsumeField(b: seq<byte>): (r: Option<(Field, seq<byte>)>)
    ensures r.Some? ==> |r.value.1| < |b|
  {
    match ConsumeTag(b)
    case None => None
    case Some((n, wireType, rest)) =>
      if wireType == VARINT then
        match ConsumeVarint(rest) case None => None case Some((v, after)) => Some((VarintField(n, v), after))
      else if wireType == FIXED64 then
        match ConsumeFixed(rest, 8) case None => None case Some((w, after)) => Some((Fixed64Field(n, w), after))
      else if wireType == BYTES then
        match ConsumeBytes(rest) case None => None case Some((d, after)) => Some((BytesField(n, d), after))
      else if wireType == FIXED32 then
        match ConsumeFixed(rest, 4) case None => None case Some((w, after)) => Some((Fixed32Field(n, w), after))
      else None
  }

  /** Every field of b in order, or nothing if b is not a sequence of fields. */
  function Parse(b: seq<byte>): Option<seq<Field>>
    decreases |b|
  {
    if b == [] then Some([])
    else
      match ConsumeField(b)
      case None => None
      case Some((f, rest)) =>
        match Parse(rest)
        case None => None
        case Some(fs) => Some([f] + fs)
  }

  lemma FieldRoundTrip(f: Field, rest: seq<byte>)
    requires WellFormed(f)
    ensures ConsumeField(EncodeField(f) + rest) == Some((f, rest))
    ensures EncodeField(f) != []
  {
    hide ConsumeTag, ConsumeVarint, ConsumeBytes, AppendVarint, AppendTag, AppendBytes;
    match f
    case VarintField(n, v) =>
      TagRoundTrip(n, VARINT, AppendVarint(v) + rest);
      VarintRoundTrip(v, rest);
      assert EncodeField(f) + rest == AppendTag(n, VARINT) + (AppendVarint(v) + rest);
    case Fixed64Field(n, word) =>
      TagRoundTrip(n, FIXED64, word + rest);
      assert EncodeField(f) + rest == AppendTag(n, FIXED64) + (word + rest);
      assert (word + rest)[..8] == word && (word + rest)[8..] == rest;
    case BytesField(n, data) =>
      TagRoundTrip(n, BYTES, AppendBytes(data) + rest);
      BytesRoundTrip(data, rest);
      assert EncodeField(f) + rest == AppendTag(n, BYTES) + (AppendBytes(data) + rest);
    case Fixed32Field(n, word) =>
      TagRoundTrip(n, FIXED32, word + rest);
      assert EncodeField(f) + rest == AppendTag(n, FIXED32) + (word + rest);
      assert (word + rest)[..4] == word && (word + rest)[4..] == rest;
  }

  lemma ParseNext(f: Field, more: seq<byte>, after: seq<Field>)
    requires WellFormed(f) && Parse(more) == Some(after)
    ensures Parse(EncodeField(f) + more) == Some([f] + after)
  {
    hide EncodeField, ConsumeField, WellFormed;
    FieldRoundTrip(f, more);
    assert EncodeField(f) + more != [];
  }

  /** Fields written one after the other are read back as written. */
  lemma {:induction false} ParseEncoded(fs: seq<Field>, more: seq<byte>, after: seq<Field>)
    requires forall f :: f in fs ==> WellFormed(f)
    requires Parse(more) == Some(after)
    ensures Parse(Encode(fs) + more) == Some(fs + after)
    decreases |fs|
  {
    hide EncodeField, Parse, WellFormed;
    if fs == [] {
      assert Encode(fs) + more == more && fs + after == after;
    } else {
      var init, f := fs[..|fs| - 1], fs[|fs| - 1];
      ParseNext(f, more, after);
      ParseEncoded(init, EncodeField(f) + more, [f] + after);
      assert Encode(fs) + more == Encode(init) + (EncodeField(f) + more);
      assert init + ([f] + after) == fs + after;
    }
  }

  lemma ParseWritten(fs: seq<Field>)
    requires forall f :: f in fs ==> WellFormed(f)
    ensures Parse(Encode(fs)) == Some(fs)
  {
    ParseEncoded(fs, [], []);
    assert Encode(fs) + [] == Encode(fs) && fs + [] == fs;
  }

  /** Skipping takes a field exactly where reading it would, and fails exactly where reading it fails. */
  lemma SkipAgrees(b: seq<byte>)
    requires ConsumeTag(b).Some?
    ensures var (number, wireType, rest) := ConsumeTag(b).value;
            && (SkipField(rest, wireType).None? <==> ConsumeField(b).None?)
            && (ConsumeField(b).Some? ==>
                  && ConsumeField(b).value.1 == SkipField(rest, wireType).value
                  && ConsumeField(b).value.0.number == number
                  && WireTypeOf(ConsumeField(b).value.0) == wireType)
  {
    hide ConsumeTag, ConsumeVarint, ConsumeBytes, ConsumeFixed;
    var (number, wireType, rest) := ConsumeTag(b).value;
    if wireType == START_GROUP {
      GroupsNeverSkipped(rest, RECURSION_LIMIT);
    }
  }

  function WireTypeOf(f: Field): nat {
    match f
    case VarintField(_, _) => VARINT
    case Fixed64Field(_, _) => FIXED64
    case BytesField(_, _) => BYTES
    case Fixed32Field(_, _) => FIXED32
  }

  // ----- Decoding as a fold over fields -----

  /** What a decoder makes of the fields it is given, one after the other. */
  function Fold<M>(step: (M, Field) -> Option<M>, m: M, fs: seq<Field>): Option<M> {
    if fs == [] then Some(m)
    else
      match step(m, fs[0])
      case None => None
      case Some(m') => Fold(step, m', fs[1..])
  }

  /** What a decoder makes of a record: nothing if it is not a sequence of fields. */
  function Decode<M>(step: (M, Field) -> Option<M>, m: M, b: seq<byte>): Option<M> {
    match Parse(b)
    case None => None
    case Some(fs) => Fold(step, m, fs)
  }

  /** One turn of a decoder's loop. */
  lemma DecodeStep<M>(step: (M, Field) -> Option<M>, m: M, b: seq<byte>)
    requires b != []
    ensures ConsumeField(b).None? ==> Decode(step, m, b) == None
    ensures ConsumeField(b).Some? ==>
              var (f, rest) := ConsumeField(b).value;
              && (step(m, f).Some? ==> Decode(step, m, b) == Decode(step, step(m, f).value, rest))
              && (step(m, f).None? ==> Decode(step, m, b) == None)
  {
    if ConsumeField(b).Some? {
      var (f, rest) := ConsumeField(b).value;
      if Parse(rest).Some? {
        assert ([f] + Parse(rest).value)[1..] == Parse(rest).value;
      }
    }
  }

  function Filter(known: Field -> bool, fs: seq<Field>): seq<Field> {
    if fs == [] then [] else (if known(fs[0]) then [fs[0]] else []) + Filter(known, fs[1..])
  }

  /** Fields a decoder does not know change nothing, wherever they stand. */
  lemma {:induction false} UnknownIgnored<M(!new)>(step: (M, Field) -> Option<M>, known: Field -> bool, m: M, fs: seq<Field>)
    requires forall m: M, f :: !known(f) ==> step(m, f) == Some(m)
    ensures Fold(step, m, fs) == Fold(step, m, Filter(known, fs))
    decreases |fs|
  {
    if fs != [] {
      var rest := Filter(known, fs[1..]);
      assert ([fs[0]] + rest)[1..] == rest && [] + rest == rest;
      if step(m, fs[0]).Some? {
        UnknownIgnored(step, known, step(m, fs[0]).value, fs[1..]);
      }
    }
  }

  lemma {:induction false} KnownKept(known: Field -> bool, fs: seq<Field>)
    requires forall f :: f in fs ==> known(f)
    ensures Filter(known, fs) == fs
    decreases |fs|
  {
    if fs != [] {
      KnownKept(known, fs[1..]);
      assert fs == [fs[0]] + fs[1..];
    }
  }
}
