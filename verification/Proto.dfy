/** actual/proto.go: the records of the sync protocol, written and read field by field. */
module Protocol {
  import opened Sums
  import opened Wire

  type Text = seq<byte>

  datatype ProtoMessage = ProtoMessage(dataset: Text, row: Text, column: Text, value: Text)

  datatype Envelope = Envelope(timestamp: Text, isEncrypted: bool, content: Text)

  datatype SyncRequest = SyncRequest(messages: seq<Envelope>, fileID: Text, groupID: Text, keyID: Text, since: Text)

  datatype SyncResponse = SyncResponse(messages: seq<Envelope>, merkle: Text)

  // ----- What is written -----

  function MessageFields(m: ProtoMessage): seq<Field> {
    [BytesField(1, m.dataset), BytesField(2, m.row), BytesField(3, m.column), BytesField(4, m.value)]
  }

  function EnvelopeFields(e: Envelope): seq<Field> {
    [BytesField(1, e.timestamp), VarintField(2, if e.isEncrypted then 1 else 0), BytesField(3, e.content)]
  }

  function Records(es: seq<Envelope>): (r: seq<Field>)
    ensures |r| == |es| && forall i :: 0 <= i < |es| ==> r[i] == BytesField(1, Encode(EnvelopeFields(es[i])))
  {
    seq(|es|, (i: nat) requires i < |es| => BytesField(1, Encode(EnvelopeFields(es[i]))))
  }

  function RequestFields(r: SyncRequest): seq<Field> {
    Records(r.messages)
    + [BytesField(2, r.fileID), BytesField(3, r.groupID)]
    + (if r.keyID != [] then [BytesField(5, r.keyID)] else [])
    + [BytesField(6, r.since)]
  }

  lemma EncodeSnoc(fs: seq<Field>, f: Field)
    ensures Encode(fs + [f]) == Encode(fs) + EncodeField(f)
  {
    assert (fs + [f])[..|fs|] == fs;
  }

  method AppendBytesField(b: seq<byte>, number: nat, data: Text, ghost fs: seq<Field>) returns (r: seq<byte>)
    requires b == Encode(fs)
    ensures r == Encode(fs + [BytesField(number, data)])
  {
    hide Encode, AppendTag, AppendBytes;
    EncodeSnoc(fs, BytesField(number, data));
    r := b + AppendTag(number, BYTES);
    r := r + AppendBytes(data);
    assert r == b + (AppendTag(number, BYTES) + AppendBytes(data));
  }

  method AppendVarintField(b: seq<byte>, number: nat, v: nat, ghost fs: seq<Field>) returns (r: seq<byte>)
    requires b == Encode(fs)
    ensures r == Encode(fs + [VarintField(number, v)])
  {
    hide Encode, AppendTag, AppendVarint;
    EncodeSnoc(fs, VarintField(number, v));
    r := b + AppendTag(number, VARINT);
    r := r + AppendVarint(v);
    assert r == b + (AppendTag(number, VARINT) + AppendVarint(v));
  }

  method EncodeMessage(m: ProtoMessage) returns (b: seq<byte>)
    ensures b == Encode(MessageFields(m))
  {
    hide Encode;
    EncodeNothing();
    b := AppendBytesField([], 1, m.dataset, []);
    b := AppendBytesField(b, 2, m.row, [] + [BytesField(1, m.dataset)]);
    b := AppendBytesField(b, 3, m.column, [] + [BytesField(1, m.dataset)] + [BytesField(2, m.row)]);
    b := AppendBytesField(b, 4, m.value, [] + [BytesField(1, m.dataset)] + [BytesField(2, m.row)] + [BytesField(3, m.column)]);
    assert [] + [BytesField(1, m.dataset)] + [BytesField(2, m.row)] + [BytesField(3, m.column)] + [BytesField(4, m.value)]
        == MessageFields(m);
  }

  lemma EncodeNothing()
    ensures Encode([]) == []
  {
  }

  /** A short record is its tag, its length and what it holds. */
  lemma ShortBytes(n: nat, data: Text)
    requires n < 16 && |data| < 128
    ensures EncodeField(BytesField(n, data)) == [8 * n + 2, |data|] + data
  {
  }

  /** The bytes of a message, its fields 1 to 4 in order, where each length takes one byte. */
  lemma MessageBytes(m: ProtoMessage)
    requires |m.dataset| < 128 && |m.row| < 128 && |m.column| < 128 && |m.value| < 128
    ensures Encode(MessageFields(m)) ==
            [0x0a, |m.dataset|] + m.dataset + [0x12, |m.row|] + m.row + [0x1a, |m.column|] + m.column + [0x22, |m.value|] + m.value
  {
    hide Encode, EncodeField;
    ShortBytes(1, m.dataset);
    ShortBytes(2, m.row);
    ShortBytes(3, m.column);
    ShortBytes(4, m.value);
    var a, b, c, d := BytesField(1, m.dataset), BytesField(2, m.row), BytesField(3, m.column), BytesField(4, m.value);
    EncodeNothing();
    EncodeSnoc([], a);
    EncodeSnoc([a], b);
    EncodeSnoc([a, b], c);
    EncodeSnoc([a, b, c], d);
    assert [] + [a] == [a] && [a] + [b] == [a, b] && [a, b] + [c] == [a, b, c] && [a, b, c] + [d] == MessageFields(m);
  }

  /** The bytes of an envelope, its fields 1 to 3 in order, where each length takes one byte. */
  lemma EnvelopeBytes(e: Envelope)
    requires |e.timestamp| < 128 && |e.content| < 128
    ensures Encode(EnvelopeFields(e)) ==
            [0x0a, |e.timestamp|] + e.timestamp + [0x10, if e.isEncrypted then 1 else 0] + [0x1a, |e.content|] + e.content
  {
    hide Encode;
    ShortBytes(1, e.timestamp);
    ShortBytes(3, e.content);
    var a, b, c := BytesField(1, e.timestamp), VarintField(2, if e.isEncrypted then 1 else 0), BytesField(3, e.content);
    EncodeNothing();
    EncodeSnoc([], a);
    EncodeSnoc([a], b);
    EncodeSnoc([a, b], c);
    assert [] + [a] == [a] && [a] + [b] == [a, b] && [a, b] + [c] == EnvelopeFields(e);
  }

  method EncodeEnvelope(e: Envelope) returns (b: seq<byte>)
    ensures b == Encode(EnvelopeFields(e))
  {
    hide Encode;
    EncodeNothing();
    var flag := if e.isEncrypted then 1 else 0;
    b := AppendBytesField([], 1, e.timestamp, []);
    b := AppendVarintField(b, 2, flag, [] + [BytesField(1, e.timestamp)]);
    b := AppendBytesField(b, 3, e.content, [] + [BytesField(1, e.timestamp)] + [VarintField(2, flag)]);
    assert [] + [BytesField(1, e.timestamp)] + [VarintField(2, flag)] + [BytesField(3, e.content)] == EnvelopeFields(e);
  }

  method EncodeRequest(r: SyncRequest) returns (b: seq<byte>)
    ensures b == Encode(RequestFields(r))
  {
    hide Encode;
    EncodeNothing();
    b := [];
    var i := 0;
    while i < |r.messages|
      invariant 0 <= i <= |r.messages| && b == Encode(Records(r.messages)[..i])
    {
      var data := EncodeEnvelope(r.messages[i]);
      assert Records(r.messages)[..i + 1] == Records(r.messages)[..i] + [BytesField(1, data)];
      b := AppendBytesField(b, 1, data, Records(r.messages)[..i]);
      i := i + 1;
    }
    ghost var fs := Records(r.messages);
    assert fs[..i] == fs;
    b := AppendBytesField(b, 2, r.fileID, fs);
    fs := fs + [BytesField(2, r.fileID)];
    b := AppendBytesField(b, 3, r.groupID, fs);
    fs := fs + [BytesField(3, r.groupID)];
    assert fs == Records(r.messages) + [BytesField(2, r.fileID), BytesField(3, r.groupID)];
    if r.keyID != [] {
      b := AppendBytesField(b, 5, r.keyID, fs);
      fs := fs + [BytesField(5, r.keyID)];
    }
    b := AppendBytesField(b, 6, r.since, fs);
    assert fs + [BytesField(6, r.since)] == RequestFields(r);
  }

  // ----- What is read -----

  function MessageStep(m: ProtoMessage, f: Field): Option<ProtoMessage> {
    if !f.BytesField? then Some(m)
    else if f.number == 1 then Some(m.(dataset := f.data))
    else if f.number == 2 then Some(m.(row := f.data))
    else if f.number == 3 then Some(m.(column := f.data))
    else if f.number == 4 then Some(m.(value := f.data))
    else Some(m)
  }

  function EnvelopeStep(e: Envelope, f: Field): Option<Envelope> {
    if f.BytesField? && f.number == 1 then Some(e.(timestamp := f.data))
    else if f.VarintField? && f.number == 2 then Some(e.(isEncrypted := f.value != 0))
    else if f.BytesField? && f.number == 3 then Some(e.(content := f.data))
    else Some(e)
  }

  function ResponseStep(r: SyncResponse, f: Field): Option<SyncResponse> {
    if f.BytesField? && f.number == 1 then
      match EnvelopeOf(f.data)
      case None => None
      case Some(e) => Some(r.(messages := r.messages + [e]))
    else if f.BytesField? && f.number == 2 then Some(r.(merkle := f.data))
    else Some(r)
  }

  function MessageOf(raw: seq<byte>): Option<ProtoMessage> { Decode(MessageStep, ProtoMessage([], [], [], []), raw) }

  function EnvelopeOf(raw: seq<byte>): Option<Envelope> { Decode(EnvelopeStep, Envelope([], false, []), raw) }

  function ResponseOf(raw: seq<byte>): Option<SyncResponse> { Decode(ResponseStep, SyncResponse([], []), raw) }

  method DecodeMessage(raw: seq<byte>) returns (r: Option<ProtoMessage>)
    ensures r == MessageOf(raw)
  {
    var m, b := ProtoMessage([], [], [], []), raw;
    while b != []
      invariant Decode(MessageStep, m, b) == MessageOf(raw)
      decreases |b|
    {
      hide Decode, ConsumeTag, ConsumeBytes, SkipField, MessageOf;
      DecodeStep(MessageStep, m, b);
      var tag := ConsumeTag(b);
      if tag.None? {
        return None;
      }
      SkipAgrees(b);
      var (number, wireType, rest) := tag.value;
      b := rest;
      if 1 <= number <= 4 && wireType == BYTES {
        var field := ConsumeBytes(b);
        if field.None? {
          return None;
        }
        var (data, after) := field.value;
        match number {
          case 1 => m := m.(dataset := data);
          case 2 => m := m.(row := data);
          case 3 => m := m.(column := data);
          case _ => m := m.(value := data);
        }
        b := after;
      } else {
        var after := SkipField(b, wireType);
        if after.None? {
          return None;
        }
        b := after.value;
      }
    }
    r := Some(m);
  }

  method DecodeEnvelope(raw: seq<byte>) returns (r: Option<Envelope>)
    ensures r == EnvelopeOf(raw)
  {
    var e, b := Envelope([], false, []), raw;
    while b != []
      invariant Decode(EnvelopeStep, e, b) == EnvelopeOf(raw)
      decreases |b|
    {
      hide Decode, ConsumeTag, ConsumeBytes, ConsumeVarint, SkipField, EnvelopeOf;
      DecodeStep(EnvelopeStep, e, b);
      var tag := ConsumeTag(b);
      if tag.None? {
        return None;
      }
      SkipAgrees(b);
      var (number, wireType, rest) := tag.value;
      b := rest;
      if number == 1 && wireType == BYTES {
        var field := ConsumeBytes(b);
        if field.None? {
          return None;
        }
        e, b := e.(timestamp := field.value.0), field.value.1;
      } else if number == 2 && wireType == VARINT {
        var field := ConsumeVarint(b);
        if field.None? {
          return None;
        }
        e, b := e.(isEncrypted := field.value.0 != 0), field.value.1;
      } else if number == 3 && wireType == BYTES {
        var field := ConsumeBytes(b);
        if field.None? {
          return None;
        }
        e, b := e.(content := field.value.0), field.value.1;
      } else {
        var after := SkipField(b, wireType);
        if after.None? {
          return None;
        }
        b := after.value;
      }
    }
    r := Some(e);
  }

  method DecodeSyncResponse(raw: seq<byte>) returns (r: Option<SyncResponse>)
    ensures r == ResponseOf(raw)
  {
    var out, b := SyncResponse([], []), raw;
    while b != []
      invariant Decode(ResponseStep, out, b) == ResponseOf(raw)
      decreases |b|
    {
      hide Decode, ConsumeTag, ConsumeBytes, SkipField, EnvelopeOf, ResponseOf;
      DecodeStep(ResponseStep, out, b);
      var tag := ConsumeTag(b);
      if tag.None? {
        return None;
      }
      SkipAgrees(b);
      var (number, wireType, rest) := tag.value;
      b := rest;
      if number == 1 && wireType == BYTES {
        var field := ConsumeBytes(b);
        if field.None? {
          return None;
        }
        b := field.value.1;
        var e := DecodeEnvelope(field.value.0);
        if e.None? {
          return None;
        }
        out := out.(messages := out.messages + [e.value]);
      } else if number == 2 && wireType == BYTES {
        var field := ConsumeBytes(b);
        if field.None? {
          return None;
        }
        out, b := out.(merkle := field.value.0), field.value.1;
      } else {
        var after := SkipField(b, wireType);
        if after.None? {
          return None;
        }
        b := after.value;
      }
    }
    r := Some(out);
  }

  /** The messages of a response; an encrypted or unreadable one fails all of them. */
  method GetMessages(es: seq<Envelope>) returns (r: Option<seq<ProtoMessage>>)
    ensures r.Some? <==> forall e :: e in es ==> !e.isEncrypted && MessageOf(e.content).Some?
    ensures r.Some? ==> |r.value| == |es|
                        && forall i :: 0 <= i < |es| ==> MessageOf(es[i].content) == Some(r.value[i])
  {
    var msgs: seq<ProtoMessage> := [];
    var i := 0;
    while i < |es|
      invariant 0 <= i <= |es| && |msgs| == i
      invariant forall k :: 0 <= k < i ==> !es[k].isEncrypted && MessageOf(es[k].content) == Some(msgs[k])
    {
      hide MessageOf;
      if es[i].isEncrypted {
        return None;
      }
      var m := DecodeMessage(es[i].content);
      if m.None? {
        return None;
      }
      msgs := msgs + [m.value];
      i := i + 1;
    }
    r := Some(msgs);
  }

  // ----- Round trips -----

  predicate Sized(t: Text) { |t| < MAX_LENGTH }

  predicate MessageFits(m: ProtoMessage) { Sized(m.dataset) && Sized(m.row) && Sized(m.column) && Sized(m.value) }

  predicate EnvelopeFits(e: Envelope) { Sized(e.timestamp) && Sized(e.content) }

  function MessageKnown(f: Field): bool { f.BytesField? && 1 <= f.number <= 4 }

  function EnvelopeKnown(f: Field): bool {
    (f.BytesField? && (f.number == 1 || f.number == 3)) || (f.VarintField? && f.number == 2)
  }

  function ResponseKnown(f: Field): bool { f.BytesField? && 1 <= f.number <= 2 }

  /** A message is read back from its fields whatever unknown fields stand between them. */
  lemma MessageRoundTrip(m: ProtoMessage, fs: seq<Field>)
    requires forall f :: f in fs ==> WellFormed(f)
    requires Filter(MessageKnown, fs) == MessageFields(m)
    ensures MessageOf(Encode(fs)) == Some(m)
  {
    hide Encode, Parse, WellFormed, Filter;
    ParseWritten(fs);
    var m0, w := ProtoMessage([], [], [], []), MessageFields(m);
    UnknownIgnored(MessageStep, MessageKnown, m0, fs);
    var m1 := m0.(dataset := m.dataset);
    assert w[1..] == [w[1], w[2], w[3]] && w[1..][1..] == [w[2], w[3]] && w[1..][1..][1..] == [w[3]];
    assert Fold(MessageStep, m1.(row := m.row, column := m.column), [w[3]]) == Some(m) by {
      assert [w[3]][1..] == [];
    }
    assert Fold(MessageStep, m1, w[1..]) == Fold(MessageStep, m1.(row := m.row), [w[2], w[3]]);
  }

  /** The same for an envelope. */
  lemma EnvelopeRoundTrip(e: Envelope, fs: seq<Field>)
    requires forall f :: f in fs ==> WellFormed(f)
    requires Filter(EnvelopeKnown, fs) == EnvelopeFields(e)
    ensures EnvelopeOf(Encode(fs)) == Some(e)
  {
    hide Encode, Parse, WellFormed, Filter;
    ParseWritten(fs);
    var e0, w := Envelope([], false, []), EnvelopeFields(e);
    UnknownIgnored(EnvelopeStep, EnvelopeKnown, e0, fs);
    var e1 := e0.(timestamp := e.timestamp);
    assert w[1..] == [w[1], w[2]] && w[1..][1..] == [w[2]];
    assert Fold(EnvelopeStep, e1.(isEncrypted := e.isEncrypted), [w[2]]) == Some(e) by {
      assert [w[2]][1..] == [];
    }
    assert Fold(EnvelopeStep, e1, w[1..]) == Fold(EnvelopeStep, e1.(isEncrypted := e.isEncrypted), [w[2]]);
  }

  lemma MessageWritten(m: ProtoMessage)
    requires MessageFits(m)
    ensures MessageOf(Encode(MessageFields(m))) == Some(m)
  {
    KnownKept(MessageKnown, MessageFields(m));
    MessageRoundTrip(m, MessageFields(m));
  }

  lemma EnvelopeWritten(e: Envelope)
    requires EnvelopeFits(e)
    ensures EnvelopeOf(Encode(EnvelopeFields(e))) == Some(e)
  {
    KnownKept(EnvelopeKnown, EnvelopeFields(e));
    EnvelopeRoundTrip(e, EnvelopeFields(e));
  }

  /** Record i of a response carries envelope i, however it was written. */
  ghost predicate Carries(records: seq<Field>, es: seq<Envelope>) {
    && |records| == |es|
    && forall i :: 0 <= i < |es| ==>
         records[i].BytesField? && records[i].number == 1 && EnvelopeOf(records[i].data) == Some(es[i])
  }

  lemma {:induction false} RecordsFold(r: SyncResponse, records: seq<Field>, es: seq<Envelope>, more: seq<Field>)
    requires Carries(records, es)
    ensures Fold(ResponseStep, r, records + more) == Fold(ResponseStep, r.(messages := r.messages + es), more)
    decreases |es|
  {
    hide EnvelopeOf;
    if es == [] {
      assert records + more == more && r.messages + es == r.messages;
    } else {
      assert (records + more)[1..] == records[1..] + more;
      RecordsFold(r.(messages := r.messages + [es[0]]), records[1..], es[1..], more);
      assert r.messages + [es[0]] + es[1..] == r.messages + es;
    }
  }

  /** A response is read back from records that carry its envelopes and one that carries its
      Merkle tree, whatever unknown fields stand between them. */
  lemma ResponseRoundTrip(r: SyncResponse, records: seq<Field>, fs: seq<Field>)
    requires forall f :: f in fs ==> WellFormed(f)
    requires Carries(records, r.messages) && Filter(ResponseKnown, fs) == records + [BytesField(2, r.merkle)]
    ensures ResponseOf(Encode(fs)) == Some(r)
  {
    hide Encode, Parse, WellFormed, Filter, EnvelopeOf;
    ParseWritten(fs);
    UnknownIgnored(ResponseStep, ResponseKnown, SyncResponse([], []), fs);
    var merkle := [BytesField(2, r.merkle)];
    RecordsFold(SyncResponse([], []), records, r.messages, merkle);
    assert [] + r.messages == r.messages && merkle[1..] == [];
  }

  /** Messages wrapped in envelopes and sent as a response come out as they went in. */
  lemma SyncRoundTrip(msgs: seq<ProtoMessage>, es: seq<Envelope>, merkle: Text)
    requires |es| == |msgs| && Sized(merkle)
    requires forall i :: 0 <= i < |msgs| ==> MessageFits(msgs[i])
    requires forall i :: 0 <= i < |es| ==>
               && EnvelopeFits(es[i]) && Sized(Encode(EnvelopeFields(es[i])))
               && !es[i].isEncrypted && es[i].content == Encode(MessageFields(msgs[i]))
    ensures ResponseOf(Encode(Records(es) + [BytesField(2, merkle)])) == Some(SyncResponse(es, merkle))
    ensures forall i :: 0 <= i < |es| ==> !es[i].isEncrypted && MessageOf(es[i].content) == Some(msgs[i])
  {
    hide Encode, MessageOf, EnvelopeOf, ResponseOf, MessageFields, EnvelopeFields, Fold;
    var fs := Records(es) + [BytesField(2, merkle)];
    forall i | 0 <= i < |es|
      ensures EnvelopeOf(Encode(EnvelopeFields(es[i]))) == Some(es[i]) && MessageOf(es[i].content) == Some(msgs[i])
    {
      EnvelopeWritten(es[i]);
      MessageWritten(msgs[i]);
    }
    KnownKept(ResponseKnown, fs);
    ResponseRoundTrip(SyncResponse(es, merkle), Records(es), fs);
  }

  predicate RequestFits(r: SyncRequest) {
    && Sized(r.fileID) && Sized(r.groupID) && Sized(r.keyID) && Sized(r.since)
    && forall e :: e in r.messages ==> EnvelopeFits(e) && Sized(Encode(EnvelopeFields(e)))
  }

  /** A request says exactly what it was made of: its fields are read back in order, its envelopes
      from their records, and a key identifier stands in it only if there is one. */
  lemma RequestReadsBack(r: SyncRequest)
    requires RequestFits(r)
    ensures Parse(Encode(RequestFields(r))) == Some(RequestFields(r))
    ensures Carries(RequestFields(r)[..|r.messages|], r.messages)
    ensures RequestFields(r)[|r.messages|..] ==
            if r.keyID == [] then [BytesField(2, r.fileID), BytesField(3, r.groupID), BytesField(6, r.since)]
            else [BytesField(2, r.fileID), BytesField(3, r.groupID), BytesField(5, r.keyID), BytesField(6, r.since)]
  {
    hide Encode, Parse, EnvelopeOf, EnvelopeFields;
    var fs := RequestFields(r);
    ParseWritten(fs);
    assert fs[..|r.messages|] == Records(r.messages);
    forall i | 0 <= i < |r.messages| ensures EnvelopeOf(Encode(EnvelopeFields(r.messages[i]))) == Some(r.messages[i]) {
      EnvelopeWritten(r.messages[i]);
    }
  }
}
