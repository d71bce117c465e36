/** The batched Ed25519 verify instruction: one message shared by every signature, addressed through
    16-bit offsets. `BuildBatched` writes it and `ExtractMessage` reads it back. */
module Ed25519 {
  import opened Sequences
  import opened Bytes
  import opened Payload

  /** "This instruction" in an instruction-index field. */
  const CURRENT_INSTRUCTION: u16 := 0xFFFF

  datatype Pair = Pair(key: Key, sig: Signature)

  // ---- what the builder writes ----

  function PairOffset(n: nat, i: nat): nat {
    2 + 14 * n + 96 * i
  }

  function MessageOffset(n: nat): nat {
    PairOffset(n, n)
  }

  /** A 16-bit field keeps its value modulo 65536. */
  function Le16(v: nat): (r: bytes)
    ensures |r| == 2
  {
    [v % 256, v / 256 % 256]
  }

  /** One offsets entry, written field by field. */
  function WriteOffsets(publicKeyOffset: nat, sharedMessageOffset: nat, messageLength: nat): (r: bytes)
    ensures |r| == 14
  {
    Le16(publicKeyOffset + 32) + Le16(CURRENT_INSTRUCTION)
    + Le16(publicKeyOffset) + Le16(CURRENT_INSTRUCTION)
    + Le16(sharedMessageOffset) + Le16(messageLength) + Le16(CURRENT_INSTRUCTION)
  }

  /** Entry i of n. */
  function OffsetsEntry(n: nat, i: nat, messageLength: nat): (r: bytes)
    ensures |r| == 14
  {
    WriteOffsets(PairOffset(n, i), MessageOffset(n), messageLength)
  }

  /** The first k entries of the offsets table. */
  function OffsetsTable(n: nat, k: nat, messageLength: nat): (r: bytes)
    ensures |r| == 14 * k
  {
    if k == 0 then [] else OffsetsTable(n, k - 1, messageLength) + OffsetsEntry(n, k - 1, messageLength)
  }

  function PairSection(pairs: seq<Pair>): (r: bytes)
    ensures |r| == 96 * |pairs|
  {
    if pairs == [] then [] else PairSection(pairs[..|pairs| - 1]) + Last(pairs).key + Last(pairs).sig
  }

  function BatchedData(pairs: seq<Pair>, message: bytes): bytes
    requires |pairs| <= 255
  {
    [|pairs|, 0] + OffsetsTable(|pairs|, |pairs|, |message|) + PairSection(pairs) + message
  }

  /** `order` lists every pair of the map once, in some order. */
  ghost predicate IsOrderingOf(order: seq<Pair>, pairs: map<Key, Signature>) {
    && |order| == |pairs|
    && (forall i, j :: 0 <= i < j < |order| ==> order[i].key != order[j].key)
    && (forall i :: 0 <= i < |order| ==> order[i].key in pairs && order[i].sig == pairs[order[i].key])
    && (forall k :: k in pairs ==> Pair(k, pairs[k]) in order)
  }

  datatype BuildError = NoPairs | TooManyPairs | EmptyMessage

  /** Map iteration order is unspecified: each round takes any pair not taken yet. */
  method BuildBatched(pairs: map<Key, Signature>, message: bytes)
    returns (r: Result<bytes, BuildError>, ghost order: seq<Pair>)
    ensures r.Ok? <==> 1 <= |pairs| <= 255 && message != []
    ensures r == Err(NoPairs) <==> pairs == map[]
    ensures r == Err(TooManyPairs) <==> |pairs| > 255
    ensures r.Ok? ==> IsOrderingOf(order, pairs) && r.value == BatchedData(order, message)
    ensures r.Ok? ==> BuiltBytes(r.value, order, message)
  {
    order := [];
    var n := |pairs|;
    if n == 0 {
      return Err(NoPairs), order;
    }
    if n > 255 {
      return Err(TooManyPairs), order;
    }
    if message == [] {
      return Err(EmptyMessage), order;
    }
    var table, section;
    table, section, order := WriteEntries(pairs, |message|);
    BuiltByteByByte(order, message);
    return Ok([n, 0] + table + section + message), order;
  }

  /** The loop over the pairs: one offsets entry and one key and signature per round. */
  method WriteEntries(pairs: map<Key, Signature>, messageLength: nat)
    returns (table: bytes, section: bytes, ghost order: seq<Pair>)
    ensures IsOrderingOf(order, pairs)
    ensures table == OffsetsTable(|pairs|, |pairs|, messageLength)
    ensures section == PairSection(order)
  {
    hide WriteOffsets, IsOrderingOf;
    var n := |pairs|;
    order, table, section := [], [], [];
    var payloadOffset := 2 + n * 14;
    var rest := pairs;
    while rest != map[]
      invariant TakenSoFar(order, pairs, rest)
      invariant payloadOffset == PairOffset(n, |order|)
      invariant table == OffsetsTable(n, |order|, messageLength)
      invariant section == PairSection(order)
      decreases |rest|
    {
      var pubkey :| pubkey in rest;
      var signature := rest[pubkey];
      TableSnoc(n, |order|, messageLength);
      table := table + WriteOffsets(payloadOffset, MessageOffset(n), messageLength);
      SectionSnoc(order, pubkey, signature);
      section := section + pubkey + signature;
      payloadOffset := payloadOffset + 96;
      TakeOne(order, pairs, rest, pubkey);
      order := order + [Pair(pubkey, signature)];
      rest := rest - {pubkey};
    }
    TakenAll(order, pairs);
  }

  lemma TableSnoc(n: nat, k: nat, messageLength: nat)
    ensures OffsetsTable(n, k + 1, messageLength)
            == OffsetsTable(n, k, messageLength) + OffsetsEntry(n, k, messageLength)
  {
  }

  lemma SectionSnoc(pairs: seq<Pair>, key: Key, sig: Signature)
    ensures PairSection(pairs + [Pair(key, sig)]) == PairSection(pairs) + key + sig
  {
    assert (pairs + [Pair(key, sig)])[..|pairs|] == pairs;
  }

  /** `order` lists once each pair of the map that is no longer in `rest`. */
  ghost predicate TakenSoFar(order: seq<Pair>, pairs: map<Key, Signature>, rest: map<Key, Signature>) {
    && |order| + |rest| == |pairs|
    && (forall k :: k in rest ==> k in pairs && rest[k] == pairs[k])
    && (forall i, j :: 0 <= i < j < |order| ==> order[i].key != order[j].key)
    && (forall i :: 0 <= i < |order| ==>
          order[i].key in pairs && order[i].key !in rest && order[i].sig == pairs[order[i].key])
    && (forall k :: k in pairs && k !in rest ==> Pair(k, pairs[k]) in order)
  }

  lemma TakeOne(order: seq<Pair>, pairs: map<Key, Signature>, rest: map<Key, Signature>, k: Key)
    requires TakenSoFar(order, pairs, rest) && k in rest
    ensures TakenSoFar(order + [Pair(k, rest[k])], pairs, rest - {k})
    ensures |rest - {k}| < |rest|
  {
    assert (rest - {k}).Keys == rest.Keys - {k};
    assert |rest - {k}| == |(rest - {k}).Keys|;
  }

  lemma TakenAll(order: seq<Pair>, pairs: map<Key, Signature>)
    requires TakenSoFar(order, pairs, map[])
    ensures IsOrderingOf(order, pairs)
  {
  }

  /** The part of a message a 16-bit size field can describe. */
  function CutMessage(message: bytes): (r: bytes)
    ensures |r| == |message| % 0x1_0000
    ensures r == message <==> |message| <= 0xFFFF
  {
    message[..|message| % 0x1_0000]
  }

  // ---- what the parser accepts ----

  /** A little-endian 16-bit field. */
  function U16At(data: bytes, at: nat): u16
    requires at + 2 <= |data|
  {
    var low: int, high: int := data[at], data[at + 1];
    low + 256 * high
  }

  function SigOffsetAt(data: bytes, i: nat): u16 requires 2 + 14 * i + 14 <= |data| { U16At(data, 2 + 14 * i) }

  function KeyOffsetAt(data: bytes, i: nat): u16 requires 2 + 14 * i + 14 <= |data| { U16At(data, 2 + 14 * i + 4) }

  function MessageOffsetAt(data: bytes, i: nat): u16 requires 2 + 14 * i + 14 <= |data| { U16At(data, 2 + 14 * i + 8) }

  function MessageSizeAt(data: bytes, i: nat): u16 requires 2 + 14 * i + 14 <= |data| { U16At(data, 2 + 14 * i + 10) }

  /** The three instruction-index fields of entry i. */
  predicate OwnInstruction(data: bytes, ixIndex: u16, i: nat)
    requires 2 + 14 * i + 14 <= |data|
  {
    && U16At(data, 2 + 14 * i + 2) in {CURRENT_INSTRUCTION, ixIndex}
    && U16At(data, 2 + 14 * i + 6) in {CURRENT_INSTRUCTION, ixIndex}
    && U16At(data, 2 + 14 * i + 12) in {CURRENT_INSTRUCTION, ixIndex}
  }

  predicate EntryOk(data: bytes, ixIndex: u16, i: nat) {
    && 2 + 14 * i + 14 <= |data|
    && OwnInstruction(data, ixIndex, i)
    && SigOffsetAt(data, i) + 64 <= |data|
    && KeyOffsetAt(data, i) + 32 <= |data|
    && MessageOffsetAt(data, i) + MessageSizeAt(data, i) <= |data|
  }

  function MessageAt(data: bytes, ixIndex: u16, i: nat): bytes
    requires EntryOk(data, ixIndex, i)
  {
    data[MessageOffsetAt(data, i)..MessageOffsetAt(data, i) + MessageSizeAt(data, i)]
  }

  /** Key and signature an entry's offsets lead to. */
  function PairReadAt(data: bytes, ixIndex: u16, i: nat): Pair
    requires EntryOk(data, ixIndex, i)
  {
    Pair(data[KeyOffsetAt(data, i)..KeyOffsetAt(data, i) + 32],
         data[SigOffsetAt(data, i)..SigOffsetAt(data, i) + 64])
  }

  /** At least one signature, every entry inside this instruction, and one message for all. */
  ghost predicate Accepts(data: bytes, ixIndex: u16) {
    && |data| >= 2
    && data[0] > 0
    && (forall i: nat :: i < data[0] ==> EntryOk(data, ixIndex, i))
    && (forall i: nat :: i < data[0] ==> MessageAt(data, ixIndex, i) == MessageAt(data, ixIndex, 0))
  }

  ghost function SharedMessage(data: bytes, ixIndex: u16): Option<bytes> {
    if Accepts(data, ixIndex) then Some(MessageAt(data, ixIndex, 0)) else None
  }

  function Word(low: nat, high: nat): nat {
    low + 256 * high
  }

  /** Byte for byte, entry i is accepted and leads to `message`: its three instruction-index fields, at 2, 6 and
      12, hold 65535 or this instruction's index, and its signature, key and message lie inside the data. */
  ghost predicate EntryReads(data: bytes, ixIndex: u16, i: nat, message: bytes) {
    var at := 2 + 14 * i;
    && at + 14 <= |data|
    && Word(data[at + 2], data[at + 3]) in {65535, ixIndex}
    && Word(data[at + 6], data[at + 7]) in {65535, ixIndex}
    && Word(data[at + 12], data[at + 13]) in {65535, ixIndex}
    && Word(data[at], data[at + 1]) + 64 <= |data|
    && Word(data[at + 4], data[at + 5]) + 32 <= |data|
    && var from, size := Word(data[at + 8], data[at + 9]), Word(data[at + 10], data[at + 11]);
       from + size <= |data| && data[from..from + size] == message
  }

  /** There is at least one entry, and every one leads to this message. */
  ghost predicate Shares(data: bytes, ixIndex: u16, message: bytes) {
    |data| >= 2 && data[0] > 0 && forall i: nat :: i < data[0] ==> EntryReads(data, ixIndex, i, message)
  }

  lemma EntryReadsWhenOk(data: bytes, ixIndex: u16, i: nat, message: bytes)
    ensures EntryReads(data, ixIndex, i, message)
            <==> EntryOk(data, ixIndex, i) && MessageAt(data, ixIndex, i) == message
  {
  }

  lemma SharedExactly(data: bytes, ixIndex: u16, message: bytes)
    ensures SharedMessage(data, ixIndex) == Some(message) <==> Shares(data, ixIndex, message)
  {
    hide EntryReads, EntryOk, MessageAt;
    if |data| >= 2 {
      forall i: nat, m: bytes | i < data[0]
        ensures EntryReads(data, ixIndex, i, m) <==> EntryOk(data, ixIndex, i) && MessageAt(data, ixIndex, i) == m
      {
        EntryReadsWhenOk(data, ixIndex, i, m);
      }
      if Shares(data, ixIndex, message) {
        forall i: nat | i < data[0]
          ensures EntryOk(data, ixIndex, i) && MessageAt(data, ixIndex, i) == message
        {
          assert EntryReads(data, ixIndex, i, message);
        }
        AcceptedWhen(data, ixIndex, message);
      }
    }
  }

  /** An entry that says 0xFFFF in its three instruction-index fields is accepted at any place in a transaction,
      whatever that place is. */
  lemma MarkedEntryAccepted(data: bytes, ixIndex: u16, ixIndex': u16, i: nat, message: bytes)
    requires EntryReads(data, ixIndex, i, message)
    requires var at := 2 + 14 * i;
             && data[at + 2] == data[at + 3] == data[at + 6] == data[at + 7] == 255
             && data[at + 12] == data[at + 13] == 255
    ensures EntryReads(data, ixIndex', i, message)
  {
  }

  method ExtractMessage(data: bytes, ixIndex: u16) returns (r: Option<bytes>)
    ensures r == SharedMessage(data, ixIndex)
    ensures forall message :: r == Some(message) <==> Shares(data, ixIndex, message)
  {
    hide U16At, Shares;
    forall message
      ensures SharedMessage(data, ixIndex) == Some(message) <==> Shares(data, ixIndex, message)
    {
      SharedExactly(data, ixIndex, message);
    }
    if |data| < 2 {
      return None;
    }
    var numSigs := data[0];
    if numSigs == 0 {
      return None;
    }
    var sharedMessage: Option<bytes> := None;
    for i := 0 to numSigs
      invariant forall j: nat :: j < i ==> EntryOk(data, ixIndex, j)
      invariant forall j: nat :: j < i ==> MessageAt(data, ixIndex, j) == MessageAt(data, ixIndex, 0)
      invariant i == 0 ==> sharedMessage == None
      invariant i > 0 ==> sharedMessage == Some(MessageAt(data, ixIndex, 0))
    {
      if 2 + i * 14 + 14 > |data| {
        assert !EntryOk(data, ixIndex, i);
        return None;
      }
      if !OwnInstruction(data, ixIndex, i) {
        assert !EntryOk(data, ixIndex, i);
        return None;
      }
      var messageOffset, messageSize := MessageOffsetAt(data, i), MessageSizeAt(data, i);
      if SigOffsetAt(data, i) + 64 > |data| || KeyOffsetAt(data, i) + 32 > |data|
         || messageOffset + messageSize > |data|
      {
        assert !EntryOk(data, ixIndex, i);
        return None;
      }
      var message := data[messageOffset..messageOffset + messageSize];
      assert message == MessageAt(data, ixIndex, i);
      if sharedMessage.None? {
        sharedMessage := Some(message);
      } else if sharedMessage.value != message {
        return None;
      }
    }
    return sharedMessage;
  }

  ghost function ExtractedPayload(data: bytes, ixIndex: u16): Option<SolanaPayload> {
    match SharedMessage(data, ixIndex)
    case None => None
    case Some(message) => Unmarshal(message)
  }

  method ExtractSolanaPayload(data: bytes, ixIndex: u16) returns (r: Option<SolanaPayload>)
    ensures r == ExtractedPayload(data, ixIndex)
  {
    var message := ExtractMessage(data, ixIndex);
    if message.None? {
      return None;
    }
    r := UnmarshalPayload(message.value);
  }

  // ---- the bytes written ----

  /** A 16-bit field at this place holds the value. */
  predicate FieldIs(data: bytes, at: nat, value: nat) {
    at + 2 <= |data| && Word(data[at], data[at + 1]) == value
  }

  /** Entry i of n signatures, field by field: the signature's offset, this instruction, the key's offset, this
      instruction, the message's offset and size, this instruction. Keys and signatures follow the n entries,
      96 bytes for each pair, and the message comes last. */
  ghost predicate EntryIs(data: bytes, n: nat, i: nat, size: nat) {
    var at := 2 + 14 * i;
    && FieldIs(data, at, 34 + 14 * n + 96 * i) && FieldIs(data, at + 4, 2 + 14 * n + 96 * i)
    && FieldIs(data, at + 8, 2 + 110 * n) && FieldIs(data, at + 10, size % 65536)
    && at + 14 <= |data|
    && data[at + 2] == data[at + 3] == 255 && data[at + 6] == data[at + 7] == 255
    && data[at + 12] == data[at + 13] == 255
  }

  /** Entry i, and the key and the signature it leads to. */
  ghost predicate PairIs(data: bytes, pairs: seq<Pair>, i: nat, size: nat)
    requires i < |pairs|
  {
    var n := |pairs|;
    && EntryIs(data, n, i, size) && 98 + 14 * n + 96 * i <= |data|
    && data[2 + 14 * n + 96 * i..34 + 14 * n + 96 * i] == pairs[i].key
    && data[34 + 14 * n + 96 * i..98 + 14 * n + 96 * i] == pairs[i].sig
  }

  /** The whole instruction. */
  ghost predicate BuiltBytes(data: bytes, pairs: seq<Pair>, message: bytes) {
    var n := |pairs|;
    && |data| == 2 + 110 * n + |message| && data[0] == n && data[1] == 0
    && data[2 + 110 * n..] == message
    && forall i :: 0 <= i < n ==> PairIs(data, pairs, i, |message|)
  }

  lemma BuiltByteByByte(pairs: seq<Pair>, message: bytes)
    requires 1 <= |pairs| <= 255
    ensures BuiltBytes(BatchedData(pairs, message), pairs, message)
  {
    var data, n := BatchedData(pairs, message), |pairs|;
    CountByte(pairs, message);
    assert data[1] == 0;
    hide BatchedData, PairIs, LaidOut;
    forall i: nat | i < n
      ensures PairIs(data, pairs, i, |message|)
    {
      Layout(pairs, message, i);
      BuiltPairIs(data, pairs, message, i);
    }
    Layout(pairs, message, 0);
    MessageInPlace(data, pairs, message);
  }

  lemma MessageInPlace(data: bytes, pairs: seq<Pair>, message: bytes)
    requires pairs != [] && LaidOut(data, pairs, message, 0)
    ensures |data| == 2 + 110 * |pairs| + |message| && data[2 + 110 * |pairs|..] == message
  {
    hide OffsetsEntry;
  }

  lemma BuiltPairIs(data: bytes, pairs: seq<Pair>, message: bytes, i: nat)
    requires i < |pairs| <= 255 && LaidOut(data, pairs, message, i)
    ensures PairIs(data, pairs, i, |message|)
  {
    BuiltEntryIs(data, pairs, message, i);
    hide OffsetsEntry, EntryIs;
  }

  lemma BuiltEntryIs(data: bytes, pairs: seq<Pair>, message: bytes, i: nat)
    requires i < |pairs| <= 255 && LaidOut(data, pairs, message, i)
    ensures EntryIs(data, |pairs|, i, |message|)
  {
    BuiltOffsets(data, pairs, message, 0, i);
    MarksAre255(|pairs|, i, |message|);
    hide OffsetsEntry, LaidOut;
    var at, e := 2 + 14 * i, OffsetsEntry(|pairs|, i, |message|);
    assert data[at..at + 14] == e by { EntryInPlace(data, pairs, message, i); }
    assert forall k :: 0 <= k < 14 ==> data[at + k] == e[k];
  }

  lemma EntryInPlace(data: bytes, pairs: seq<Pair>, message: bytes, i: nat)
    requires i < |pairs| && LaidOut(data, pairs, message, i)
    ensures 2 + 14 * i + 14 <= |data|
    ensures data[2 + 14 * i..2 + 14 * i + 14] == OffsetsEntry(|pairs|, i, |message|)
  {
    hide OffsetsEntry;
  }

  lemma MarksAre255(n: nat, i: nat, size: nat)
    ensures var e := OffsetsEntry(n, i, size);
            && e[2] == e[3] == 255 && e[6] == e[7] == 255 && e[12] == e[13] == 255
  {
  }

  // ---- round trip ----

  lemma {:induction false} TableAt(n: nat, k: nat, messageLength: nat, i: nat)
    requires i < k
    ensures OffsetsTable(n, k, messageLength)[14 * i..14 * i + 14] == OffsetsEntry(n, i, messageLength)
  {
    hide OffsetsEntry;
    if i < k - 1 {
      TableAt(n, k - 1, messageLength, i);
    }
  }

  lemma {:induction false} PairAt(pairs: seq<Pair>, i: nat)
    requires i < |pairs|
    ensures PairSection(pairs)[96 * i..96 * i + 32] == pairs[i].key
    ensures PairSection(pairs)[96 * i + 32..96 * i + 96] == pairs[i].sig
  {
    if i < |pairs| - 1 {
      PairAt(pairs[..|pairs| - 1], i);
    }
  }

  lemma Low16(v: nat)
    ensures U16At(Le16(v), 0) == v % 0x1_0000
    ensures v < 0x1_0000 ==> U16At(Le16(v), 0) == v
  {
    ModStep(v, 256);
  }

  lemma OffsetsFit(n: nat, i: nat)
    requires i < n <= 255
    ensures PairOffset(n, i) + 32 < MessageOffset(n) <= MessageOffset(255) == 28052
  {
  }

  lemma WrittenFields(key: nat, shared: nat, size: nat)
    ensures var e := WriteOffsets(key, shared, size);
            && U16At(e, 0) == U16At(Le16(key + 32), 0)
            && U16At(e, 2) == U16At(e, 6) == U16At(e, 12) == U16At(Le16(CURRENT_INSTRUCTION), 0)
            && U16At(e, 4) == U16At(Le16(key), 0)
            && U16At(e, 8) == U16At(Le16(shared), 0)
            && U16At(e, 10) == U16At(Le16(size), 0)
  {
    hide Le16;
  }

  /** Every 16-bit slot of a written entry reads back; only the message length can be cut. The
      largest offset, the message offset for 255 pairs, is 28052. */
  lemma EntryReadsBack(n: nat, i: nat, messageLength: nat)
    requires i < n <= 255
    ensures var e := OffsetsEntry(n, i, messageLength);
            && U16At(e, 0) == PairOffset(n, i) + 32
            && U16At(e, 2) == U16At(e, 6) == U16At(e, 12) == CURRENT_INSTRUCTION
            && U16At(e, 4) == PairOffset(n, i)
            && U16At(e, 8) == MessageOffset(n) <= MessageOffset(255) == 28052
            && U16At(e, 10) == messageLength % 0x1_0000
  {
    hide Le16, WriteOffsets, U16At, PairOffset, MessageOffset;
    OffsetsFit(n, i);
    WrittenFields(PairOffset(n, i), MessageOffset(n), messageLength);
    Low16(PairOffset(n, i) + 32);
    Low16(CURRENT_INSTRUCTION);
    Low16(PairOffset(n, i));
    Low16(MessageOffset(n));
    Low16(messageLength);
  }

  /** Where the builder puts entry i, pair i and the message. */
  ghost predicate LaidOut(data: bytes, pairs: seq<Pair>, message: bytes, i: nat)
    requires i < |pairs|
  {
    var n := |pairs|;
    && 2 + 14 * i + 14 <= |data| == MessageOffset(n) + |message|
    && data[2 + 14 * i..2 + 14 * i + 14] == OffsetsEntry(n, i, |message|)
    && data[PairOffset(n, i)..PairOffset(n, i) + 32] == pairs[i].key
    && data[PairOffset(n, i) + 32..PairOffset(n, i) + 96] == pairs[i].sig
    && data[MessageOffset(n)..] == message
  }

  lemma Layout(pairs: seq<Pair>, message: bytes, i: nat)
    requires i < |pairs| <= 255
    ensures LaidOut(BatchedData(pairs, message), pairs, message, i)
  {
    hide OffsetsEntry, OffsetsTable, PairSection;
    var n := |pairs|;
    var table, section := OffsetsTable(n, n, |message|), PairSection(pairs);
    var data := BatchedData(pairs, message);
    TableAt(n, n, |message|, i);
    PairAt(pairs, i);
    assert data[2 + 14 * i..2 + 14 * i + 14] == table[14 * i..14 * i + 14];
    assert data[PairOffset(n, i)..PairOffset(n, i) + 32] == section[96 * i..96 * i + 32];
    assert data[PairOffset(n, i) + 32..PairOffset(n, i) + 96] == section[96 * i + 32..96 * i + 96];
  }

  /** The offsets entry i of a built instruction holds. */
  lemma BuiltOffsets(data: bytes, pairs: seq<Pair>, message: bytes, ixIndex: u16, i: nat)
    requires i < |pairs| <= 255 && LaidOut(data, pairs, message, i)
    ensures SigOffsetAt(data, i) == PairOffset(|pairs|, i) + 32
    ensures KeyOffsetAt(data, i) == PairOffset(|pairs|, i)
    ensures MessageOffsetAt(data, i) == MessageOffset(|pairs|)
    ensures MessageSizeAt(data, i) == |message| % 0x1_0000
    ensures OwnInstruction(data, ixIndex, i)
  {
    EntryReadsBack(|pairs|, i, |message|);
    hide OffsetsEntry, U16At, PairOffset, MessageOffset;
    U16Window(data, 2 + 14 * i);
  }

  /** Fields read through a window are the fields read in place. */
  lemma U16Window(data: bytes, at: nat)
    requires at + 14 <= |data|
    ensures var e := data[at..at + 14];
            && U16At(data, at) == U16At(e, 0) && U16At(data, at + 2) == U16At(e, 2)
            && U16At(data, at + 4) == U16At(e, 4) && U16At(data, at + 6) == U16At(e, 6)
            && U16At(data, at + 8) == U16At(e, 8) && U16At(data, at + 10) == U16At(e, 10)
            && U16At(data, at + 12) == U16At(e, 12)
  {
  }

  /** What the parser reads in entry i of a built instruction. */
  lemma BuiltEntry(data: bytes, pairs: seq<Pair>, message: bytes, ixIndex: u16, i: nat)
    requires i < |pairs| <= 255 && LaidOut(data, pairs, message, i)
    ensures EntryOk(data, ixIndex, i)
    ensures PairReadAt(data, ixIndex, i) == pairs[i]
    ensures MessageAt(data, ixIndex, i) == CutMessage(message)
  {
    hide OffsetsEntry, OwnInstruction, SigOffsetAt, KeyOffsetAt, MessageOffsetAt, MessageSizeAt, U16At;
    var n := |pairs|;
    BuiltOffsets(data, pairs, message, ixIndex, i);
    var seen := |message| % 0x1_0000;
    assert data[MessageOffset(n)..][..seen] == data[MessageOffset(n)..MessageOffset(n) + seen];
  }

  lemma AcceptedWhen(data: bytes, ixIndex: u16, message: bytes)
    requires |data| >= 2 && data[0] > 0
    requires forall i: nat :: i < data[0] ==>
               EntryOk(data, ixIndex, i) && MessageAt(data, ixIndex, i) == message
    ensures SharedMessage(data, ixIndex) == Some(message)
  {
    hide EntryOk, MessageAt;
  }

  /** Build, then parse: every built instruction is accepted at any position, and the parser sees the
      signed message exactly when it is at most 65535 bytes long. A longer one is cut to its length
      modulo 65536. */
  lemma BuildThenExtract(pairs: seq<Pair>, message: bytes, ixIndex: u16)
    requires 1 <= |pairs| <= 255
    ensures SharedMessage(BatchedData(pairs, message), ixIndex) == Some(CutMessage(message))
    ensures SharedMessage(BatchedData(pairs, message), ixIndex) == Some(message) <==> |message| <= 65535
  {
    var data := BatchedData(pairs, message);
    var seen := CutMessage(message);
    CountByte(pairs, message);
    hide BatchedData, EntryOk, MessageAt, PairReadAt, LaidOut, SharedMessage;
    forall i: nat | i < data[0]
      ensures EntryOk(data, ixIndex, i)
      ensures MessageAt(data, ixIndex, i) == seen
    {
      Layout(pairs, message, i);
      BuiltEntry(data, pairs, message, ixIndex, i);
    }
    AcceptedWhen(data, ixIndex, seen);
  }

  lemma CountByte(pairs: seq<Pair>, message: bytes)
    requires 1 <= |pairs| <= 255
    ensures |BatchedData(pairs, message)| >= 2 && BatchedData(pairs, message)[0] == |pairs|
  {
  }

  /** Following the offsets recovers exactly the pairs the map held, whatever order it was walked in. */
  lemma OffsetsRecoverPairs(pairs: map<Key, Signature>, order: seq<Pair>, message: bytes, ixIndex: u16)
    requires IsOrderingOf(order, pairs) && 1 <= |pairs| <= 255
    ensures var data := BatchedData(order, message);
            && data[0] == |pairs|
            && (forall i: nat :: i < |pairs| ==> EntryOk(data, ixIndex, i))
            && (forall k, s :: (k in pairs && pairs[k] == s)
                  <==> (exists i: nat :: i < |pairs| && PairReadAt(data, ixIndex, i) == Pair(k, s)))
  {
    hide EntryOk, PairReadAt, LaidOut, OffsetsEntry, PairOffset, MessageOffset;
    var data := BatchedData(order, message);
    CountByte(order, message);
    hide BatchedData;
    forall i: nat | i < |pairs|
      ensures EntryOk(data, ixIndex, i) && PairReadAt(data, ixIndex, i) == order[i]
    {
      Layout(order, message, i);
      BuiltEntry(data, order, message, ixIndex, i);
    }
    forall k, s
      ensures (k in pairs && pairs[k] == s)
              <==> (exists i: nat :: i < |pairs| && PairReadAt(data, ixIndex, i) == Pair(k, s))
    {
      if k in pairs && pairs[k] == s {
        var i: nat :| i < |order| && order[i] == Pair(k, s);
        assert PairReadAt(data, ixIndex, i) == Pair(k, s);
      }
    }
  }

  /** Through build and extract, a payload of up to 1559 receivers comes back whole, so the bytes
      re-marshalled for hashing are the bytes that were signed; a larger one is not extracted at all. */
  lemma SignedBytesSurvive(pairs: seq<Pair>, p: SolanaPayload, ixIndex: u16)
    requires 1 <= |pairs| <= 255
    requires |p.receivers| < U64_LIMIT
    ensures ExtractedPayload(BatchedData(pairs, Marshal(p)), ixIndex)
            == if |p.receivers| <= 1559 then Some(p) else None
  {
    hide BatchedData, SharedMessage, Marshal, Unmarshal;
    PayloadFitsMessage(p);
    BuildThenExtract(pairs, Marshal(p), ixIndex);
    PayloadRoundTrip(p, []);
    assert Marshal(p) + [] == Marshal(p);
    if |p.receivers| > 1559 {
      CutPayloadFails(p, |Marshal(p)| % 0x1_0000);
    }
  }
}
