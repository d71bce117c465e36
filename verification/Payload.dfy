/** The batch payload validators sign: its wire format (little-endian integers, an unsigned LEB128
    length prefix, 42 bytes per receiver), written by an encoder and read back by a decoder. */
module Payload {
  import opened Sequences
  import opened Bytes

  datatype TokenAmount = TokenAmount(tokenId: u16, amount: u64)

  datatype Receiver = Receiver(address: Key, tokenAmount: TokenAmount)

  datatype SolanaPayload = SolanaPayload(blockhash: Key, receivers: seq<Receiver>, feeAmount: u64, batchId: u64)

  /** A decoded value and the bytes after it. */
  datatype Parsed<+T> = Parsed(value: T, rest: bytes)

  // ---- the format ----

  function Leb128(n: nat): (r: bytes)
    ensures |r| >= 1
  {
    if n < 128 then [n] else [128 + n % 128] + Leb128(n / 128)
  }

  function EncodeTokenAmount(t: TokenAmount): (r: bytes)
    ensures |r| == 10
  {
    EncodeLE(t.tokenId, 2) + EncodeLE(t.amount, 8)
  }

  function EncodeReceiver(r: Receiver): (b: bytes)
    ensures |b| == 42
  {
    r.address + EncodeTokenAmount(r.tokenAmount)
  }

  function EncodeReceivers(receivers: seq<Receiver>): (b: bytes)
    ensures |b| == 42 * |receivers|
  {
    if receivers == [] then []
    else EncodeReceiver(receivers[0]) + EncodeReceivers(receivers[1..])
  }

  function Marshal(p: SolanaPayload): bytes {
    p.blockhash + Leb128(|p.receivers|) + EncodeReceivers(p.receivers)
    + EncodeLE(p.feeAmount, 8) + EncodeLE(p.batchId, 8)
  }

  // ---- reading it back ----

  function TakeBytes(s: bytes, n: nat): Option<Parsed<bytes>> {
    if |s| < n then None else Some(Parsed(s[..n], s[n..]))
  }

  function TakeKey(s: bytes): Option<Parsed<Key>> {
    if |s| < 32 then None else Some(Parsed(s[..32], s[32..]))
  }

  function TakeU16(s: bytes): Option<Parsed<u16>> {
    if |s| < 2 then None
    else
      DecodeLEBound(s[..2]);
      PowValues();
      Some(Parsed(DecodeLE(s[..2]), s[2..]))
  }

  function TakeU64(s: bytes): Option<Parsed<u64>> {
    if |s| < 8 then None
    else
      DecodeLEBound(s[..8]);
      PowValues();
      Some(Parsed(DecodeLE(s[..8]), s[8..]))
  }

  /** An unsigned LEB128 number of at most 64 bits, `at` bytes of it having been read already. */
  function TakeUvarint(s: bytes, at: nat): Option<Parsed<nat>>
    decreases |s|
  {
    if s == [] || at >= 10 then None
    else if s[0] < 128 then
      if at == 9 && s[0] > 1 then None else Some(Parsed(s[0], s[1..]))
    else match TakeUvarint(s[1..], at + 1)
      case None => None
      case Some(high) => Some(Parsed(s[0] - 128 + 128 * high.value, high.rest))
  }

  function TakeTokenAmount(s: bytes): Option<Parsed<TokenAmount>> {
    match TakeU16(s)
    case None => None
    case Some(id) =>
      match TakeU64(id.rest)
      case None => None
      case Some(amount) => Some(Parsed(TokenAmount(id.value, amount.value), amount.rest))
  }

  function TakeReceiver(s: bytes): Option<Parsed<Receiver>> {
    match TakeKey(s)
    case None => None
    case Some(address) =>
      match TakeTokenAmount(address.rest)
      case None => None
      case Some(t) => Some(Parsed(Receiver(address.value, t.value), t.rest))
  }

  function TakeReceivers(s: bytes, n: nat): Option<Parsed<seq<Receiver>>> {
    if n == 0 then Some(Parsed([], s))
    else match TakeReceiver(s)
      case None => None
      case Some(first) =>
        match TakeReceivers(first.rest, n - 1)
        case None => None
        case Some(others) => Some(Parsed([first.value] + others.value, others.rest))
  }

  /** Bytes after the payload are ignored. */
  function Unmarshal(raw: bytes): Option<SolanaPayload> {
    match TakePayload(raw)
    case None => None
    case Some(p) => Some(p.value)
  }

  function TakePayload(raw: bytes): Option<Parsed<SolanaPayload>> {
    match TakeKey(raw)
    case None => None
    case Some(hash) =>
      match TakeUvarint(hash.rest, 0)
      case None => None
      case Some(count) =>
        match TakeReceivers(count.rest, count.value)
        case None => None
        case Some(receivers) =>
          match TakeU64(receivers.rest)
          case None => None
          case Some(fee) =>
            match TakeU64(fee.rest)
            case None => None
            case Some(batch) =>
              Some(Parsed(SolanaPayload(hash.value, receivers.value, fee.value, batch.value), batch.rest))
  }

  // ---- round trip ----

  lemma TakeKeyAppend(k: Key, tail: bytes)
    ensures TakeKey(k + tail) == Some(Parsed(k, tail))
  {
    assert (k + tail)[..32] == k && (k + tail)[32..] == tail;
  }

  lemma TakeU16Append(v: u16, tail: bytes)
    ensures TakeU16(EncodeLE(v, 2) + tail) == Some(Parsed(v, tail))
  {
    var e := EncodeLE(v, 2);
    assert (e + tail)[..2] == e && (e + tail)[2..] == tail;
    DecodeEncodeLE(v, 2);
    PowValues();
  }

  lemma TakeU64Append(v: u64, tail: bytes)
    ensures TakeU64(EncodeLE(v, 8) + tail) == Some(Parsed(v, tail))
  {
    hide EncodeLE, DecodeLE, Pow256;
    var e := EncodeLE(v, 8);
    assert (e + tail)[..8] == e && (e + tail)[8..] == tail;
    DecodeEncodeLE(v, 8);
    PowValues();
  }

  function Pow128(n: nat): nat {
    if n == 0 then 1 else 128 * Pow128(n - 1)
  }

  /** A number that still fits in what is left of 64 bits is read back from its LEB128 form. */
  lemma {:induction false} UvarintRoundTrip(n: nat, at: nat, tail: bytes)
    requires at <= 9
    requires n < 2 * Pow128(9 - at)
    ensures TakeUvarint(Leb128(n) + tail, at) == Some(Parsed(n, tail))
  {
    var s := Leb128(n) + tail;
    if n < 128 {
      assert s[1..] == tail;
    } else {
      assert at < 9;
      assert Pow128(9 - at) == 128 * Pow128(9 - at - 1);
      UvarintRoundTrip(n / 128, at + 1, tail);
      assert s[1..] == Leb128(n / 128) + tail;
    }
  }

  lemma Pow128Nine()
    ensures 2 * Pow128(9) == U64_LIMIT
  {
    assert Pow128(1) == 128;
    assert Pow128(2) == 128 * Pow128(1);
    assert Pow128(3) == 128 * Pow128(2);
    assert Pow128(4) == 128 * Pow128(3);
    assert Pow128(5) == 128 * Pow128(4);
    assert Pow128(6) == 128 * Pow128(5);
    assert Pow128(7) == 128 * Pow128(6);
    assert Pow128(8) == 128 * Pow128(7);
    assert Pow128(9) == 128 * Pow128(8);
  }

  lemma ReceiverRoundTrip(r: Receiver, tail: bytes)
    ensures TakeReceiver(EncodeReceiver(r) + tail) == Some(Parsed(r, tail))
  {
    hide EncodeLE, DecodeLE, TakeKey, TakeU16, TakeU64;
    var id, amount := EncodeLE(r.tokenAmount.tokenId, 2), EncodeLE(r.tokenAmount.amount, 8);
    assert EncodeReceiver(r) + tail == r.address + (id + (amount + tail));
    TakeKeyAppend(r.address, id + (amount + tail));
    TakeU16Append(r.tokenAmount.tokenId, amount + tail);
    TakeU64Append(r.tokenAmount.amount, tail);
  }

  lemma {:induction false} ReceiversRoundTrip(receivers: seq<Receiver>, tail: bytes)
    ensures TakeReceivers(EncodeReceivers(receivers) + tail, |receivers|) == Some(Parsed(receivers, tail))
  {
    hide EncodeReceiver, TakeReceiver;
    if receivers == [] {
      assert EncodeReceivers(receivers) + tail == tail;
    } else {
      var others := EncodeReceivers(receivers[1..]) + tail;
      assert EncodeReceivers(receivers) + tail == EncodeReceiver(receivers[0]) + others;
      ReceiverRoundTrip(receivers[0], others);
      ReceiversRoundTrip(receivers[1..], tail);
      assert receivers == [receivers[0]] + receivers[1..];
    }
  }

  /** Unmarshal undoes Marshal for every receiver list a 64-bit length prefix can count. */
  lemma PayloadRoundTrip(p: SolanaPayload, tail: bytes)
    requires |p.receivers| < U64_LIMIT
    ensures TakePayload(Marshal(p) + tail) == Some(Parsed(p, tail))
    ensures Unmarshal(Marshal(p) + tail) == Some(p)
  {
    hide EncodeLE, DecodeLE, Leb128, EncodeReceivers, TakeKey, TakeUvarint, TakeReceivers, TakeU64;
    var count, receivers := Leb128(|p.receivers|), EncodeReceivers(p.receivers);
    var fee, batch := EncodeLE(p.feeAmount, 8), EncodeLE(p.batchId, 8);
    assert Marshal(p) + tail == p.blockhash + (count + (receivers + (fee + (batch + tail))));
    TakeKeyAppend(p.blockhash, count + (receivers + (fee + (batch + tail))));
    Pow128Nine();
    UvarintRoundTrip(|p.receivers|, 0, receivers + (fee + (batch + tail)));
    ReceiversRoundTrip(p.receivers, fee + (batch + tail));
    TakeU64Append(p.feeAmount, batch + tail);
    TakeU64Append(p.batchId, tail);
  }

  // ---- no proper prefix of a marshalled payload unmarshals ----

  lemma TakeFixedMore(s: bytes, t: bytes)
    ensures |s| >= 32 ==> TakeKey(s + t) == Some(Parsed(s[..32], s[32..] + t))
    ensures |s| >= 2 ==> TakeU16(s + t) == Some(Parsed(TakeU16(s).value.value, s[2..] + t))
    ensures |s| >= 8 ==> TakeU64(s + t) == Some(Parsed(TakeU64(s).value.value, s[8..] + t))
  {
    hide DecodeLE;
    assert |s| >= 32 ==> (s + t)[..32] == s[..32] && (s + t)[32..] == s[32..] + t;
    assert |s| >= 2 ==> (s + t)[..2] == s[..2] && (s + t)[2..] == s[2..] + t;
    assert |s| >= 8 ==> (s + t)[..8] == s[..8] && (s + t)[8..] == s[8..] + t;
  }

  lemma {:induction false} TakeUvarintMore(s: bytes, t: bytes, at: nat)
    requires TakeUvarint(s, at).Some?
    ensures var r := TakeUvarint(s, at).value;
            TakeUvarint(s + t, at) == Some(Parsed(r.value, r.rest + t))
    decreases |s|
  {
    assert (s + t)[1..] == s[1..] + t;
    if s[0] >= 128 {
      TakeUvarintMore(s[1..], t, at + 1);
    }
  }

  lemma TakeReceiverMore(s: bytes, t: bytes)
    requires TakeReceiver(s).Some?
    ensures var r := TakeReceiver(s).value;
            TakeReceiver(s + t) == Some(Parsed(r.value, r.rest + t))
  {
    hide DecodeLE;
    TakeFixedMore(s, t);
    TakeFixedMore(s[32..], t);
    TakeFixedMore(s[32..][2..], t);
  }

  lemma {:induction false} TakeReceiversMore(s: bytes, t: bytes, n: nat)
    requires TakeReceivers(s, n).Some?
    ensures var r := TakeReceivers(s, n).value;
            TakeReceivers(s + t, n) == Some(Parsed(r.value, r.rest + t))
    decreases n
  {
    hide TakeReceiver;
    if n > 0 {
      TakeReceiverMore(s, t);
      TakeReceiversMore(TakeReceiver(s).value.rest, t, n - 1);
    }
  }

  /** What unmarshals still unmarshals, to the same payload, with more bytes after it. */
  lemma TakePayloadMore(s: bytes, t: bytes)
    requires TakePayload(s).Some?
    ensures var r := TakePayload(s).value;
            TakePayload(s + t) == Some(Parsed(r.value, r.rest + t))
  {
    hide TakeUvarint, TakeReceivers, DecodeLE;
    TakeFixedMore(s, t);
    TakeUvarintMore(s[32..], t, 0);
    var count := TakeUvarint(s[32..], 0).value;
    TakeReceiversMore(count.rest, t, count.value);
    var receivers := TakeReceivers(count.rest, count.value).value;
    TakeFixedMore(receivers.rest, t);
    TakeFixedMore(receivers.rest[8..], t);
  }

  /** A payload cut short anywhere does not unmarshal at all. */
  lemma CutPayloadFails(p: SolanaPayload, n: nat)
    requires |p.receivers| < U64_LIMIT && n < |Marshal(p)|
    ensures Unmarshal(Marshal(p)[..n]) == None
  {
    hide TakePayload, Marshal;
    var raw := Marshal(p);
    PayloadRoundTrip(p, []);
    assert raw + [] == raw && raw == raw[..n] + raw[n..];
    if TakePayload(raw[..n]).Some? {
      TakePayloadMore(raw[..n], raw[n..]);
    }
  }

  lemma LebLength(n: nat)
    requires n < 16384
    ensures |Leb128(n)| == if n < 128 then 1 else 2
  {
  }

  /** A payload fits a 16-bit message length exactly up to 1559 receivers. */
  lemma PayloadFitsMessage(p: SolanaPayload)
    requires |p.receivers| < U64_LIMIT
    ensures |Marshal(p)| <= 65535 <==> |p.receivers| <= 1559
    ensures |Marshal(p)| >= 49
  {
    hide EncodeLE, EncodeReceivers;
    if |p.receivers| < 16384 {
      LebLength(|p.receivers|);
    }
  }

  // ---- the encoder and decoder objects ----

  class Encoder {
    var buf: bytes

    constructor ()
      ensures buf == []
    {
      buf := [];
    }

    method WriteBytes(b: bytes)
      modifies this
      ensures buf == old(buf) + b
    {
      buf := buf + b;
    }

    method WriteUint16(v: u16)
      modifies this
      ensures buf == old(buf) + EncodeLE(v, 2)
    {
      buf := buf + [v % 256, v / 256];
      assert EncodeLE(v, 2) == [v % 256] + EncodeLE(v / 256, 1);
      assert EncodeLE(v / 256, 1) == [v / 256 % 256] + EncodeLE(v / 256 / 256, 0);
    }

    method WriteUint64(v: u64)
      modifies this
      ensures buf == old(buf) + EncodeLE(v, 8)
    {
      var rest: nat := v;
      for i := 0 to 8
        invariant buf + EncodeLE(rest, 8 - i) == old(buf) + EncodeLE(v, 8)
      {
        assert buf + EncodeLE(rest, 8 - i) == buf + [rest % 256] + EncodeLE(rest / 256, 8 - i - 1);
        buf := buf + [rest % 256];
        rest := rest / 256;
      }
    }

    method WriteUvarint(v: nat)
      modifies this
      ensures buf == old(buf) + Leb128(v)
    {
      var rest := v;
      while rest >= 128
        invariant buf + Leb128(rest) == old(buf) + Leb128(v)
      {
        assert buf + Leb128(rest) == buf + [128 + rest % 128] + Leb128(rest / 128);
        buf := buf + [128 + rest % 128];
        rest := rest / 128;
      }
      buf := buf + [rest];
    }
  }

  /** TokenAmount.MarshalWithEncoder: the id, then the amount. */
  method MarshalTokenAmount(t: TokenAmount, encoder: Encoder)
    modifies encoder
    ensures encoder.buf == old(encoder.buf) + EncodeTokenAmount(t)
  {
    encoder.WriteUint16(t.tokenId);
    encoder.WriteUint64(t.amount);
  }

  /** SolanaPayload.Marshal */
  method MarshalPayload(p: SolanaPayload) returns (raw: bytes)
    ensures raw == Marshal(p)
  {
    hide EncodeLE, Leb128;
    var encoder := new Encoder();
    encoder.WriteBytes(p.blockhash);
    encoder.WriteUvarint(|p.receivers|);
    ghost var head := p.blockhash + Leb128(|p.receivers|);
    assert encoder.buf == head && p.receivers[0..] == p.receivers;
    for i := 0 to |p.receivers|
      invariant encoder.buf + EncodeReceivers(p.receivers[i..]) == head + EncodeReceivers(p.receivers)
      modifies encoder
    {
      ghost var before := encoder.buf;
      encoder.WriteBytes(p.receivers[i].address);
      MarshalTokenAmount(p.receivers[i].tokenAmount, encoder);
      assert encoder.buf == before + EncodeReceiver(p.receivers[i]);
      assert p.receivers[i..][1..] == p.receivers[i + 1..];
    }
    assert p.receivers[|p.receivers|..] == [];
    assert encoder.buf == head + EncodeReceivers(p.receivers);
    encoder.WriteUint64(p.feeAmount);
    encoder.WriteUint64(p.batchId);
    raw := encoder.buf;
  }

  class Decoder {
    const data: bytes
    var pos: nat

    ghost predicate Valid()
      reads this
    {
      pos <= |data|
    }

    ghost function Rest(): bytes
      reads this
      requires Valid()
    {
      data[pos..]
    }

    constructor (raw: bytes)
      ensures Valid() && Rest() == raw
    {
      data, pos := raw, 0;
    }

    method ReadBytes(n: nat) returns (r: Option<bytes>)
      requires Valid()
      modifies this
      ensures Valid()
      ensures match TakeBytes(old(Rest()), n)
              case None => r == None
              case Some(p) => r == Some(p.value) && Rest() == p.rest
    {
      if |data| - pos < n {
        return None;
      }
      assert data[pos..][..n] == data[pos..pos + n];
      assert data[pos..][n..] == data[pos + n..];
      r := Some(data[pos..pos + n]);
      pos := pos + n;
    }

    method ReadUint16() returns (r: Option<u16>)
      requires Valid()
      modifies this
      ensures Valid()
      ensures match TakeU16(old(Rest()))
              case None => r == None
              case Some(p) => r == Some(p.value) && Rest() == p.rest
    {
      var raw := ReadBytes(2);
      if raw.None? {
        return None;
      }
      DecodeLEBound(raw.value);
      PowValues();
      r := Some(DecodeLE(raw.value));
    }

    method ReadUint64() returns (r: Option<u64>)
      requires Valid()
      modifies this
      ensures Valid()
      ensures match TakeU64(old(Rest()))
              case None => r == None
              case Some(p) => r == Some(p.value) && Rest() == p.rest
    {
      var raw := ReadBytes(8);
      if raw.None? {
        return None;
      }
      DecodeLEBound(raw.value);
      PowValues();
      r := Some(DecodeLE(raw.value));
    }

    method ReadUvarint() returns (r: Option<nat>)
      requires Valid()
      modifies this
      ensures Valid()
      ensures match TakeUvarint(old(Rest()), 0)
              case None => r == None
              case Some(p) => r == Some(p.value) && Rest() == p.rest
    {
      hide TakeUvarint;
      var value: nat, weight: nat, at: nat := 0, 1, 0;
      ghost var all := TakeUvarint(Rest(), 0);
      while pos < |data| && at < 10
        invariant Valid()
        invariant weight >= 1
        invariant match TakeUvarint(Rest(), at)
                  case None => all == None
                  case Some(p) => all == Some(Parsed(value + weight * p.value, p.rest))
        decreases |data| - pos
      {
        var b := data[pos];
        assert Rest()[0] == b && Rest()[1..] == data[pos + 1..];
        NextUvarint(Rest(), at);
        if b < 128 {
          if at == 9 && b > 1 {
            return None;
          }
          pos := pos + 1;
          return Some(value + weight * b);
        }
        ScaleUp(value, weight, b - 128, TakeUvarint(data[pos + 1..], at + 1));
        value := value + weight * (b - 128);
        weight := 128 * weight;
        pos := pos + 1;
        at := at + 1;
      }
      NextUvarint(Rest(), at);
      r := None;
    }
  }

  /** One byte, and possibly more of the same number. */
  lemma NextUvarint(s: bytes, at: nat)
    ensures s == [] || at >= 10 ==> TakeUvarint(s, at) == None
    ensures s != [] && at < 10 ==>
              TakeUvarint(s, at)
              == if s[0] < 128 then
                   if at == 9 && s[0] > 1 then None else Some(Parsed(s[0], s[1..]))
                 else match TakeUvarint(s[1..], at + 1)
                   case None => None
                   case Some(high) => Some(Parsed(s[0] - 128 + 128 * high.value, high.rest))
  {
  }

  lemma ScaleUp(value: nat, weight: nat, low: nat, high: Option<Parsed<nat>>)
    ensures high.Some? ==>
              value + weight * (low + 128 * high.value.value)
              == value + weight * low + 128 * weight * high.value.value
  {
  }

  /** TokenAmount.UnmarshalWithDecoder: fills the id, then the amount. */
  method UnmarshalTokenAmount(decoder: Decoder) returns (r: Option<TokenAmount>)
    requires decoder.Valid()
    modifies decoder
    ensures decoder.Valid()
    ensures match TakeTokenAmount(old(decoder.Rest()))
            case None => r == None
            case Some(p) => r == Some(p.value) && decoder.Rest() == p.rest
  {
    hide TakeU16, TakeU64;
    var id := decoder.ReadUint16();
    if id.None? {
      return None;
    }
    var amount := decoder.ReadUint64();
    if amount.None? {
      return None;
    }
    r := Some(TokenAmount(id.value, amount.value));
  }

  method UnmarshalReceiver(decoder: Decoder) returns (r: Option<Receiver>)
    requires decoder.Valid()
    modifies decoder
    ensures decoder.Valid()
    ensures match TakeReceiver(old(decoder.Rest()))
            case None => r == None
            case Some(p) => r == Some(p.value) && decoder.Rest() == p.rest
  {
    hide TakeTokenAmount;
    var address := decoder.ReadBytes(32);
    if address.None? {
      return None;
    }
    var t := UnmarshalTokenAmount(decoder);
    if t.None? {
      return None;
    }
    r := Some(Receiver(address.value, t.value));
  }

  lemma {:induction false} TakeReceiversSnoc(s: bytes, n: nat)
    ensures TakeReceivers(s, n).None? ==> TakeReceivers(s, n + 1).None?
    ensures TakeReceivers(s, n).Some? ==>
              var done := TakeReceivers(s, n).value;
              TakeReceivers(s, n + 1)
              == match TakeReceiver(done.rest)
                 case None => None
                 case Some(r) => Some(Parsed(done.value + [r.value], r.rest))
    decreases n
  {
    hide TakeReceiver;
    if n == 0 {
      if TakeReceiver(s).Some? {
        var first := TakeReceiver(s).value;
        assert TakeReceivers(first.rest, n) == Some(Parsed([], first.rest));
        assert [first.value] + [] == [] + [first.value];
      }
    } else if TakeReceiver(s).Some? {
      var first := TakeReceiver(s).value;
      TakeReceiversSnoc(first.rest, n - 1);
      var others := TakeReceivers(first.rest, n - 1);
      if others.Some? && TakeReceiver(others.value.rest).Some? {
        var last := TakeReceiver(others.value.rest).value.value;
        assert [first.value] + (others.value.value + [last]) == [first.value] + others.value.value + [last];
      }
    }
  }

  lemma TakeReceiversFails(s: bytes, n: nat, m: nat)
    requires n <= m && TakeReceivers(s, n).None?
    ensures TakeReceivers(s, m).None?
    decreases m - n
  {
    if n < m {
      TakeReceiversSnoc(s, n);
      TakeReceiversFails(s, n + 1, m);
    }
  }

  method UnmarshalReceivers(decoder: Decoder, count: nat) returns (r: Option<seq<Receiver>>)
    requires decoder.Valid()
    modifies decoder
    ensures decoder.Valid()
    ensures match TakeReceivers(old(decoder.Rest()), count)
            case None => r == None
            case Some(p) => r == Some(p.value) && decoder.Rest() == p.rest
  {
    hide TakeReceiver;
    ghost var s := decoder.Rest();
    var receivers: seq<Receiver> := [];
    for i := 0 to count
      invariant decoder.Valid()
      invariant TakeReceivers(s, i) == Some(Parsed(receivers, decoder.Rest()))
      modifies decoder
    {
      TakeReceiversSnoc(s, i);
      var receiver := UnmarshalReceiver(decoder);
      if receiver.None? {
        TakeReceiversFails(s, i + 1, count);
        return None;
      }
      receivers := receivers + [receiver.value];
    }
    r := Some(receivers);
  }

  /** SolanaPayload.Unmarshal */
  method UnmarshalPayload(raw: bytes) returns (r: Option<SolanaPayload>)
    ensures r == Unmarshal(raw)
  {
    hide TakeU64, TakeUvarint, TakeReceivers;
    var decoder := new Decoder(raw);
    var hash := decoder.ReadBytes(32);
    if hash.None? {
      return None;
    }
    var count := decoder.ReadUvarint();
    if count.None? {
      return None;
    }
    var receivers := UnmarshalReceivers(decoder, count.value);
    if receivers.None? {
      return None;
    }
    var fee := decoder.ReadUint64();
    if fee.None? {
      return None;
    }
    var batch := decoder.ReadUint64();
    if batch.None? {
      return None;
    }
    r := Some(SolanaPayload(hash.value, receivers.value, fee.value, batch.value));
  }
}
