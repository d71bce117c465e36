/** The payload's wire format byte by byte: what is written, and exactly which byte strings are read as which
    payload. */
module PayloadFormat {
  import opened Sequences
  import opened Bytes
  import opened Payload

  // ---- the format, field by field ----

  /** 32 bytes of address, two of token id, eight of amount. */
  ghost predicate ReceiverBytes(b: bytes, r: Receiver) {
    && |b| == 42 && b[..32] == r.address
    && LittleEndian(b[32..34], r.tokenAmount.tokenId) && LittleEndian(b[34..42], r.tokenAmount.amount)
  }

  /** Receiver i of those that start at `from`. */
  ghost predicate ReceiverAt(raw: bytes, from: nat, receivers: seq<Receiver>, i: nat)
    requires i < |receivers|
  {
    from + 42 * i + 42 <= |raw| && ReceiverBytes(raw[from + 42 * i..from + 42 * i + 42], receivers[i])
  }

  ghost predicate ReceiversFrom(raw: bytes, from: nat, receivers: seq<Receiver>) {
    forall i :: 0 <= i < |receivers| ==> ReceiverAt(raw, from, receivers, i)
  }

  /** Seven bits of each byte, the lowest first. */
  function UvarintValue(b: bytes): nat {
    if b == [] then 0 else b[0] % 128 + 128 * UvarintValue(b[1..])
  }

  /** `b` is an unsigned LEB128 number of at most 64 bits: every byte but the last has its top bit set. */
  ghost predicate IsUvarint(b: bytes, n: nat) {
    && 1 <= |b| <= 10 && n == UvarintValue(b)
    && (forall k :: 0 <= k < |b| - 1 ==> b[k] >= 128) && Last(b) < 128
    && (|b| == 10 ==> Last(b) <= 1)
  }

  /** The block hash, the number of receivers in h bytes, the receivers, the fee and the batch id. */
  ghost predicate PayloadBytes(raw: bytes, p: SolanaPayload, h: nat) {
    var n := |p.receivers|;
    var end := 32 + h + 42 * n;
    && end + 16 <= |raw| && raw[..32] == p.blockhash && IsUvarint(raw[32..32 + h], n)
    && ReceiversFrom(raw, 32 + h, p.receivers)
    && LittleEndian(raw[end..end + 8], p.feeAmount) && LittleEndian(raw[end + 8..end + 16], p.batchId)
  }

  // ---- the fields as they are encoded ----

  lemma ReceiverExactly(b: bytes, r: Receiver)
    ensures ReceiverBytes(b, r) <==> b == EncodeReceiver(r)
  {
    hide EncodeLE, LittleEndian;
    if |b| == 42 {
      LittleEndianExactly(b[32..34], r.tokenAmount.tokenId);
      LittleEndianExactly(b[34..42], r.tokenAmount.amount);
      assert b == b[..32] + (b[32..34] + b[34..42]);
      var e := EncodeReceiver(r);
      assert e[..32] == r.address && e[32..34] == EncodeLE(r.tokenAmount.tokenId, 2)
             && e[34..42] == EncodeLE(r.tokenAmount.amount, 8);
    }
  }

  lemma {:induction false} ReceiversExactly(raw: bytes, from: nat, receivers: seq<Receiver>)
    requires from + 42 * |receivers| <= |raw|
    ensures raw[from..from + 42 * |receivers|] == EncodeReceivers(receivers) <==> ReceiversFrom(raw, from, receivers)
    decreases |receivers|
  {
    hide ReceiverBytes, EncodeReceiver;
    if receivers != [] {
      var n, rest := |receivers|, receivers[1..];
      ReceiverExactly(raw[from..from + 42], receivers[0]);
      ReceiversExactly(raw, from + 42, rest);
      TwoCuts(raw, from, from + 42, from + 42, from + 42 * n);
      TwoParts(raw[from..from + 42], raw[from + 42..from + 42 * n], EncodeReceiver(receivers[0]), EncodeReceivers(rest));
      assert ReceiverAt(raw, from, receivers, 0) <==> ReceiverBytes(raw[from..from + 42], receivers[0]);
      ShiftedAll(raw, from, from + 42, receivers, rest);
    }
  }

  lemma ShiftedAll(raw: bytes, from: nat, from': nat, receivers: seq<Receiver>, rest: seq<Receiver>)
    requires receivers != [] && rest == receivers[1..] && from' == from + 42
    ensures ReceiversFrom(raw, from, receivers)
            <==> ReceiverAt(raw, from, receivers, 0) && ReceiversFrom(raw, from', rest)
  {
    forall i | 0 <= i < |rest|
      ensures ReceiverAt(raw, from', rest, i) <==> ReceiverAt(raw, from, receivers, i + 1)
    {
      SameReceiver(raw, from, from', receivers, rest, i);
    }
    hide ReceiverAt;
    if ReceiverAt(raw, from, receivers, 0) && ReceiversFrom(raw, from', rest) {
      forall i | 0 < i < |receivers|
        ensures ReceiverAt(raw, from, receivers, i)
      {
        assert ReceiverAt(raw, from', rest, i - 1);
      }
    }
  }

  lemma SameReceiver(raw: bytes, from: nat, from': nat, receivers: seq<Receiver>, rest: seq<Receiver>, i: nat)
    requires receivers != [] && rest == receivers[1..] && from' == from + 42 && i < |rest|
    ensures ReceiverAt(raw, from', rest, i) <==> ReceiverAt(raw, from, receivers, i + 1)
  {
    hide ReceiverBytes;
    assert from' + 42 * i == from + 42 * (i + 1);
  }

  lemma TwoParts(a: bytes, b: bytes, a': bytes, b': bytes)
    requires |a| == |a'|
    ensures a + b == a' + b' <==> a == a' && b == b'
  {
    if a + b == a' + b' {
      assert a == (a + b)[..|a|] && b == (a + b)[|a|..];
      assert a' == (a' + b')[..|a|] && b' == (a' + b')[|a|..];
    }
  }

  /** A payload after its hash and count. */
  function Body(p: SolanaPayload): bytes {
    EncodeReceivers(p.receivers) + EncodeLE(p.feeAmount, 8) + EncodeLE(p.batchId, 8)
  }

  lemma PayloadExactly(raw: bytes, p: SolanaPayload, h: nat)
    requires 48 + h + 42 * |p.receivers| <= |raw|
    ensures PayloadBytes(raw, p, h)
            <==> && raw[..32] == p.blockhash && IsUvarint(raw[32..32 + h], |p.receivers|)
                 && raw[32 + h..48 + h + 42 * |p.receivers|] == Body(p)
  {
    hide EncodeLE, EncodeReceivers, IsUvarint, LittleEndian, ReceiversFrom;
    var n := |p.receivers|;
    var from, end := 32 + h, 32 + h + 42 * n;
    ReceiversExactly(raw, from, p.receivers);
    LittleEndianExactly(raw[end..end + 8], p.feeAmount);
    LittleEndianExactly(raw[end + 8..end + 16], p.batchId);
    TwoCuts(raw, from, end, end + 8, end + 16);
    ThreeParts(raw[from..end], raw[end..end + 8], raw[end + 8..end + 16],
               EncodeReceivers(p.receivers), EncodeLE(p.feeAmount, 8), EncodeLE(p.batchId, 8));
  }

  lemma TwoCuts(s: bytes, a: nat, b: nat, c: nat, d: nat)
    requires a <= b <= c <= d <= |s|
    ensures s[a..d] == s[a..b] + s[b..c] + s[c..d]
  {
  }

  lemma ThreeParts(a: bytes, b: bytes, c: bytes, a': bytes, b': bytes, c': bytes)
    requires |a| == |a'| && |b| == |b'| && |c| == |c'|
    ensures a + b + c == a' + b' + c' <==> a == a' && b == b' && c == c'
  {
    if a + b + c == a' + b' + c' {
      assert a == (a + b + c)[..|a|] && b == (a + b + c)[|a|..|a| + |b|] && c == (a + b + c)[|a| + |b|..];
      assert a' == (a' + b' + c')[..|a|] && b' == (a' + b' + c')[|a|..|a| + |b|] && c' == (a' + b' + c')[|a| + |b|..];
    }
  }

  // ---- what is read ----

  /** The number when `at` bytes of it have been read already. */
  ghost predicate IsRestOfUvarint(b: bytes, n: nat, at: nat) {
    && 1 <= |b| && at + |b| <= 10 && n == UvarintValue(b)
    && (forall k :: 0 <= k < |b| - 1 ==> b[k] >= 128) && Last(b) < 128
    && (at + |b| == 10 ==> Last(b) <= 1)
  }

  lemma {:induction false} UvarintRead(b: bytes, tail: bytes, n: nat, at: nat)
    requires IsRestOfUvarint(b, n, at)
    ensures TakeUvarint(b + tail, at) == Some(Parsed(n, tail))
    decreases |b|
  {
    var s := b + tail;
    assert s[0] == b[0] && s[1..] == b[1..] + tail;
    if |b| == 1 {
      assert b[1..] == [] && s[1..] == tail;
    } else {
      assert b[0] >= 128 && Last(b[1..]) == Last(b);
      UvarintRead(b[1..], tail, UvarintValue(b[1..]), at + 1);
    }
  }

  lemma {:induction false} UvarintTaken(s: bytes, at: nat, n: nat, rest: bytes) returns (b: bytes)
    requires TakeUvarint(s, at) == Some(Parsed(n, rest))
    ensures s == b + rest && IsRestOfUvarint(b, n, at)
    decreases |s|
  {
    if s[0] < 128 {
      b := [s[0]];
      assert b[1..] == [];
    } else {
      var high := TakeUvarint(s[1..], at + 1).value;
      var others := UvarintTaken(s[1..], at + 1, high.value, high.rest);
      b := [s[0]] + others;
      assert b[1..] == others && s == [s[0]] + s[1..];
    }
  }

  lemma TakenBytes(s: bytes, n: nat)
    requires n <= |s|
    ensures s == s[..n] + s[n..]
  {
  }

  lemma U16Taken(s: bytes, v: u16, rest: bytes)
    requires TakeU16(s) == Some(Parsed(v, rest))
    ensures s == EncodeLE(v, 2) + rest
  {
    hide EncodeLE, DecodeLE;
    EncodeDecodeLE(s[..2]);
    TakenBytes(s, 2);
  }

  lemma U64Taken(s: bytes, v: u64, rest: bytes)
    requires TakeU64(s) == Some(Parsed(v, rest))
    ensures s == EncodeLE(v, 8) + rest
  {
    hide EncodeLE, DecodeLE;
    EncodeDecodeLE(s[..8]);
    TakenBytes(s, 8);
  }

  lemma ReceiverTaken(s: bytes, r: Receiver, rest: bytes)
    requires TakeReceiver(s) == Some(Parsed(r, rest))
    ensures s == EncodeReceiver(r) + rest
  {
    hide EncodeLE, TakeU16, TakeU64;
    var id := TakeU16(s[32..]).value;
    TakenBytes(s, 32);
    U16Taken(s[32..], id.value, id.rest);
    U64Taken(id.rest, r.tokenAmount.amount, rest);
    assert r.address + (EncodeLE(r.tokenAmount.tokenId, 2) + (EncodeLE(r.tokenAmount.amount, 8) + rest))
           == EncodeReceiver(r) + rest;
  }

  lemma {:induction false} ReceiversTaken(s: bytes, n: nat, receivers: seq<Receiver>, rest: bytes)
    requires TakeReceivers(s, n) == Some(Parsed(receivers, rest))
    ensures |receivers| == n && s == EncodeReceivers(receivers) + rest
    decreases n
  {
    hide TakeReceiver, EncodeReceiver;
    if n == 0 {
      assert s == [] + rest;
    } else {
      var first := TakeReceiver(s).value;
      ReceiverTaken(s, first.value, first.rest);
      assert receivers[1..] == TakeReceivers(first.rest, n - 1).value.value;
      ReceiversTaken(first.rest, n - 1, receivers[1..], rest);
      assert EncodeReceiver(first.value) + (EncodeReceivers(receivers[1..]) + rest)
             == EncodeReceivers(receivers) + rest;
    }
  }

  lemma PayloadTaken(raw: bytes, p: SolanaPayload, rest: bytes) returns (b: bytes)
    requires TakePayload(raw) == Some(Parsed(p, rest))
    ensures IsUvarint(b, |p.receivers|) && raw == p.blockhash + b + Body(p) + rest
  {
    hide TakeUvarint, TakeReceivers, TakeU64, EncodeLE, EncodeReceivers;
    TakenBytes(raw, 32);
    var count := TakeUvarint(raw[32..], 0).value;
    b := UvarintTaken(raw[32..], 0, count.value, count.rest);
    var receivers := TakeReceivers(count.rest, count.value).value;
    ReceiversTaken(count.rest, count.value, receivers.value, receivers.rest);
    var fee := TakeU64(receivers.rest).value;
    U64Taken(receivers.rest, fee.value, fee.rest);
    U64Taken(fee.rest, p.batchId, rest);
    assert p.blockhash + (b + (EncodeReceivers(p.receivers) + (EncodeLE(p.feeAmount, 8) + (EncodeLE(p.batchId, 8) + rest))))
           == p.blockhash + b + Body(p) + rest;
  }

  lemma PayloadRead(p: SolanaPayload, b: bytes, rest: bytes)
    requires IsUvarint(b, |p.receivers|)
    ensures TakePayload(p.blockhash + b + Body(p) + rest) == Some(Parsed(p, rest))
  {
    hide TakeKey, TakeUvarint, TakeReceivers, TakeU64, EncodeLE, EncodeReceivers;
    var receivers, fee, batch := EncodeReceivers(p.receivers), EncodeLE(p.feeAmount, 8), EncodeLE(p.batchId, 8);
    assert p.blockhash + b + Body(p) + rest == p.blockhash + (b + (receivers + (fee + (batch + rest))));
    TakeKeyAppend(p.blockhash, b + (receivers + (fee + (batch + rest))));
    UvarintRead(b, receivers + (fee + (batch + rest)), |p.receivers|, 0);
    ReceiversRoundTrip(p.receivers, fee + (batch + rest));
    TakeU64Append(p.feeAmount, batch + rest);
    TakeU64Append(p.batchId, rest);
  }

  /** A byte string is read as a payload if and only if it begins with that payload's bytes, its count written in
      any number of bytes. */
  lemma UnmarshalExactly(raw: bytes, p: SolanaPayload)
    ensures Unmarshal(raw) == Some(p) <==> exists h :: 1 <= h <= 10 && PayloadBytes(raw, p, h)
  {
    hide TakePayload, PayloadBytes, Body, IsUvarint;
    if Unmarshal(raw) == Some(p) {
      var rest := TakePayload(raw).value.rest;
      var b := PayloadTaken(raw, p, rest);
      WidthOf(b, |p.receivers|);
      Joined(raw, p, b, rest);
    }
    if h :| 1 <= h <= 10 && PayloadBytes(raw, p, h) {
      var rest := Split(raw, p, h);
      PayloadRead(p, raw[32..32 + h], rest);
    }
  }

  lemma WidthOf(b: bytes, n: nat)
    requires IsUvarint(b, n)
    ensures 1 <= |b| <= 10
  {
  }

  lemma Joined(raw: bytes, p: SolanaPayload, b: bytes, rest: bytes)
    requires IsUvarint(b, |p.receivers|) && raw == p.blockhash + b + Body(p) + rest
    ensures PayloadBytes(raw, p, |b|)
  {
    hide IsUvarint, EncodeLE, EncodeReceivers, PayloadBytes;
    var from, end := 32 + |b|, 48 + |b| + 42 * |p.receivers|;
    assert raw[..32] == p.blockhash && raw[32..from] == b && raw[from..end] == Body(p);
    PayloadExactly(raw, p, |b|);
  }

  lemma Split(raw: bytes, p: SolanaPayload, h: nat) returns (rest: bytes)
    requires PayloadBytes(raw, p, h)
    ensures 32 + h <= |raw| && IsUvarint(raw[32..32 + h], |p.receivers|)
    ensures raw == p.blockhash + raw[32..32 + h] + Body(p) + rest
  {
    PayloadExactly(raw, p, h);
    hide IsUvarint, Body, ReceiversFrom, LittleEndian;
    var from, end := 32 + h, 48 + h + 42 * |p.receivers|;
    rest := raw[end..];
    FourParts(raw, 32, from, end);
  }

  lemma FourParts(s: bytes, i: nat, j: nat, k: nat)
    requires i <= j <= k <= |s|
    ensures s == s[..i] + s[i..j] + s[j..k] + s[k..]
  {
  }

  // ---- what is written ----

  lemma {:induction false} LebIsUvarint(n: nat, at: nat)
    requires at <= 9 && n < 2 * Pow128(9 - at)
    ensures IsRestOfUvarint(Leb128(n), n, at)
    ensures n > 0 ==> Last(Leb128(n)) > 0
    ensures |Leb128(n)| > 1 ==> n > 0
  {
    if n >= 128 {
      assert at < 9 && Pow128(9 - at) == 128 * Pow128(9 - at - 1);
      LebIsUvarint(n / 128, at + 1);
      var b := Leb128(n);
      assert b[1..] == Leb128(n / 128) && Last(b) == Last(b[1..]);
    }
  }

  /** A marshalled payload is exactly its bytes, the count in its shortest form. */
  lemma MarshalExactly(p: SolanaPayload)
    requires |p.receivers| < U64_LIMIT
    ensures exists h :: && 1 <= h <= 10 && PayloadBytes(Marshal(p), p, h)
                        && |Marshal(p)| == 48 + h + 42 * |p.receivers|
                        && (h > 1 ==> Marshal(p)[31 + h] > 0)
  {
    hide EncodeLE, EncodeReceivers, PayloadBytes, Leb128, IsUvarint;
    Pow128Nine();
    var count := Leb128(|p.receivers|);
    LebIsUvarint(|p.receivers|, 0);
    CountWritten(count, |p.receivers|);
    assert Marshal(p) == p.blockhash + count + Body(p) + [];
    Joined(Marshal(p), p, count, []);
    assert Marshal(p)[31 + |count|] == Last(count);
  }

  lemma CountWritten(b: bytes, n: nat)
    requires IsRestOfUvarint(b, n, 0)
    ensures IsUvarint(b, n) && 1 <= |b| <= 10
  {
  }

  // ---- a known payload ----

  lemma NextDigit(q: nat, d: u8, n: nat)
    ensures EncodeLE(256 * q + d, n + 1) == [d] + EncodeLE(q, n)
  {
    ModUnique(256 * q + d, 256, q, d);
  }

  lemma NoDigits(n: nat)
    ensures n == 4 ==> EncodeLE(0, n) == [0, 0, 0, 0]
  {
  }

  lemma Billion()
    ensures EncodeLE(1000000000, 8) == [0x00, 0xca, 0x9a, 0x3b, 0, 0, 0, 0]
  {
    NoDigits(4);
    hide EncodeLE;
    NextDigit(3906250, 0x00, 7);
    NextDigit(15258, 0xca, 6);
    NextDigit(59, 0x9a, 5);
    NextDigit(0, 0x3b, 4);
  }

  lemma TwentyFiveAndOne()
    ensures EncodeLE(25, 2) == [0x19, 0x00]
    ensures EncodeLE(1, 8) == [0x01, 0, 0, 0, 0, 0, 0, 0]
  {
    NoDigits(4);
    hide EncodeLE;
    NextDigit(0, 0x19, 1);
    NextDigit(0, 0, 0);
    NextDigit(0, 0x01, 7);
    NextDigit(0, 0, 6);
    NextDigit(0, 0, 5);
    NextDigit(0, 0, 4);
  }

  lemma OneReceiver(r: Receiver)
    ensures EncodeReceivers([r]) == EncodeReceiver(r) && Leb128(1) == [1]
  {
    hide EncodeReceiver;
    assert [r][1..] == [] && EncodeReceiver(r) + [] == EncodeReceiver(r);
  }

  /** One receiver of 1000000000 units of token 25, a fee of as much, batch 1: whatever hash and address they
      come with, these are the bytes written, and they are read back. */
  lemma KnownPayload(hash: Key, address: Key)
    ensures var p := SolanaPayload(hash, [Receiver(address, TokenAmount(25, 1000000000))], 1000000000, 1);
            var raw := hash + [0x01] + address + [0x19, 0x00] + [0x00, 0xca, 0x9a, 0x3b, 0, 0, 0, 0]
                       + [0x00, 0xca, 0x9a, 0x3b, 0, 0, 0, 0] + [0x01, 0, 0, 0, 0, 0, 0, 0];
            Marshal(p) == raw && Unmarshal(raw) == Some(p)
  {
    var receiver := Receiver(address, TokenAmount(25, 1000000000));
    var p := SolanaPayload(hash, [receiver], 1000000000, 1);
    Billion();
    TwentyFiveAndOne();
    OneReceiver(receiver);
    PayloadRoundTrip(p, []);
    Regroup(hash, [1], address, EncodeLE(25, 2), EncodeLE(1000000000, 8), EncodeLE(1, 8));
    hide EncodeLE, EncodeReceivers, Leb128, Unmarshal;
    assert Marshal(p) + [] == Marshal(p);
  }

  lemma Regroup(a: bytes, b: bytes, c: bytes, d: bytes, e: bytes, f: bytes)
    ensures a + b + (c + (d + e)) + e + f == a + b + c + d + e + e + f
  {
  }
}
