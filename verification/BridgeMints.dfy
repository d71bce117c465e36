/** Mint deduplication for a batch, and the account list built from it. */
module BridgeMints {
  import opened Sequences
  import opened Bytes
  import opened Payload
  import opened Accounts

  datatype TransferItem = TransferItem(recipient: Key, mintIndex: u8, amount: u64)

  /** The batch's mints in first-seen order, the token id each was first seen with, and one transfer per
      receiver naming its mint by index. */
  datatype Derived = Derived(mints: seq<Key>, tokenIds: seq<u16>, items: seq<TransferItem>)

  datatype MintError = InvalidAddress | CountMismatch | NoProgramAddress

  /** The registered mint of a token; an unregistered one reads as the zero key. */
  function MintOf(registered: map<u16, Key>, receiver: Receiver): Key {
    var id := receiver.tokenAmount.tokenId;
    if id in registered then registered[id] else Zeros(32)
  }

  function MintsOf(registered: map<u16, Key>, receivers: seq<Receiver>): (r: seq<Key>)
    ensures |r| == |receivers|
    ensures forall i :: 0 <= i < |r| ==> r[i] == MintOf(registered, receivers[i])
  {
    seq(|receivers|, i requires 0 <= i < |receivers| => MintOf(registered, receivers[i]))
  }

  /** Position of the first occurrence; the length when there is none. */
  function Position(mints: seq<Key>, mint: Key): (r: nat)
    ensures r <= |mints|
    ensures r < |mints| ==> mints[r] == mint
    ensures forall i :: 0 <= i < r ==> mints[i] != mint
  {
    if mints == [] || mints[0] == mint then 0 else 1 + Position(mints[1..], mint)
  }

  /** One more receiver. A mint's index is kept in one byte. */
  function Next(registered: map<u16, Key>, d: Derived, receiver: Receiver): Derived {
    var mint := MintOf(registered, receiver);
    var item := TransferItem(receiver.address, Position(d.mints, mint) % 256, receiver.tokenAmount.amount);
    if mint in d.mints then d.(items := d.items + [item])
    else Derived(d.mints + [mint], d.tokenIds + [receiver.tokenAmount.tokenId], d.items + [item])
  }

  /** What the receivers so far derive to. */
  function DerivedFrom(registered: map<u16, Key>, receivers: seq<Receiver>): Derived {
    if receivers == [] then Derived([], [], [])
    else Next(registered, DerivedFrom(registered, receivers[..|receivers| - 1]), Last(receivers))
  }

  /** Every mint seen so far maps to its position, in one byte. */
  ghost predicate IndexOk(mintIndex: map<Key, u8>, mints: seq<Key>) {
    && (forall m: Key :: m in mintIndex <==> m in mints)
    && (forall m: Key :: m in mintIndex ==> mintIndex[m] == Position(mints, m) % 256)
  }

  lemma IndexGrows(mintIndex: map<Key, u8>, mints: seq<Key>, mint: Key)
    requires IndexOk(mintIndex, mints) && mint !in mints
    ensures IndexOk(mintIndex[mint := |mints| % 256], mints + [mint])
    ensures Position(mints, mint) == |mints|
  {
    forall m: Key
      ensures Position(mints + [mint], m) == if m in mints then Position(mints, m) else if m == mint then |mints| else |mints| + 1
    {
      PositionSnoc(mints, mint, m);
    }
    PositionMember(mints, mint);
  }

  lemma PositionMember(mints: seq<Key>, m: Key)
    ensures m in mints <==> Position(mints, m) < |mints|
  {
    var p := Position(mints, m);
    assert p < |mints| ==> mints[p] in mints;
  }

  lemma {:induction false} PositionSnoc(mints: seq<Key>, mint: Key, m: Key)
    ensures Position(mints + [mint], m)
            == if m in mints then Position(mints, m) else if m == mint then |mints| else |mints| + 1
  {
    if mints != [] {
      PositionSnoc(mints[1..], mint, m);
      assert (mints + [mint])[1..] == mints[1..] + [mint];
    }
  }

  method DeriveBridgeMintsAndTransfers(receivers: seq<Receiver>, registered: map<u16, Key>,
                                       valid: Key -> bool) returns (r: Result<Derived, MintError>)
    ensures (forall i :: 0 <= i < |receivers| ==> valid(receivers[i].address)) ==>
              r == Ok(DerivedFrom(registered, receivers))
    ensures (exists i :: 0 <= i < |receivers| && !valid(receivers[i].address)) ==> r == Err(InvalidAddress)
  {
    hide Position, IndexOk, DerivedFrom, MintOf;
    NothingDerived(registered);
    var mintIndex: map<Key, u8> := map[];
    var d := Derived([], [], []);
    assert IndexOk(mintIndex, d.mints) by { NoIndexYet(); }
    for i := 0 to |receivers|
      invariant d == DerivedFrom(registered, receivers[..i])
      invariant IndexOk(mintIndex, d.mints)
      invariant forall j :: 0 <= j < i ==> valid(receivers[j].address)
    {
      DerivedNext(registered, receivers, i);
      var receiver := receivers[i];
      if !valid(receiver.address) {
        return Err(InvalidAddress);
      }
      var mint := MintOf(registered, receiver);
      IndexFacts(mintIndex, d.mints, mint);
      var idx: u8, mints, tokenIds := 0, d.mints, d.tokenIds;
      if mint in mintIndex {
        idx := mintIndex[mint];
      } else {
        idx := |mints| % 256;
        mintIndex := mintIndex[mint := idx];
        mints := mints + [mint];
        tokenIds := tokenIds + [receiver.tokenAmount.tokenId];
      }
      d := Derived(mints, tokenIds, d.items + [TransferItem(receiver.address, idx, receiver.tokenAmount.amount)]);
    }
    assert receivers[..|receivers|] == receivers;
    return Ok(d);
  }

  lemma NothingDerived(registered: map<u16, Key>)
    ensures DerivedFrom(registered, []) == Derived([], [], [])
  {
  }

  lemma DerivedNext(registered: map<u16, Key>, receivers: seq<Receiver>, i: nat)
    requires i < |receivers|
    ensures DerivedFrom(registered, receivers[..i + 1])
            == Next(registered, DerivedFrom(registered, receivers[..i]), receivers[i])
  {
    hide Next;
    assert receivers[..i + 1][..i] == receivers[..i];
  }

  lemma NoIndexYet()
    ensures IndexOk(map[], [])
  {
  }

  /** What a lookup answers, and what recording a new mint keeps. */
  lemma IndexFacts(mintIndex: map<Key, u8>, mints: seq<Key>, mint: Key)
    requires IndexOk(mintIndex, mints)
    ensures mint in mintIndex <==> mint in mints
    ensures mint in mintIndex ==> mintIndex[mint] == Position(mints, mint) % 256
    ensures mint !in mints ==>
              Position(mints, mint) == |mints| && IndexOk(mintIndex[mint := |mints| % 256], mints + [mint])
  {
    if mint !in mints {
      IndexGrows(mintIndex, mints, mint);
    }
  }

  // ---- what the derivation means ----

  /** The mints are the registered mints of the receivers, each once, in first-seen order. */
  lemma {:induction false} MintsAreDistinct(registered: map<u16, Key>, receivers: seq<Receiver>)
    ensures var d := DerivedFrom(registered, receivers);
            && d.mints == Distinct(MintsOf(registered, receivers)) && NoRepeats(d.mints)
            && |d.tokenIds| == |d.mints| <= |receivers| && |d.items| == |receivers|
  {
    if receivers == [] {
      NothingDerived(registered);
      assert MintsOf(registered, []) == [];
    } else {
      hide DerivedFrom, Next, Position, NoRepeats, Distinct, MintsOf, MintOf;
      var front := receivers[..|receivers| - 1];
      MintsAreDistinct(registered, front);
      MintsSnoc(registered, receivers);
      DerivedNext(registered, receivers, |receivers| - 1);
      assert receivers[..|receivers|] == receivers;
      NextKeepsDistinct(registered, DerivedFrom(registered, front), MintsOf(registered, front), Last(receivers));
      DistinctSound(MintsOf(registered, receivers));
    }
  }

  lemma NextKeepsDistinct(registered: map<u16, Key>, d: Derived, mints: seq<Key>, receiver: Receiver)
    requires d.mints == Distinct(mints)
    ensures var d', mint := Next(registered, d, receiver), MintOf(registered, receiver);
            && d'.mints == Distinct(mints + [mint])
            && |d'.tokenIds| - |d'.mints| == |d.tokenIds| - |d.mints| && |d'.items| == |d.items| + 1
  {
    hide Position, Distinct, MintOf;
    DistinctSound(mints);
    DistinctSnoc(mints, MintOf(registered, receiver));
  }

  lemma MintsSnoc(registered: map<u16, Key>, receivers: seq<Receiver>)
    requires receivers != []
    ensures MintsOf(registered, receivers)
            == MintsOf(registered, receivers[..|receivers| - 1]) + [MintOf(registered, Last(receivers))]
  {
  }

  /** The token id recorded for mint k is that of the first receiver whose mint it is. */
  lemma {:induction false} TokenIdIsFirstUse(registered: map<u16, Key>, receivers: seq<Receiver>, k: nat)
    requires k < |DerivedFrom(registered, receivers).mints|
    ensures var d := DerivedFrom(registered, receivers);
            var j := Position(MintsOf(registered, receivers), d.mints[k]);
            && |d.tokenIds| == |d.mints|
            && j < |receivers| && d.tokenIds[k] == receivers[j].tokenAmount.tokenId
  {
    hide Position, NoRepeats, Distinct, MintsOf;
    var front, mint := receivers[..|receivers| - 1], MintOf(registered, Last(receivers));
    var d, d' := DerivedFrom(registered, front), DerivedFrom(registered, receivers);
    MintsAreDistinct(registered, front);
    DistinctSound(MintsOf(registered, front));
    MintsSnoc(registered, receivers);
    PositionSnoc(MintsOf(registered, front), mint, d'.mints[k]);
    if k < |d.mints| {
      assert d'.mints[k] == d.mints[k] && d.mints[k] in d.mints;
      TokenIdIsFirstUse(registered, front, k);
    }
  }

  /** Transfer i pays receiver i its amount, and names its mint's position in one byte. */
  lemma {:induction false} ItemsFollowReceivers(registered: map<u16, Key>, receivers: seq<Receiver>, i: nat)
    requires i < |receivers|
    ensures var d := DerivedFrom(registered, receivers);
            var mint := MintOf(registered, receivers[i]);
            && |d.items| == |receivers| && mint in d.mints
            && d.items[i] == TransferItem(receivers[i].address, Position(d.mints, mint) % 256,
                                          receivers[i].tokenAmount.amount)
  {
    hide Position, NoRepeats, Distinct, MintsOf, MintOf;
    var front, last := receivers[..|receivers| - 1], Last(receivers);
    var d, mint := DerivedFrom(registered, front), MintOf(registered, receivers[i]);
    MintsAreDistinct(registered, front);
    if MintOf(registered, last) !in d.mints {
      PositionSnoc(d.mints, MintOf(registered, last), mint);
      PositionMember(d.mints, MintOf(registered, last));
    }
    if i < |front| {
      ItemsFollowReceivers(registered, front, i);
    }
  }

  /** The mint registered for a token id is this one; an id without one stands for the zero key. */
  predicate IsRegisteredAs(registered: map<u16, Key>, id: u16, mint: Key) {
    if id in registered then mint == registered[id] else forall b :: b in mint ==> b == 0
  }

  lemma MintIsRegistered(registered: map<u16, Key>, receiver: Receiver, mint: Key)
    ensures MintOf(registered, receiver) == mint <==> IsRegisteredAs(registered, receiver.tokenAmount.tokenId, mint)
  {
    ZerosOnly(mint);
  }

  /** Transfer i names its receiver's registered mint. */
  ghost predicate NamesItsMint(registered: map<u16, Key>, receivers: seq<Receiver>, i: nat)
    requires i < |receivers|
  {
    var d := DerivedFrom(registered, receivers);
    && |d.items| == |receivers|
    && d.items[i].mintIndex < |d.mints|
    && IsRegisteredAs(registered, receivers[i].tokenAmount.tokenId, d.mints[d.items[i].mintIndex])
  }

  /** Every transfer names its receiver's registered mint if and only if the batch has at most 256 distinct
      mints. */
  lemma IndicesNameMints(registered: map<u16, Key>, receivers: seq<Receiver>)
    ensures (forall i :: 0 <= i < |receivers| ==> NamesItsMint(registered, receivers, i))
            <==> |DerivedFrom(registered, receivers).mints| <= 256
  {
    hide DerivedFrom, Distinct, Position, MintsOf, NoRepeats, MintOf, NamesItsMint;
    if |DerivedFrom(registered, receivers).mints| <= 256 {
      forall i | 0 <= i < |receivers|
        ensures NamesItsMint(registered, receivers, i)
      {
        IndexNamesMint(registered, receivers, i);
      }
    } else {
      WrappedIndex(registered, receivers);
    }
  }

  lemma IndexNamesMint(registered: map<u16, Key>, receivers: seq<Receiver>, i: nat)
    requires |DerivedFrom(registered, receivers).mints| <= 256 && i < |receivers|
    ensures NamesItsMint(registered, receivers, i)
  {
    hide DerivedFrom, Distinct, MintsOf, NoRepeats, MintOf;
    ItemsFollowReceivers(registered, receivers, i);
    PositionMember(DerivedFrom(registered, receivers).mints, MintOf(registered, receivers[i]));
    MintIsRegistered(registered, receivers[i], MintOf(registered, receivers[i]));
  }

  /** A derived batch has one transfer for each receiver, in order: to its address, of its amount, and, with at
      most 256 distinct mints, naming the mint registered for its token id. */
  lemma TransfersFollowReceivers(registered: map<u16, Key>, receivers: seq<Receiver>)
    ensures var d := DerivedFrom(registered, receivers);
            && |d.items| == |receivers|
            && (forall i :: 0 <= i < |receivers| ==>
                  d.items[i].recipient == receivers[i].address && d.items[i].amount == receivers[i].tokenAmount.amount)
            && (|d.mints| <= 256 ==>
                  forall i :: 0 <= i < |receivers| ==>
                    && d.items[i].mintIndex < |d.mints|
                    && IsRegisteredAs(registered, receivers[i].tokenAmount.tokenId, d.mints[d.items[i].mintIndex]))
  {
    hide DerivedFrom, Position, IsRegisteredAs, MintOf;
    var d := DerivedFrom(registered, receivers);
    MintsAreDistinct(registered, receivers);
    forall i | 0 <= i < |receivers|
      ensures d.items[i].recipient == receivers[i].address && d.items[i].amount == receivers[i].tokenAmount.amount
      ensures |d.mints| <= 256 ==> NamesItsMint(registered, receivers, i)
    {
      ItemsFollowReceivers(registered, receivers, i);
      if |d.mints| <= 256 {
        IndexNamesMint(registered, receivers, i);
      }
    }
  }

  /** The mint seen 257th is given index 0, which names the first mint. */
  lemma WrappedIndex(registered: map<u16, Key>, receivers: seq<Receiver>)
    requires |DerivedFrom(registered, receivers).mints| > 256
    ensures exists i :: 0 <= i < |receivers| && !NamesItsMint(registered, receivers, i)
  {
    hide DerivedFrom, Distinct, Position, MintsOf, IsRegisteredAs, MintOf;
    var d := DerivedFrom(registered, receivers);
    MintsAreDistinct(registered, receivers);
    var i := Position(MintsOf(registered, receivers), d.mints[256]);
    TokenIdIsFirstUse(registered, receivers, 256);
    ItemsFollowReceivers(registered, receivers, i);
    PositionInDistinct(d.mints, 256);
    assert d.mints[0] != d.mints[256];
    MintIsRegistered(registered, receivers[i], d.mints[0]);
    assert !NamesItsMint(registered, receivers, i);
  }

  lemma PositionInDistinct(mints: seq<Key>, k: nat)
    requires NoRepeats(mints) && k < |mints|
    ensures Position(mints, mints[k]) == k
  {
  }

  // ---- amounts ----

  function ReceivedOf(registered: map<u16, Key>, receivers: seq<Receiver>, mint: Key): nat {
    if receivers == [] then 0
    else
      ReceivedOf(registered, receivers[..|receivers| - 1], mint)
      + if IsRegisteredAs(registered, Last(receivers).tokenAmount.tokenId, mint)
        then Last(receivers).tokenAmount.amount else 0
  }

  function TransferredOf(mints: seq<Key>, items: seq<TransferItem>, mint: Key): nat
    requires forall i :: 0 <= i < |items| ==> items[i].mintIndex < |mints|
  {
    if items == [] then 0
    else
      TransferredOf(mints, items[..|items| - 1], mint)
      + if mints[Last(items).mintIndex] == mint then Last(items).amount else 0
  }

  /** With at most 256 distinct mints, each mint's transfers add up to what its receivers are due. */
  lemma AmountsAreConserved(registered: map<u16, Key>, receivers: seq<Receiver>, mint: Key)
    requires |DerivedFrom(registered, receivers).mints| <= 256
    ensures var d := DerivedFrom(registered, receivers);
            && (forall i :: 0 <= i < |d.items| ==> d.items[i].mintIndex < |d.mints|)
            && TransferredOf(d.mints, d.items, mint) == ReceivedOf(registered, receivers, mint)
  {
    hide DerivedFrom, Position, MintOf, IsRegisteredAs, Distinct, MintsOf, NoRepeats, ReceivedOf, TransferredOf;
    var d := DerivedFrom(registered, receivers);
    MintsAreDistinct(registered, receivers);
    forall i | 0 <= i < |receivers|
      ensures d.items[i].mintIndex < |d.mints| && d.mints[d.items[i].mintIndex] == MintOf(registered, receivers[i])
      ensures d.items[i].amount == receivers[i].tokenAmount.amount
    {
      ItemsFollowReceivers(registered, receivers, i);
      IndexNamesMint(registered, receivers, i);
      MintIsRegistered(registered, receivers[i], d.mints[d.items[i].mintIndex]);
    }
    SameSums(d.mints, d.items, registered, receivers, mint);
  }

  lemma {:induction false} SameSums(mints: seq<Key>, items: seq<TransferItem>, registered: map<u16, Key>,
                                    receivers: seq<Receiver>, mint: Key)
    requires |items| == |receivers|
    requires forall i :: 0 <= i < |items| ==> items[i].mintIndex < |mints|
    requires forall i :: 0 <= i < |items| ==> mints[items[i].mintIndex] == MintOf(registered, receivers[i])
    requires forall i :: 0 <= i < |items| ==> items[i].amount == receivers[i].tokenAmount.amount
    ensures TransferredOf(mints, items, mint) == ReceivedOf(registered, receivers, mint)
  {
    hide IsRegisteredAs, MintOf;
    if items != [] {
      MintIsRegistered(registered, Last(receivers), mint);
      SameSums(mints, items[..|items| - 1], registered, receivers[..|receivers| - 1], mint);
    }
  }

  // ---- the account list ----

  /** Program-derived addresses: a token's registry and an owner's token account for a mint. */
  datatype Addresses = Addresses(registry: u16 -> Option<Key>, tokenAccount: (Key, Key) -> Option<Key>, vault: Key)

  /** Every derived address the list needs exists. */
  predicate Derivable(a: Addresses, mints: seq<Key>, tokenIds: seq<u16>, transfers: seq<TransferItem>)
    requires |tokenIds| == |mints|
    requires forall i :: 0 <= i < |transfers| ==> transfers[i].mintIndex < |mints|
  {
    && (forall i :: 0 <= i < |mints| ==> a.registry(tokenIds[i]).Some? && a.tokenAccount(a.vault, mints[i]).Some?)
    && (forall i :: 0 <= i < |transfers| ==>
          a.tokenAccount(transfers[i].recipient, mints[transfers[i].mintIndex]).Some?)
  }

  function Metas(keys: seq<Key>, writable: bool): (r: seq<AccountMeta>)
    ensures |r| == |keys|
    ensures forall i :: 0 <= i < |r| ==> r[i] == AccountMeta(keys[i], writable, false)
  {
    seq(|keys|, i requires 0 <= i < |keys| => AccountMeta(keys[i], writable, false))
  }

  lemma MetasSnoc(keys: seq<Key>, key: Key, writable: bool)
    ensures Metas(keys, writable) + [AccountMeta(key, writable, false)] == Metas(keys + [key], writable)
  {
  }

  /** The derived addresses the list needs, all of which exist. */
  ghost predicate Found(a: Addresses, mints: seq<Key>, tokenIds: seq<u16>, transfers: seq<TransferItem>,
                        registries: seq<Key>, accounts: seq<Key>, vaults: seq<Key>)
    requires |tokenIds| == |mints|
    requires forall i :: 0 <= i < |transfers| ==> transfers[i].mintIndex < |mints|
  {
    && |registries| <= |mints| && |accounts| <= |transfers| && |vaults| <= |mints|
    && (forall i :: 0 <= i < |registries| ==> a.registry(tokenIds[i]) == Some(registries[i]))
    && (forall i :: 0 <= i < |accounts| ==>
          a.tokenAccount(transfers[i].recipient, mints[transfers[i].mintIndex]) == Some(accounts[i]))
    && (forall i :: 0 <= i < |vaults| ==> a.tokenAccount(a.vault, mints[i]) == Some(vaults[i]))
  }

  function Recipients(transfers: seq<TransferItem>): (r: seq<Key>)
    ensures |r| == |transfers|
    ensures forall i :: 0 <= i < |r| ==> r[i] == transfers[i].recipient
  {
    seq(|transfers|, i requires 0 <= i < |transfers| => transfers[i].recipient)
  }

  /** The segments of the list and where each begins: mints, recipients, token registries, recipients' token
      accounts, vault token accounts. */
  ghost predicate LaidOut(a: Addresses, mints: seq<Key>, tokenIds: seq<u16>, transfers: seq<TransferItem>,
                          out: seq<AccountMeta>)
    requires |tokenIds| == |mints|
    requires forall i :: 0 <= i < |transfers| ==> transfers[i].mintIndex < |mints|
  {
    var m, n := |mints|, |transfers|;
    && |out| == 3 * m + 2 * n
    && (forall i :: 0 <= i < m ==> out[i] == AccountMeta(mints[i], true, false))
    && (forall i :: 0 <= i < n ==> out[m + i] == AccountMeta(transfers[i].recipient, false, false))
    && (forall i :: 0 <= i < m ==>
          a.registry(tokenIds[i]).Some?
          && out[m + n + i] == AccountMeta(a.registry(tokenIds[i]).value, false, false))
    && (forall i :: 0 <= i < n ==>
          var account := a.tokenAccount(transfers[i].recipient, mints[transfers[i].mintIndex]);
          account.Some? && out[2 * m + n + i] == AccountMeta(account.value, true, false))
    && (forall i :: 0 <= i < m ==>
          a.tokenAccount(a.vault, mints[i]).Some?
          && out[2 * m + 2 * n + i] == AccountMeta(a.tokenAccount(a.vault, mints[i]).value, true, false))
  }

  lemma SegmentsLieAtOffsets(a: Addresses, mints: seq<Key>, tokenIds: seq<u16>, transfers: seq<TransferItem>,
                             registries: seq<Key>, accounts: seq<Key>, vaults: seq<Key>)
    requires |tokenIds| == |mints|
    requires forall i :: 0 <= i < |transfers| ==> transfers[i].mintIndex < |mints|
    requires Found(a, mints, tokenIds, transfers, registries, accounts, vaults)
    requires |registries| == |vaults| == |mints| && |accounts| == |transfers|
    ensures LaidOut(a, mints, tokenIds, transfers,
                    Metas(mints, true) + Metas(Recipients(transfers), false) + Metas(registries, false)
                    + Metas(accounts, true) + Metas(vaults, true))
    ensures Derivable(a, mints, tokenIds, transfers)
  {
    hide Metas, Recipients, Found, KeysAt, LaidOut, Derivable;
    var out := Metas(mints, true) + Metas(Recipients(transfers), false) + Metas(registries, false)
    + Metas(accounts, true) + Metas(vaults, true);
    JoinedKeysAt(mints, Recipients(transfers), registries, accounts, vaults);
    LaidOutFromKeys(a, mints, tokenIds, transfers, registries, accounts, vaults, out);
  }

  lemma JoinedKeysAt(mints: seq<Key>, recipients: seq<Key>, registries: seq<Key>, accounts: seq<Key>,
                     vaults: seq<Key>)
    requires |registries| == |vaults| == |mints| && |accounts| == |recipients|
    ensures KeysAt(Metas(mints, true) + Metas(recipients, false) + Metas(registries, false) + Metas(accounts, true)
                   + Metas(vaults, true),
                   mints, recipients, registries, accounts, vaults)
  {
    hide Metas, KeysAt;
    FiveSegments(Metas(mints, true), Metas(recipients, false), Metas(registries, false), Metas(accounts, true),
                 Metas(vaults, true));
    KeysAtFromSegments(Metas(mints, true) + Metas(recipients, false) + Metas(registries, false)
                       + Metas(accounts, true) + Metas(vaults, true),
                       mints, recipients, registries, accounts, vaults);
  }

  lemma KeysAtFromSegments(out: seq<AccountMeta>, mints: seq<Key>, recipients: seq<Key>, registries: seq<Key>,
                           accounts: seq<Key>, vaults: seq<Key>)
    requires |registries| == |vaults| == |mints| && |accounts| == |recipients|
    requires |out| == 3 * |mints| + 2 * |recipients|
    requires out[0..|mints|] == Metas(mints, true)
    requires out[|mints|..|mints| + |recipients|] == Metas(recipients, false)
    requires out[|mints| + |recipients|..2 * |mints| + |recipients|] == Metas(registries, false)
    requires out[2 * |mints| + |recipients|..2 * |mints| + 2 * |recipients|] == Metas(accounts, true)
    requires out[2 * |mints| + 2 * |recipients|..3 * |mints| + 2 * |recipients|] == Metas(vaults, true)
    ensures KeysAt(out, mints, recipients, registries, accounts, vaults)
  {
    hide Metas;
    var m, n := |mints|, |recipients|;
    SegmentKeys(out, 0, mints, true);
    SegmentKeys(out, m, recipients, false);
    SegmentKeys(out, m + n, registries, false);
    SegmentKeys(out, 2 * m + n, accounts, true);
    SegmentKeys(out, 2 * m + 2 * n, vaults, true);
  }

  lemma SegmentKeys(out: seq<AccountMeta>, offset: nat, keys: seq<Key>, writable: bool)
    requires offset + |keys| <= |out| && out[offset..offset + |keys|] == Metas(keys, writable)
    ensures forall i :: 0 <= i < |keys| ==> out[offset + i] == AccountMeta(keys[i], writable, false)
  {
    hide Metas;
    forall i | 0 <= i < |keys|
      ensures out[offset + i] == AccountMeta(keys[i], writable, false)
    {
      assert out[offset..offset + |keys|][i] == out[offset + i];
    }
  }

  ghost predicate KeysAt(out: seq<AccountMeta>, mints: seq<Key>, recipients: seq<Key>, registries: seq<Key>,
                         accounts: seq<Key>, vaults: seq<Key>)
    requires |registries| == |vaults| == |mints| && |accounts| == |recipients|
  {
    var m, n := |mints|, |recipients|;
    && |out| == 3 * m + 2 * n
    && (forall i :: 0 <= i < m ==> out[i] == AccountMeta(mints[i], true, false))
    && (forall i :: 0 <= i < n ==> out[m + i] == AccountMeta(recipients[i], false, false))
    && (forall i :: 0 <= i < m ==> out[m + n + i] == AccountMeta(registries[i], false, false))
    && (forall i :: 0 <= i < n ==> out[2 * m + n + i] == AccountMeta(accounts[i], true, false))
    && (forall i :: 0 <= i < m ==> out[2 * m + 2 * n + i] == AccountMeta(vaults[i], true, false))
  }

  lemma LaidOutFromKeys(a: Addresses, mints: seq<Key>, tokenIds: seq<u16>, transfers: seq<TransferItem>,
                        registries: seq<Key>, accounts: seq<Key>, vaults: seq<Key>, out: seq<AccountMeta>)
    requires |tokenIds| == |mints|
    requires forall i :: 0 <= i < |transfers| ==> transfers[i].mintIndex < |mints|
    requires Found(a, mints, tokenIds, transfers, registries, accounts, vaults)
    requires |registries| == |vaults| == |mints| && |accounts| == |transfers|
    requires KeysAt(out, mints, Recipients(transfers), registries, accounts, vaults)
    ensures LaidOut(a, mints, tokenIds, transfers, out)
    ensures Derivable(a, mints, tokenIds, transfers)
  {
  }

  lemma FiveSegments(a: seq<AccountMeta>, b: seq<AccountMeta>, c: seq<AccountMeta>, d: seq<AccountMeta>,
                     e: seq<AccountMeta>)
    ensures var out := a + b + c + d + e;
            && out[0..|a|] == a
            && out[|a|..|a| + |b|] == b
            && out[|a| + |b|..|a| + |b| + |c|] == c
            && out[|a| + |b| + |c|..|a| + |b| + |c| + |d|] == d
            && out[|a| + |b| + |c| + |d|..|a| + |b| + |c| + |d| + |e|] == e
  {
    var two, three, four := a + b, a + b + c, a + b + c + d;
    assert a + b + c + d + e == four + e;
    assert four[..|three|] == three && three[..|two|] == two;
  }

  method BridgeTransactionRemainingAccounts(a: Addresses, mints: seq<Key>, tokenIds: seq<u16>,
                                            transfers: seq<TransferItem>)
    returns (r: Result<seq<AccountMeta>, MintError>)
    requires forall i :: 0 <= i < |transfers| ==> transfers[i].mintIndex < |mints|
    ensures |tokenIds| != |mints| <==> r == Err(CountMismatch)
    ensures r.Ok? <==> |tokenIds| == |mints| && Derivable(a, mints, tokenIds, transfers)
    ensures r.Ok? ==> LaidOut(a, mints, tokenIds, transfers, r.value)
  {
    if |tokenIds| != |mints| {
      return Err(CountMismatch);
    }
    hide Metas, LaidOut;
    var out: seq<AccountMeta> := [];
    ghost var registries: seq<Key>, accounts: seq<Key>, vaults: seq<Key> := [], [], [];
    for i := 0 to |mints|
      invariant out == Metas(mints[..i], true)
    {
      MetasSnoc(mints[..i], mints[i], true);
      assert mints[..i + 1] == mints[..i] + [mints[i]];
      out := out + [AccountMeta(mints[i], true, false)];
    }
    ghost var before, recipients := out, Recipients(transfers);
    assert mints[..|mints|] == mints;
    for i := 0 to |transfers|
      invariant out == before + Metas(recipients[..i], false)
    {
      MetasSnoc(recipients[..i], recipients[i], false);
      assert recipients[..i + 1] == recipients[..i] + [recipients[i]];
      out := out + [AccountMeta(transfers[i].recipient, false, false)];
    }
    assert recipients[..|transfers|] == recipients;
    before := out;
    for i := 0 to |mints|
      invariant out == before + Metas(registries, false) && |registries| == i
      invariant Found(a, mints, tokenIds, transfers, registries, [], [])
    {
      var registry := a.registry(tokenIds[i]);
      if registry.None? {
        return Err(NoProgramAddress);
      }
      MetasSnoc(registries, registry.value, false);
      registries := registries + [registry.value];
      out := out + [AccountMeta(registry.value, false, false)];
    }
    before := out;
    for i := 0 to |transfers|
      invariant out == before + Metas(accounts, true) && |accounts| == i
      invariant Found(a, mints, tokenIds, transfers, registries, accounts, [])
    {
      var account := a.tokenAccount(transfers[i].recipient, mints[transfers[i].mintIndex]);
      if account.None? {
        return Err(NoProgramAddress);
      }
      MetasSnoc(accounts, account.value, true);
      accounts := accounts + [account.value];
      out := out + [AccountMeta(account.value, true, false)];
    }
    before := out;
    for i := 0 to |mints|
      invariant out == before + Metas(vaults, true) && |vaults| == i
      invariant Found(a, mints, tokenIds, transfers, registries, accounts, vaults)
    {
      var account := a.tokenAccount(a.vault, mints[i]);
      if account.None? {
        return Err(NoProgramAddress);
      }
      MetasSnoc(vaults, account.value, true);
      vaults := vaults + [account.value];
      out := out + [AccountMeta(account.value, true, false)];
    }
    SegmentsLieAtOffsets(a, mints, tokenIds, transfers, registries, accounts, vaults);
    return Ok(out);
  }

  /** The account list of a derived batch holds, for receiver i, at position 2m + n + i the token account of
      that receiver's address for its registered mint. */
  lemma AccountsFollowReceivers(a: Addresses, registered: map<u16, Key>, receivers: seq<Receiver>, i: nat,
                                out: seq<AccountMeta>)
    requires i < |receivers| && |DerivedFrom(registered, receivers).mints| <= 256
    requires var d := DerivedFrom(registered, receivers);
             && |d.tokenIds| == |d.mints|
             && (forall k :: 0 <= k < |d.items| ==> d.items[k].mintIndex < |d.mints|)
             && LaidOut(a, d.mints, d.tokenIds, d.items, out)
    ensures var m := |DerivedFrom(registered, receivers).mints|;
            && |out| == 3 * m + 2 * |receivers|
            && forall mint: Key :: IsRegisteredAs(registered, receivers[i].tokenAmount.tokenId, mint) ==>
                 var account := a.tokenAccount(receivers[i].address, mint);
                 account.Some? && out[2 * m + |receivers| + i] == AccountMeta(account.value, true, false)
  {
    hide DerivedFrom, LaidOut, IsRegisteredAs, MintOf;
    AccountOfReceiver(a, registered, receivers, i, out);
    forall mint: Key | IsRegisteredAs(registered, receivers[i].tokenAmount.tokenId, mint)
      ensures var account := a.tokenAccount(receivers[i].address, mint);
              account.Some? && out[2 * |DerivedFrom(registered, receivers).mints| + |receivers| + i]
                               == AccountMeta(account.value, true, false)
    {
      MintIsRegistered(registered, receivers[i], mint);
    }
  }

  lemma AccountOfReceiver(a: Addresses, registered: map<u16, Key>, receivers: seq<Receiver>, i: nat,
                          out: seq<AccountMeta>)
    requires i < |receivers| && |DerivedFrom(registered, receivers).mints| <= 256
    requires var d := DerivedFrom(registered, receivers);
             && |d.tokenIds| == |d.mints|
             && (forall k :: 0 <= k < |d.items| ==> d.items[k].mintIndex < |d.mints|)
             && LaidOut(a, d.mints, d.tokenIds, d.items, out)
    ensures var m := |DerivedFrom(registered, receivers).mints|;
            var account := a.tokenAccount(receivers[i].address, MintOf(registered, receivers[i]));
            && |out| == 3 * m + 2 * |receivers|
            && account.Some? && out[2 * m + |receivers| + i] == AccountMeta(account.value, true, false)
  {
    hide DerivedFrom, Distinct, MintsOf, NoRepeats, MintOf, Position, IsRegisteredAs;
    MintsAreDistinct(registered, receivers);
    ItemsFollowReceivers(registered, receivers, i);
    IndexNamesMint(registered, receivers, i);
    MintIsRegistered(registered, receivers[i],
                     DerivedFrom(registered, receivers).mints[DerivedFrom(registered, receivers).items[i].mintIndex]);
  }
}
