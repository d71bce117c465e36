/** Planning how to extend an address lookup table: deduplication, chunking, the instruction bytes, and what
    the table holds once they are applied. */
module LookupTable {
  import opened Sequences
  import opened Bytes
  import opened Accounts

  /** The most addresses one extend instruction carries. */
  const MAX_PER_INSTRUCTION := 20

  const EXTEND_DISCRIMINATOR: u32 := 2

  datatype PlanError = NoFetcher | FetchFailed

  datatype Instruction = Instruction(accounts: seq<AccountMeta>, data: bytes)

  /** What fetching the table answers: a failure, or its state, absent for a table that does not exist. */
  datatype Fetched = Failed | State(addresses: Option<seq<Key>>)

  // ---- which addresses to add ----

  function NotIn(table: seq<Key>): Key -> bool {
    (k: Key) => k !in table
  }

  /** First occurrences of the requested addresses that the table lacks. */
  function ToAdd(table: seq<Key>, requested: seq<Key>): seq<Key> {
    Filter(Distinct(requested), NotIn(table))
  }

  lemma ToAddMember(table: seq<Key>, requested: seq<Key>, k: Key)
    ensures k in ToAdd(table, requested) <==> k in requested && k !in table
  {
    DistinctSound(requested);
    FilterMember(Distinct(requested), NotIn(table), k);
  }

  lemma NothingRequested(held: seq<Key>, table: Key, authority: Key, payer: Key)
    ensures ToAdd(held, []) == [] && InstructionsFor(table, authority, payer, Chunks([])) == []
  {
  }

  lemma ToAddSnoc(table: seq<Key>, requested: seq<Key>, k: Key)
    ensures ToAdd(table, requested + [k])
            == if k in table || k in requested then ToAdd(table, requested) else ToAdd(table, requested) + [k]
  {
    DistinctSnoc(requested, k);
    FilterConcat(Distinct(requested), [k], NotIn(table));
  }

  lemma {:induction false} FilterNoRepeats(s: seq<Key>, keep: Key -> bool)
    requires NoRepeats(s)
    ensures NoRepeats(Filter(s, keep))
  {
    if s != [] {
      var front := s[..|s| - 1];
      FilterNoRepeats(front, keep);
      assert s == front + [Last(s)];
      FilterMember(front, keep, Last(s));
    }
  }

  // ---- chunking ----

  function Chunks(keys: seq<Key>): seq<seq<Key>>
    decreases |keys|
  {
    if keys == [] then []
    else if |keys| <= MAX_PER_INSTRUCTION then [keys]
    else [keys[..MAX_PER_INSTRUCTION]] + Chunks(keys[MAX_PER_INSTRUCTION..])
  }

  /** The chunks put together are the keys; each holds 1 to 20, and only the last may hold fewer than 20. */
  lemma {:induction false} ChunksPartition(keys: seq<Key>)
    ensures Joined(Chunks(keys)) == keys
    ensures forall i :: 0 <= i < |Chunks(keys)| ==> 1 <= |Chunks(keys)[i]| <= 20
    ensures forall i :: 0 <= i < |Chunks(keys)| - 1 ==> |Chunks(keys)[i]| == 20
    decreases |keys|
  {
    if |keys| > MAX_PER_INSTRUCTION {
      ChunksPartition(keys[MAX_PER_INSTRUCTION..]);
      assert keys == keys[..MAX_PER_INSTRUCTION] + keys[MAX_PER_INSTRUCTION..];
    } else if keys != [] {
      assert Chunks(keys)[1..] == [];
    }
  }

  function Joined(chunks: seq<seq<Key>>): seq<Key> {
    if chunks == [] then [] else chunks[0] + Joined(chunks[1..])
  }

  // ---- instruction bytes ----

  function KeyBytes(keys: seq<Key>): (r: bytes)
    ensures |r| == 32 * |keys|
  {
    if keys == [] then [] else KeyBytes(keys[..|keys| - 1]) + Last(keys)
  }

  function ExtendData(keys: seq<Key>): bytes {
    EncodeLE(EXTEND_DISCRIMINATOR, 4) + EncodeLE(|keys|, 8) + KeyBytes(keys)
  }

  const SYSTEM_PROGRAM: Key := Zeros(32)

  function ExtendInstruction(table: Key, authority: Key, payer: Key, keys: seq<Key>): Instruction {
    Instruction([AccountMeta(table, true, false), AccountMeta(authority, false, true),
                 AccountMeta(payer, true, true), AccountMeta(SYSTEM_PROGRAM, false, false)],
                ExtendData(keys))
  }

  lemma NoKeyBytes()
    ensures KeyBytes([]) == []
  {
  }

  lemma KeyBytesNext(keys: seq<Key>, i: nat)
    requires i < |keys|
    ensures KeyBytes(keys[..i + 1]) == KeyBytes(keys[..i]) + keys[i]
  {
    assert keys[..i + 1][..i] == keys[..i];
  }

  /** The instruction as the lookup-table program expects it: the table to write, the authority to sign, the payer
      to do both, and the system program; the number 2 in four bytes, the count in eight, and the keys. */
  ghost predicate ExtendLaidOut(ix: Instruction, table: Key, authority: Key, payer: Key, keys: seq<Key>) {
    && |ix.accounts| == 4
    && ix.accounts[0].key == table && ix.accounts[0].writable && !ix.accounts[0].signer
    && ix.accounts[1].key == authority && !ix.accounts[1].writable && ix.accounts[1].signer
    && ix.accounts[2].key == payer && ix.accounts[2].writable && ix.accounts[2].signer
    && (forall b :: b in ix.accounts[3].key ==> b == 0) && !ix.accounts[3].writable && !ix.accounts[3].signer
    && |ix.data| == 12 + 32 * |keys|
    && ix.data[..4] == [2, 0, 0, 0] && LittleEndian(ix.data[4..12], |keys|)
    && forall i :: 0 <= i < |keys| ==> ix.data[12 + 32 * i..44 + 32 * i] == keys[i]
  }

  lemma {:induction false} KeyBytesAt(keys: seq<Key>, i: nat)
    requires i < |keys|
    ensures KeyBytes(keys)[32 * i..32 * i + 32] == keys[i]
  {
    if i < |keys| - 1 {
      KeyBytesAt(keys[..|keys| - 1], i);
    }
  }

  lemma ExtendLayout(table: Key, authority: Key, payer: Key, keys: seq<Key>)
    ensures ExtendLaidOut(ExtendInstruction(table, authority, payer, keys), table, authority, payer, keys)
  {
    ZerosOnly(SYSTEM_PROGRAM);
    DataLayout(keys);
    hide ExtendData, Zeros, LittleEndian;
  }

  lemma DataLayout(keys: seq<Key>)
    ensures var data := ExtendData(keys);
            && |data| == 12 + 32 * |keys|
            && data[..4] == [2, 0, 0, 0] && LittleEndian(data[4..12], |keys|)
            && forall i :: 0 <= i < |keys| ==> data[12 + 32 * i..44 + 32 * i] == keys[i]
  {
    FirstFour();
    LittleEndianExactly(EncodeLE(|keys|, 8), |keys|);
    hide EncodeLE, KeyBytes, LittleEndian;
    var data := ExtendData(keys);
    assert data[..4] == EncodeLE(EXTEND_DISCRIMINATOR, 4) && data[4..12] == EncodeLE(|keys|, 8);
    assert data[12..] == KeyBytes(keys);
    forall i | 0 <= i < |keys|
      ensures data[12 + 32 * i..44 + 32 * i] == keys[i]
    {
      KeyBytesAt(keys, i);
      assert data[12 + 32 * i..44 + 32 * i] == data[12..][32 * i..32 * i + 32];
    }
  }

  lemma FirstFour()
    ensures EncodeLE(EXTEND_DISCRIMINATOR, 4) == [2, 0, 0, 0]
  {
    assert EncodeLE(2, 4) == [2] + EncodeLE(0, 3) && EncodeLE(0, 3) == [0, 0, 0];
  }

  method BuildExtendLookupTableInstruction(table: Key, authority: Key, payer: Key, keys: seq<Key>)
    returns (r: Instruction)
    ensures r == ExtendInstruction(table, authority, payer, keys)
    ensures ExtendLaidOut(r, table, authority, payer, keys)
  {
    ExtendLayout(table, authority, payer, keys);
    hide EncodeLE, KeyBytes, ExtendLaidOut;
    NoKeyBytes();
    var data: bytes := [];
    data := data + EncodeLE(EXTEND_DISCRIMINATOR, 4);
    data := data + EncodeLE(|keys|, 8);
    ghost var header := EncodeLE(EXTEND_DISCRIMINATOR, 4) + EncodeLE(|keys|, 8);
    for i := 0 to |keys|
      invariant data == header + KeyBytes(keys[..i])
    {
      KeyBytesNext(keys, i);
      data := data + keys[i];
    }
    assert keys[..|keys|] == keys;
    var accounts := [AccountMeta(table, true, false), AccountMeta(authority, false, true),
                     AccountMeta(payer, true, true), AccountMeta(SYSTEM_PROGRAM, false, false)];
    return Instruction(accounts, data);
  }

  /** How the lookup-table program reads an extend instruction. */
  function DecodeExtend(data: bytes): Option<seq<Key>> {
    if |data| < 12 || DecodeLE(data[..4]) != EXTEND_DISCRIMINATOR || |data| != 12 + 32 * DecodeLE(data[4..12]) then None
    else Some(KeysIn(data[12..]))
  }

  function KeysIn(data: bytes): (r: seq<Key>)
    requires |data| % 32 == 0
    ensures |r| == |data| / 32
  {
    if |data| < 32 then [] else KeysIn(data[..|data| - 32]) + [data[|data| - 32..]]
  }

  lemma {:induction false} KeysRoundTrip(keys: seq<Key>)
    ensures KeysIn(KeyBytes(keys)) == keys
  {
    if keys != [] {
      var front := keys[..|keys| - 1];
      KeysRoundTrip(front);
      var data := KeyBytes(keys);
      assert data[..|data| - 32] == KeyBytes(front) && data[|data| - 32..] == Last(keys);
    }
  }

  /** Every instruction's bytes decode back to its chunk. */
  lemma ExtendRoundTrip(keys: seq<Key>)
    requires |keys| < U64_LIMIT
    ensures DecodeExtend(ExtendData(keys)) == Some(keys)
  {
    PowValues();
    hide KeyBytes, KeysIn, EncodeLE, DecodeLE, Pow256;
    var data := ExtendData(keys);
    DecodeEncodeLE(EXTEND_DISCRIMINATOR, 4);
    DecodeEncodeLE(|keys|, 8);
    KeysRoundTrip(keys);
    assert data[..4] == EncodeLE(EXTEND_DISCRIMINATOR, 4);
    assert data[4..12] == EncodeLE(|keys|, 8);
    assert data[12..] == KeyBytes(keys);
  }

  // ---- the planner ----

  method NewExtendInstructions(fetcher: Option<Fetched>, table: Key, authority: Key, payer: Key, addresses: seq<Key>)
    returns (r: Result<seq<Instruction>, PlanError>)
    ensures fetcher.None? ==> r == Err(NoFetcher)
    ensures fetcher == Some(Failed) ==> r == Err(FetchFailed)
    ensures forall held :: fetcher == Some(State(Some(held))) ==> r == Ok(Plan(held, table, authority, payer, addresses))
    ensures fetcher == Some(State(None)) ==> r == Ok(Plan([], table, authority, payer, addresses))
  {
    hide Chunks, ExtendInstruction, InstructionsFor, ToAdd;
    if fetcher.None? {
      return Err(NoFetcher);
    }
    if fetcher.value.Failed? {
      return Err(FetchFailed);
    }
    var seen: set<Key> := {};
    ghost var held := Held(fetcher.value);
    if fetcher.value.addresses.Some? {
      var entries := fetcher.value.addresses.value;
      for i := 0 to |entries|
        invariant forall k: Key :: k in seen <==> k in entries[..i]
      {
        seen := seen + {entries[i]};
      }
      assert entries[..|entries|] == entries;
    }
    var toAdd: seq<Key> := [];
    NothingRequested(held, table, authority, payer);
    for i := 0 to |addresses|
      invariant forall k: Key :: k in seen <==> k in held || k in addresses[..i]
      invariant toAdd == ToAdd(held, addresses[..i])
    {
      var key := addresses[i];
      assert addresses[..i + 1] == addresses[..i] + [key];
      ToAddSnoc(held, addresses[..i], key);
      if key in seen {
        continue;
      }
      seen := seen + {key};
      toAdd := toAdd + [key];
    }
    assert addresses[..|addresses|] == addresses;
    if |toAdd| == 0 {
      return Ok([]);
    }
    assert toAdd[0..] == toAdd;
    var instructions: seq<Instruction> := [];
    var start := 0;
    while start < |toAdd|
      invariant 0 <= start
      invariant instructions + Remaining(table, authority, payer, toAdd, start)
                == Plan(held, table, authority, payer, addresses)
      decreases |toAdd| - start
    {
      var end := start + MAX_PER_INSTRUCTION;
      if end > |toAdd| {
        end := |toAdd|;
      }
      RemainingStep(table, authority, payer, toAdd, start, end);
      var instruction := BuildExtendLookupTableInstruction(table, authority, payer, toAdd[start..end]);
      instructions := instructions + [instruction];
      start := start + MAX_PER_INSTRUCTION;
    }
    assert Remaining(table, authority, payer, toAdd, start) == [];
    assert instructions + [] == instructions;
    return Ok(instructions);
  }

  /** The instructions for the keys from `start` on. */
  function Remaining(table: Key, authority: Key, payer: Key, keys: seq<Key>, start: nat): seq<Instruction> {
    InstructionsFor(table, authority, payer, Chunks(if start < |keys| then keys[start..] else []))
  }

  lemma RemainingStep(table: Key, authority: Key, payer: Key, keys: seq<Key>, start: nat, end: nat)
    requires start < |keys|
    requires end == if start + MAX_PER_INSTRUCTION > |keys| then |keys| else start + MAX_PER_INSTRUCTION
    ensures Remaining(table, authority, payer, keys, start)
            == [ExtendInstruction(table, authority, payer, keys[start..end])]
               + Remaining(table, authority, payer, keys, start + MAX_PER_INSTRUCTION)
  {
    hide Chunks, ExtendInstruction, InstructionsFor;
    var rest := keys[start..];
    NextInstruction(table, authority, payer, rest);
    assert rest[..end - start] == keys[start..end];
    assert rest[end - start..] == if end < |keys| then keys[end..] else [];
  }

  function Held(f: Fetched): seq<Key> {
    if f.State? && f.addresses.Some? then f.addresses.value else []
  }

  function InstructionsFor(table: Key, authority: Key, payer: Key, chunks: seq<seq<Key>>): (r: seq<Instruction>)
    ensures |r| == |chunks|
    ensures forall i :: 0 <= i < |r| ==> r[i] == ExtendInstruction(table, authority, payer, chunks[i])
  {
    seq(|chunks|, i requires 0 <= i < |chunks| => ExtendInstruction(table, authority, payer, chunks[i]))
  }

  function Plan(held: seq<Key>, table: Key, authority: Key, payer: Key, requested: seq<Key>): seq<Instruction> {
    InstructionsFor(table, authority, payer, Chunks(ToAdd(held, requested)))
  }

  lemma NextInstruction(table: Key, authority: Key, payer: Key, rest: seq<Key>)
    requires rest != []
    ensures var n := if |rest| < MAX_PER_INSTRUCTION then |rest| else MAX_PER_INSTRUCTION;
            InstructionsFor(table, authority, payer, Chunks(rest))
            == [ExtendInstruction(table, authority, payer, rest[..n])]
               + InstructionsFor(table, authority, payer, Chunks(rest[n..]))
  {
    hide Chunks, ExtendInstruction, InstructionsFor;
    NextChunk(rest);
    var n := if |rest| < MAX_PER_INSTRUCTION then |rest| else MAX_PER_INSTRUCTION;
    InstructionsCons(table, authority, payer, rest[..n], Chunks(rest[n..]));
  }

  lemma InstructionsCons(table: Key, authority: Key, payer: Key, first: seq<Key>, others: seq<seq<Key>>)
    ensures InstructionsFor(table, authority, payer, [first] + others)
            == [ExtendInstruction(table, authority, payer, first)] + InstructionsFor(table, authority, payer, others)
  {
    hide ExtendInstruction;
  }

  lemma NextChunk(rest: seq<Key>)
    requires rest != []
    ensures var n := if |rest| < MAX_PER_INSTRUCTION then |rest| else MAX_PER_INSTRUCTION;
            Chunks(rest) == [rest[..n]] + Chunks(rest[n..])
  {
    if |rest| <= MAX_PER_INSTRUCTION {
      assert rest[..|rest|] == rest && rest[|rest|..] == [];
    }
  }

  // ---- applying a plan ----

  /** What the table holds after the instructions are executed in order. */
  function Apply(held: seq<Key>, instructions: seq<Instruction>): Option<seq<Key>>
    decreases |instructions|
  {
    if instructions == [] then Some(held)
    else match DecodeExtend(instructions[0].data)
      case None => None
      case Some(keys) => Apply(held + keys, instructions[1..])
  }

  lemma {:induction false} ApplyChunks(held: seq<Key>, table: Key, authority: Key, payer: Key, chunks: seq<seq<Key>>)
    requires forall i :: 0 <= i < |chunks| ==> |chunks[i]| <= MAX_PER_INSTRUCTION
    ensures Apply(held, InstructionsFor(table, authority, payer, chunks)) == Some(held + Joined(chunks))
    decreases |chunks|
  {
    hide ExtendData, DecodeExtend;
    if chunks == [] {
      assert held + [] == held;
    } else {
      ExtendRoundTrip(chunks[0]);
      assert InstructionsFor(table, authority, payer, chunks)[1..]
             == InstructionsFor(table, authority, payer, chunks[1..]);
      ApplyChunks(held + chunks[0], table, authority, payer, chunks[1..]);
      assert held + chunks[0] + Joined(chunks[1..]) == held + Joined(chunks);
    }
  }

  /** Executing a plan keeps the old table as a prefix, adds only requested addresses it lacked and each of
      them once, leaves every requested address in the table, and a second plan is then empty. */
  lemma PlanExtendsTable(held: seq<Key>, table: Key, authority: Key, payer: Key, requested: seq<Key>)
    ensures var after := Apply(held, Plan(held, table, authority, payer, requested));
            && after.Some? && held <= after.value
            && NoRepeats(after.value[|held|..])
            && (forall k :: k in after.value[|held|..] <==> k in requested && k !in held)
            && (forall k :: k in requested ==> k in after.value)
            && Plan(after.value, table, authority, payer, requested) == []
  {
    var added := ToAdd(held, requested);
    ChunksPartition(added);
    ApplyChunks(held, table, authority, payer, Chunks(added));
    hide Chunks, Joined, Apply, ToAdd;
    var after := held + added;
    assert after[|held|..] == added;
    forall k: Key
      ensures k in added <==> k in requested && k !in held
    {
      ToAddMember(held, requested, k);
    }
    AddedOnce(held, requested);
    SecondPlanEmpty(after, table, authority, payer, requested);
  }

  lemma AddedOnce(held: seq<Key>, requested: seq<Key>)
    ensures NoRepeats(ToAdd(held, requested))
  {
    DistinctSound(requested);
    FilterNoRepeats(Distinct(requested), NotIn(held));
  }

  lemma SecondPlanEmpty(held: seq<Key>, table: Key, authority: Key, payer: Key, requested: seq<Key>)
    requires forall k :: k in requested ==> k in held
    ensures Plan(held, table, authority, payer, requested) == []
  {
    DistinctSound(requested);
    FilterNone(Distinct(requested), NotIn(held));
  }
}
