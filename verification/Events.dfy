/** Which events a transaction carries: self-calls recorded in its inner instructions, decoded by an
    abstract parser, with executed-batch events tied to the Ed25519 instruction next to them. */
module Events {
  import opened Sequences
  import opened Bytes
  import opened Records
  import opened Payload
  import opened Ed25519

  datatype InnerInstruction = InnerInstruction(programIndex: u16, accounts: seq<u16>, data: bytes)

  datatype InnerGroup = InnerGroup(index: nat, instructions: seq<InnerInstruction>)

  datatype Instruction = Instruction(programIndex: u16, data: bytes)

  datatype LoadedAddresses = LoadedAddresses(writable: seq<Key>, readOnly: seq<Key>)

  /** What the node answers for one signature. `inner` is absent when recording was disabled. */
  datatype Transaction = Transaction(
    failed: bool,
    inner: Option<seq<InnerGroup>>,
    staticKeys: seq<Key>,
    loaded: LoadedAddresses,
    instructions: seq<Instruction>)

  /** A decoded event; `executedBatch` is its batch id when its payload is an executed-batch event. */
  datatype ParsedEvent = ParsedEvent(name: string, data: bytes, executedBatch: Option<u64>)

  datatype Emitted = Emitted(program: Key, data: bytes, topLevel: nat)

  /** Tracked programs with their event authorities, the event decoder, the payload hash. */
  datatype Decoding = Decoding(
    authorities: map<Key, Key>,
    parse: (bytes, Key) -> Option<ParsedEvent>,
    hash: bytes -> bytes,
    ed25519Program: Key)

  /** Anchor's event instruction tag 0x1d9acb512ea545e4, little-endian. */
  const EVENT_TAG: bytes := [0xe4, 0x45, 0xa5, 0x2e, 0x51, 0xcb, 0x9a, 0x1d]

  const EXECUTED_EVENT := "TransactionExecutedEvent"

  /** Static keys, then loaded writable keys, then loaded read-only keys. */
  function AccountKeys(tx: Transaction): seq<Key> {
    tx.staticKeys + tx.loaded.writable + tx.loaded.readOnly
  }

  // ---- events recorded by self-calls ----

  /** The instruction invokes a tracked program, carries the tag and at least one more byte, and its
      first account is that program's event authority. */
  predicate IsEmission(ix: InnerInstruction, keys: seq<Key>, authorities: map<Key, Key>) {
    && ix.programIndex < |keys|
    && keys[ix.programIndex] in authorities
    && EVENT_TAG < ix.data
    && ix.accounts != []
    && ix.accounts[0] < |keys|
    && keys[ix.accounts[0]] == authorities[keys[ix.programIndex]]
  }

  function GroupEvents(ixs: seq<InnerInstruction>, index: nat, keys: seq<Key>, authorities: map<Key, Key>)
    : (r: seq<Emitted>)
  {
    if ixs == [] then []
    else
      GroupEvents(ixs[..|ixs| - 1], index, keys, authorities)
      + (if IsEmission(Last(ixs), keys, authorities)
         then [Emitted(keys[Last(ixs).programIndex], Last(ixs).data[8..], index)] else [])
  }

  function CollectedEvents(groups: seq<InnerGroup>, keys: seq<Key>, authorities: map<Key, Key>)
    : seq<Emitted>
  {
    if groups == [] then []
    else
      CollectedEvents(groups[..|groups| - 1], keys, authorities)
      + GroupEvents(Last(groups).instructions, Last(groups).index, keys, authorities)
  }

  method CollectEvents(groups: seq<InnerGroup>, keys: seq<Key>, authorities: map<Key, Key>)
    returns (events: seq<Emitted>)
    ensures events == CollectedEvents(groups, keys, authorities)
    ensures exists at :: CollectedInOrder(groups, keys, authorities, events, at)
  {
    ghost var positions := CollectedAreInOrder(groups, keys, authorities);
    events := [];
    for g := 0 to |groups|
      invariant events == CollectedEvents(groups[..g], keys, authorities)
    {
      var group := groups[g];
      assert groups[..g + 1][..g] == groups[..g];
      ghost var before := events;
      for i := 0 to |group.instructions|
        invariant events == before + GroupEvents(group.instructions[..i], group.index, keys, authorities)
      {
        var ix := group.instructions[i];
        assert group.instructions[..i + 1][..i] == group.instructions[..i];
        if ix.programIndex >= |keys| {
          continue;
        }
        var program := keys[ix.programIndex];
        if program !in authorities {
          continue;
        }
        if |ix.data| <= |EVENT_TAG| || ix.data[..|EVENT_TAG|] != EVENT_TAG {
          continue;
        }
        if |ix.accounts| == 0 || ix.accounts[0] >= |keys| || keys[ix.accounts[0]] != authorities[program] {
          continue;
        }
        events := events + [Emitted(program, ix.data[|EVENT_TAG|..], group.index)];
      }
      assert group.instructions[..|group.instructions|] == group.instructions;
    }
    assert groups[..|groups|] == groups;
  }

  /** Instruction `index` of group `group`. */
  datatype Position = Position(group: nat, index: nat)

  /** The inner instruction there names a tracked program of the account keys, its data is the tag
      e445a52e51cb9a1d and at least one more byte, and its first account is that program's event authority. */
  ghost predicate EmitsAt(groups: seq<InnerGroup>, keys: seq<Key>, authorities: map<Key, Key>, p: Position) {
    && p.group < |groups| && p.index < |groups[p.group].instructions|
    && var ix := groups[p.group].instructions[p.index];
       && ix.programIndex < |keys| && keys[ix.programIndex] in authorities
       && |ix.data| > 8 && ix.data[..8] == [0xe4, 0x45, 0xa5, 0x2e, 0x51, 0xcb, 0x9a, 0x1d]
       && |ix.accounts| > 0 && ix.accounts[0] < |keys|
       && keys[ix.accounts[0]] == authorities[keys[ix.programIndex]]
  }

  /** `e` is what the instruction there emits: its program, its data behind the tag, and its group's index. */
  ghost predicate EmittedAt(groups: seq<InnerGroup>, keys: seq<Key>, authorities: map<Key, Key>, p: Position, e: Emitted) {
    && EmitsAt(groups, keys, authorities, p)
    && var ix := groups[p.group].instructions[p.index];
       e.program == keys[ix.programIndex] && e.data == ix.data[8..] && e.topLevel == groups[p.group].index
  }

  predicate Before(p: Position, q: Position) {
    p.group < q.group || (p.group == q.group && p.index < q.index)
  }

  /** `at` lists the emitting instructions in group, then instruction order, and the k-th event is what the k-th
      of them emits. */
  ghost predicate CollectedInOrder(groups: seq<InnerGroup>, keys: seq<Key>, authorities: map<Key, Key>,
                                   events: seq<Emitted>, at: seq<Position>)
  {
    && |at| == |events|
    && (forall k :: 0 <= k < |at| ==> EmittedAt(groups, keys, authorities, at[k], events[k]))
    && (forall j, k :: 0 <= j < k < |at| ==> Before(at[j], at[k]))
    && (forall p :: EmitsAt(groups, keys, authorities, p) ==> p in at)
  }

  /** The collected events are those of the emitting instructions, each once and in order. */
  lemma {:induction false} CollectedAreInOrder(groups: seq<InnerGroup>, keys: seq<Key>, authorities: map<Key, Key>)
    returns (at: seq<Position>)
    ensures CollectedInOrder(groups, keys, authorities, CollectedEvents(groups, keys, authorities), at)
  {
    at := [];
    if groups != [] {
      var front, last := groups[..|groups| - 1], Last(groups);
      var before := CollectedAreInOrder(front, keys, authorities);
      var within := GroupIsInOrder(groups, |front|, keys, authorities, |last.instructions|);
      assert last.instructions[..|last.instructions|] == last.instructions;
      at := before + within;
      hide GroupEvents, CollectedEvents, EmittedAt;
      JoinInOrder(groups, keys, authorities, CollectedEvents(front, keys, authorities),
                  GroupEvents(last.instructions, last.index, keys, authorities), before, within);
      NextGroup(groups, keys, authorities);
    }
  }

  lemma NextGroup(groups: seq<InnerGroup>, keys: seq<Key>, authorities: map<Key, Key>)
    requires groups != []
    ensures CollectedEvents(groups, keys, authorities)
            == CollectedEvents(groups[..|groups| - 1], keys, authorities)
               + GroupEvents(Last(groups).instructions, Last(groups).index, keys, authorities)
  {
    hide GroupEvents;
  }

  /** The same within the first n instructions of group g. */
  ghost predicate GroupInOrder(groups: seq<InnerGroup>, g: nat, keys: seq<Key>, authorities: map<Key, Key>, n: nat,
                               events: seq<Emitted>, at: seq<Position>)
  {
    && |at| == |events|
    && (forall k :: 0 <= k < |at| ==>
          at[k].group == g && at[k].index < n && EmittedAt(groups, keys, authorities, at[k], events[k]))
    && (forall j, k :: 0 <= j < k < |at| ==> Before(at[j], at[k]))
    && (forall p: Position :: p.group == g && p.index < n && EmitsAt(groups, keys, authorities, p) ==> p in at)
  }

  lemma {:induction false} GroupIsInOrder(groups: seq<InnerGroup>, g: nat, keys: seq<Key>, authorities: map<Key, Key>, n: nat)
    returns (at: seq<Position>)
    requires g < |groups| && n <= |groups[g].instructions|
    ensures GroupInOrder(groups, g, keys, authorities, n,
                         GroupEvents(groups[g].instructions[..n], groups[g].index, keys, authorities), at)
  {
    hide *;
    if n == 0 {
      at := [];
      NothingInOrder(groups, g, keys, authorities);
    } else {
      var ixs, ix, index := groups[g].instructions, groups[g].instructions[n - 1], groups[g].index;
      var before := GroupIsInOrder(groups, g, keys, authorities, n - 1);
      var p := Position(g, n - 1);
      NextInGroup(ixs, n - 1, index, keys, authorities);
      ExtendInOrder(groups, g, keys, authorities, n - 1, GroupEvents(ixs[..n - 1], index, keys, authorities), before);
      EmitsWhenEmission(groups, keys, authorities, p);
      if IsEmission(ix, keys, authorities) {
        at := before + [p];
        EmittedThere(groups, keys, authorities, p);
      } else {
        at := before;
      }
    }
  }

  lemma NothingInOrder(groups: seq<InnerGroup>, g: nat, keys: seq<Key>, authorities: map<Key, Key>)
    requires g < |groups|
    ensures GroupInOrder(groups, g, keys, authorities, 0,
                         GroupEvents(groups[g].instructions[..0], groups[g].index, keys, authorities), [])
  {
  }

  lemma EmittedThere(groups: seq<InnerGroup>, keys: seq<Key>, authorities: map<Key, Key>, p: Position)
    requires p.group < |groups| && p.index < |groups[p.group].instructions|
    requires IsEmission(groups[p.group].instructions[p.index], keys, authorities)
    ensures var ix := groups[p.group].instructions[p.index];
            && ix.programIndex < |keys| && |ix.data| > 8
            && EmittedAt(groups, keys, authorities, p,
                         Emitted(keys[ix.programIndex], ix.data[8..], groups[p.group].index))
  {
    EmitsWhenEmission(groups, keys, authorities, p);
  }

  lemma NextInGroup(ixs: seq<InnerInstruction>, n: nat, index: nat, keys: seq<Key>, authorities: map<Key, Key>)
    requires n < |ixs|
    ensures GroupEvents(ixs[..n + 1], index, keys, authorities)
            == GroupEvents(ixs[..n], index, keys, authorities)
               + if IsEmission(ixs[n], keys, authorities)
                 then [Emitted(keys[ixs[n].programIndex], ixs[n].data[8..], index)] else []
  {
    assert ixs[..n + 1][..n] == ixs[..n];
  }

  /** One instruction more, which emits or does not. */
  lemma ExtendInOrder(groups: seq<InnerGroup>, g: nat, keys: seq<Key>, authorities: map<Key, Key>, n: nat,
                      events: seq<Emitted>, at: seq<Position>)
    requires GroupInOrder(groups, g, keys, authorities, n, events, at)
    ensures !EmitsAt(groups, keys, authorities, Position(g, n)) ==>
              GroupInOrder(groups, g, keys, authorities, n + 1, events + [], at)
    ensures forall e :: EmittedAt(groups, keys, authorities, Position(g, n), e) ==>
                  GroupInOrder(groups, g, keys, authorities, n + 1, events + [e], at + [Position(g, n)])
  {
    hide EmittedAt, EmitsAt;
    assert events + [] == events;
    assert forall q: Position :: q.group == g && q.index < n + 1 ==> q == Position(g, n) || q.index < n;
  }

  lemma EmitsWhenEmission(groups: seq<InnerGroup>, keys: seq<Key>, authorities: map<Key, Key>, p: Position)
    requires p.group < |groups| && p.index < |groups[p.group].instructions|
    ensures EmitsAt(groups, keys, authorities, p)
            <==> IsEmission(groups[p.group].instructions[p.index], keys, authorities)
  {
    var data := groups[p.group].instructions[p.index].data;
    assert EVENT_TAG < data <==> |data| > 8 && data[..8] == EVENT_TAG;
  }

  lemma JoinInOrder(groups: seq<InnerGroup>, keys: seq<Key>, authorities: map<Key, Key>, front: seq<Emitted>,
                    last: seq<Emitted>, before: seq<Position>, within: seq<Position>)
    requires groups != []
    requires CollectedInOrder(groups[..|groups| - 1], keys, authorities, front, before)
    requires GroupInOrder(groups, |groups| - 1, keys, authorities, |Last(groups).instructions|, last, within)
    ensures CollectedInOrder(groups, keys, authorities, front + last, before + within)
  {
    forall p: Position | p.group < |groups| - 1
      ensures EmitsAt(groups, keys, authorities, p) <==> EmitsAt(groups[..|groups| - 1], keys, authorities, p)
      ensures forall e :: EmittedAt(groups, keys, authorities, p, e)
                          <==> EmittedAt(groups[..|groups| - 1], keys, authorities, p, e)
    {
      assert groups[..|groups| - 1][p.group] == groups[p.group];
    }
    hide EmitsAt;
    var at, events := before + within, front + last;
    forall k | 0 <= k < |at|
      ensures EmittedAt(groups, keys, authorities, at[k], events[k])
    {
      if k < |before| {
        assert EmittedAt(groups[..|groups| - 1], keys, authorities, before[k], front[k]);
      }
    }
  }

  /** There are as many events as emitting instructions. */
  lemma OneEventPerEmission(groups: seq<InnerGroup>, keys: seq<Key>, authorities: map<Key, Key>)
    ensures exists emitting: set<Position> ::
              && |CollectedEvents(groups, keys, authorities)| == |emitting|
              && forall p :: p in emitting <==> EmitsAt(groups, keys, authorities, p)
  {
    hide CollectedEvents, EmitsAt;
    var at := CollectedAreInOrder(groups, keys, authorities);
    var emitting := set p | p in at;
    OrderedSize(at, emitting);
    forall p
      ensures p in emitting <==> EmitsAt(groups, keys, authorities, p)
    {
      if p in at {
        var k :| 0 <= k < |at| && at[k] == p;
        EmittedEmits(groups, keys, authorities, p, CollectedEvents(groups, keys, authorities)[k]);
      }
    }
  }

  lemma EmittedEmits(groups: seq<InnerGroup>, keys: seq<Key>, authorities: map<Key, Key>, p: Position, e: Emitted)
    requires EmittedAt(groups, keys, authorities, p, e)
    ensures EmitsAt(groups, keys, authorities, p)
  {
  }

  lemma {:induction false} OrderedSize(at: seq<Position>, s: set<Position>)
    requires forall j, k :: 0 <= j < k < |at| ==> Before(at[j], at[k])
    requires forall p :: p in s <==> p in at
    ensures |s| == |at|
  {
    if at != [] {
      var front, last := at[..|at| - 1], Last(at);
      assert at == front + [last];
      assert last !in front;
      OrderedSize(front, s - {last});
    }
  }

  /** Every collected event comes from one accepted inner instruction, and none is left out. */
  lemma {:induction false} CollectedExactly(groups: seq<InnerGroup>, keys: seq<Key>,
                                            authorities: map<Key, Key>, e: Emitted)
    ensures e in CollectedEvents(groups, keys, authorities)
            <==> exists g :: g in groups && g.index == e.topLevel && InGroup(g, keys, authorities, e)
  {
    if groups != [] {
      var front, last := groups[..|groups| - 1], Last(groups);
      assert groups == front + [last];
      CollectedExactly(front, keys, authorities, e);
      InGroupExactly(last.instructions, last.index, keys, authorities, e);
      if e in CollectedEvents(front, keys, authorities) {
        var g :| g in front && g.index == e.topLevel && InGroup(g, keys, authorities, e);
        assert g in groups;
      }
    }
  }

  ghost predicate InGroup(g: InnerGroup, keys: seq<Key>, authorities: map<Key, Key>, e: Emitted) {
    exists ix :: ix in g.instructions && EmittedBy(ix, keys, authorities, e)
  }

  predicate EmittedBy(ix: InnerInstruction, keys: seq<Key>, authorities: map<Key, Key>, e: Emitted) {
    IsEmission(ix, keys, authorities) && e.program == keys[ix.programIndex] && ix.data == EVENT_TAG + e.data
  }

  lemma {:induction false} InGroupExactly(ixs: seq<InnerInstruction>, index: nat, keys: seq<Key>,
                                          authorities: map<Key, Key>, e: Emitted)
    ensures e in GroupEvents(ixs, index, keys, authorities)
            <==> e.topLevel == index && exists ix :: ix in ixs && EmittedBy(ix, keys, authorities, e)
  {
    if ixs != [] {
      var front, last := ixs[..|ixs| - 1], Last(ixs);
      assert ixs == front + [last];
      InGroupExactly(front, index, keys, authorities, e);
      if IsEmission(last, keys, authorities) {
        assert last.data == EVENT_TAG + last.data[8..];
        assert EmittedBy(last, keys, authorities, e)
               <==> e.program == keys[last.programIndex] && e.data == last.data[8..];
      }
    }
  }

  // ---- the batch an executed event belongs to ----

  predicate ProgramEquals(instructions: seq<Instruction>, keys: seq<Key>, idx: int, program: Key) {
    && 0 <= idx < |instructions|
    && instructions[idx].programIndex < |keys|
    && keys[instructions[idx].programIndex] == program
  }

  /** The payload of the Ed25519 instruction at `idx`, if it parses and carries this batch. */
  ghost function BatchPayloadAt(instructions: seq<Instruction>, idx: nat, batch: u64): Option<SolanaPayload>
    requires idx < |instructions|
  {
    match ExtractedPayload(instructions[idx].data, idx % 0x1_0000)
    case None => None
    case Some(p) => if p.batchId == batch then Some(p) else None
  }

  /** The instruction before the event's counts if it is an Ed25519 one; only otherwise the one after. */
  ghost function AdjacentBatchPayload(instructions: seq<Instruction>, keys: seq<Key>, program: Key,
                                      topLevel: nat, batch: u64): Option<SolanaPayload>
  {
    if topLevel >= |instructions| then None
    else if ProgramEquals(instructions, keys, topLevel - 1, program) then
      BatchPayloadAt(instructions, topLevel - 1, batch)
    else if ProgramEquals(instructions, keys, topLevel + 1, program) then
      BatchPayloadAt(instructions, topLevel + 1, batch)
    else None
  }

  method FindBatchPayload(instructions: seq<Instruction>, keys: seq<Key>, program: Key,
                          topLevel: nat, batch: u64) returns (r: Option<SolanaPayload>)
    ensures r == AdjacentBatchPayload(instructions, keys, program, topLevel, batch)
  {
    if topLevel >= |instructions| {
      return None;
    }
    var adjacent := [topLevel - 1, topLevel + 1];
    for k := 0 to 2
      invariant forall j :: 0 <= j < k ==> !ProgramEquals(instructions, keys, adjacent[j], program)
    {
      var idx := adjacent[k];
      assert k == 1 ==> !ProgramEquals(instructions, keys, adjacent[0], program);
      if !ProgramEquals(instructions, keys, idx, program) {
        continue;
      }
      var payload := ExtractSolanaPayload(instructions[idx].data, idx % 0x1_0000);
      if payload.None? || payload.value.batchId != batch {
        return None;
      }
      return payload;
    }
    assert !ProgramEquals(instructions, keys, adjacent[0], program);
    assert !ProgramEquals(instructions, keys, adjacent[1], program);
    return None;
  }

  // ---- accepted events ----

  const NO_ACTION_HASH: bytes := Zeros(32)

  /** What one emission becomes, or none when it is skipped. */
  ghost function AcceptedBody(d: Decoding, tx: Transaction, e: Emitted): Option<EventBody> {
    match d.parse(e.data, e.program)
    case None => None
    case Some(parsed) =>
      if parsed.name != EXECUTED_EVENT then
        Some(EventBody(e.program, parsed.name, NO_ACTION_HASH, parsed.data))
      else match parsed.executedBatch
        case None => None
        case Some(batch) =>
          match AdjacentBatchPayload(tx.instructions, AccountKeys(tx), d.ed25519Program, e.topLevel, batch)
          case None => None
          case Some(p) => Some(EventBody(e.program, parsed.name, d.hash(Marshal(p)), parsed.data))
  }

  ghost function AcceptedBodies(d: Decoding, tx: Transaction, emitted: seq<Emitted>): seq<EventBody> {
    if emitted == [] then []
    else match AcceptedBody(d, tx, emitted[0])
      case None => AcceptedBodies(d, tx, emitted[1..])
      case Some(body) => [body] + AcceptedBodies(d, tx, emitted[1..])
  }

  datatype Outcome = Reverted | Unreadable | Emits(bodies: seq<EventBody>)

  /** What processing a transaction has to do: nothing for a failed one or one without metadata. */
  ghost function OutcomeOf(d: Decoding, tx: Transaction): Outcome {
    if tx.failed then Reverted
    else match tx.inner
      case None => Unreadable
      case Some(groups) =>
        Emits(AcceptedBodies(d, tx, CollectedEvents(groups, AccountKeys(tx), d.authorities)))
  }

  /** An account index counts the static keys first, then the loaded writable ones, then the read-only ones. */
  predicate NamesKey(tx: Transaction, i: nat, key: Key) {
    var s, w := |tx.staticKeys|, |tx.loaded.writable|;
    || (i < s && tx.staticKeys[i] == key)
    || (s <= i < s + w && tx.loaded.writable[i - s] == key)
    || (s + w <= i < s + w + |tx.loaded.readOnly| && tx.loaded.readOnly[i - s - w] == key)
  }

  lemma AccountKeysAreNumbered(tx: Transaction)
    ensures forall i: nat, key :: (i < |AccountKeys(tx)| && AccountKeys(tx)[i] == key) <==> NamesKey(tx, i, key)
  {
  }

  /** The instruction there invokes the program. */
  predicate Invokes(tx: Transaction, at: int, program: Key) {
    0 <= at < |tx.instructions| && NamesKey(tx, tx.instructions[at].programIndex, program)
  }

  lemma InvokesWhenEqual(tx: Transaction, at: int, program: Key)
    ensures ProgramEquals(tx.instructions, AccountKeys(tx), at, program) <==> Invokes(tx, at, program)
  {
    AccountKeysAreNumbered(tx);
  }

  /** The instruction an executed-batch event under `topLevel` is matched with: the Ed25519 one before it, or
      the one after it when the one before is no Ed25519 one. */
  predicate Matched(tx: Transaction, program: Key, topLevel: nat, at: nat) {
    && topLevel < |tx.instructions| && Invokes(tx, at, program)
    && (at == topLevel - 1 || (at == topLevel + 1 && !Invokes(tx, topLevel - 1, program)))
  }

  /** `hash` is the hash of the payload of this batch that the matched instruction carries. */
  ghost predicate HashesBatch(d: Decoding, tx: Transaction, topLevel: nat, batch: u64, hash: bytes) {
    exists at: nat, p: SolanaPayload ::
      && Matched(tx, d.ed25519Program, topLevel, at)
      && ExtractedPayload(tx.instructions[at].data, at % 0x1_0000) == Some(p)
      && p.batchId == batch && hash == d.hash(Marshal(p))
  }

  /** What makes `body` the record of an emission: it decodes to it, and if it is an executed-batch event, an
      adjacent Ed25519 instruction carries the payload of the same batch, whose marshalled bytes it hashes. */
  ghost predicate RecordOf(d: Decoding, tx: Transaction, e: Emitted, body: EventBody) {
    match d.parse(e.data, e.program)
    case None => false
    case Some(parsed) =>
      && body.program == e.program && body.name == parsed.name && body.data == parsed.data
      && if parsed.name != "TransactionExecutedEvent" then
           |body.actionHash| == 32 && forall b :: b in body.actionHash ==> b == 0
         else parsed.executedBatch.Some?
              && HashesBatch(d, tx, e.topLevel, parsed.executedBatch.value, body.actionHash)
  }

  lemma MatchedIsAdjacent(d: Decoding, tx: Transaction, topLevel: nat, batch: u64)
    ensures match AdjacentBatchPayload(tx.instructions, AccountKeys(tx), d.ed25519Program, topLevel, batch)
            case None => forall hash :: !HashesBatch(d, tx, topLevel, batch, hash)
            case Some(p) => forall hash :: HashesBatch(d, tx, topLevel, batch, hash) <==> hash == d.hash(Marshal(p))
  {
    InvokesWhenEqual(tx, topLevel - 1, d.ed25519Program);
    InvokesWhenEqual(tx, topLevel + 1, d.ed25519Program);
    hide ExtractedPayload, Marshal, ProgramEquals, NamesKey, AccountKeys;
    var found := AdjacentBatchPayload(tx.instructions, AccountKeys(tx), d.ed25519Program, topLevel, batch);
    if found.Some? {
      var at: nat := if Invokes(tx, topLevel - 1, d.ed25519Program) then topLevel - 1 else topLevel + 1;
      assert Matched(tx, d.ed25519Program, topLevel, at);
      assert ExtractedPayload(tx.instructions[at].data, at % 0x1_0000) == found;
    }
  }

  /** An emission is recorded as `body` if and only if `body` is its record; so an executed-batch event is never
      recorded without the matching payload. */
  lemma AcceptedExactly(d: Decoding, tx: Transaction, e: Emitted, body: EventBody)
    ensures AcceptedBody(d, tx, e) == Some(body) <==> RecordOf(d, tx, e, body)
  {
    ZerosOnly(body.actionHash);
    hide HashesBatch, AdjacentBatchPayload, Marshal, Zeros;
    var parsed := d.parse(e.data, e.program);
    if parsed.Some? && parsed.value.executedBatch.Some? {
      MatchedIsAdjacent(d, tx, e.topLevel, parsed.value.executedBatch.value);
    }
  }

  method AcceptEvent(d: Decoding, tx: Transaction, e: Emitted) returns (r: Option<EventBody>)
    ensures r == AcceptedBody(d, tx, e)
    ensures forall body :: r == Some(body) <==> RecordOf(d, tx, e, body)
  {
    hide RecordOf, HashesBatch;
    forall body
      ensures AcceptedBody(d, tx, e) == Some(body) <==> RecordOf(d, tx, e, body)
    {
      AcceptedExactly(d, tx, e, body);
    }
    var parsed := d.parse(e.data, e.program);
    if parsed.None? {
      return None;
    }
    var actionHash := NO_ACTION_HASH;
    if parsed.value.name == EXECUTED_EVENT {
      if parsed.value.executedBatch.None? {
        return None;
      }
      var payload := FindBatchPayload(tx.instructions, AccountKeys(tx), d.ed25519Program, e.topLevel,
                                      parsed.value.executedBatch.value);
      if payload.None? {
        return None;
      }
      var payloadBytes := MarshalPayload(payload.value);
      actionHash := d.hash(payloadBytes);
    }
    return Some(EventBody(e.program, parsed.value.name, actionHash, parsed.value.data));
  }

  /** An executed-batch event next to the instruction the bridge built for that batch is recorded with
      the hash of exactly the bytes the validators signed, whatever the instruction order; with more than
      1559 receivers it is skipped. */
  lemma ExecutedEventHashesSignedBytes(d: Decoding, tx: Transaction, e: Emitted, at: nat,
                                       pairs: seq<Pair>, p: SolanaPayload, parsed: ParsedEvent)
    requires d.parse(e.data, e.program) == Some(parsed)
    requires parsed.name == "TransactionExecutedEvent" && parsed.executedBatch == Some(p.batchId)
    requires Matched(tx, d.ed25519Program, e.topLevel, at)
    requires 1 <= |pairs| <= 255 && |p.receivers| < U64_LIMIT
    requires tx.instructions[at].data == BatchedData(pairs, Marshal(p))
    ensures AcceptedBody(d, tx, e)
            == if |p.receivers| <= 1559
               then Some(EventBody(e.program, "TransactionExecutedEvent", d.hash(Marshal(p)), parsed.data))
               else None
  {
    InvokesWhenEqual(tx, e.topLevel - 1, d.ed25519Program);
    InvokesWhenEqual(tx, at, d.ed25519Program);
    hide BatchedData, Marshal, ExtractedPayload, ProgramEquals, Invokes, AccountKeys;
    SignedBytesSurvive(pairs, p, at % 0x1_0000);
  }

  // ---- all events of a transaction ----

  /** `at` lists, in order, the emissions that have a record, and the k-th body is the record of the k-th. */
  ghost predicate RecordedInOrder(d: Decoding, tx: Transaction, emitted: seq<Emitted>, from: nat,
                                  bodies: seq<EventBody>, at: seq<nat>)
  {
    && |at| == |bodies|
    && (forall k :: 0 <= k < |at| ==> from <= at[k] < |emitted| && RecordOf(d, tx, emitted[at[k]], bodies[k]))
    && (forall j, k :: 0 <= j < k < |at| ==> at[j] < at[k])
    && (forall j: nat, body :: from <= j < |emitted| && RecordOf(d, tx, emitted[j], body) ==> j in at)
  }

  lemma {:induction false} BodiesAreRecords(d: Decoding, tx: Transaction, emitted: seq<Emitted>, from: nat)
    returns (at: seq<nat>)
    requires from <= |emitted|
    ensures RecordedInOrder(d, tx, emitted, from, AcceptedBodies(d, tx, emitted[from..]), at)
    decreases |emitted| - from
  {
    hide AcceptedBody, RecordOf;
    at := [];
    if from < |emitted| {
      var others := BodiesAreRecords(d, tx, emitted, from + 1);
      var rest := emitted[from..];
      assert rest[0] == emitted[from] && rest[1..] == emitted[from + 1..];
      forall body
        ensures AcceptedBody(d, tx, emitted[from]) == Some(body) <==> RecordOf(d, tx, emitted[from], body)
      {
        AcceptedExactly(d, tx, emitted[from], body);
      }
      at := if AcceptedBody(d, tx, emitted[from]).Some? then [from] + others else others;
    }
  }

  /** `bodies` are, in order, the records of what the transaction's inner instructions emit, in order. */
  ghost predicate BodiesOf(d: Decoding, tx: Transaction, groups: seq<InnerGroup>, bodies: seq<EventBody>) {
    exists emitted: seq<Emitted>, positions: seq<Position>, at: seq<nat> ::
      && CollectedInOrder(groups, tx.staticKeys + tx.loaded.writable + tx.loaded.readOnly, d.authorities, emitted,
                          positions)
      && RecordedInOrder(d, tx, emitted, 0, bodies, at)
  }

  /** A failed transaction has nothing to do, nor has one whose inner instructions were not recorded; any other
      has the records of its emissions. */
  lemma OutcomeExactly(d: Decoding, tx: Transaction)
    ensures OutcomeOf(d, tx) == Reverted <==> tx.failed
    ensures OutcomeOf(d, tx) == Unreadable <==> !tx.failed && tx.inner == None
    ensures OutcomeOf(d, tx).Emits? ==> tx.inner.Some? && BodiesOf(d, tx, tx.inner.value, OutcomeOf(d, tx).bodies)
  {
    hide CollectedEvents, AcceptedBodies, CollectedInOrder, RecordedInOrder, RecordOf;
    if !tx.failed && tx.inner.Some? {
      var keys := AccountKeys(tx);
      var emitted := CollectedEvents(tx.inner.value, keys, d.authorities);
      var positions := CollectedAreInOrder(tx.inner.value, keys, d.authorities);
      var at := BodiesAreRecords(d, tx, emitted, 0);
      assert emitted[0..] == emitted;
    }
  }
}
