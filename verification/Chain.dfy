/** The chain as the node serves it: an append-only list of the program's transactions. */
module Chain {
  import opened Sequences
  import opened Bytes
  import opened Records
  import opened Events

  datatype Tx = Tx(point: TxPoint, block: u64, content: Transaction)

  function Points(chain: seq<Tx>): (r: seq<TxPoint>)
    ensures |r| == |chain|
    ensures forall i :: 0 <= i < |chain| ==> r[i] == chain[i].point
  {
    seq(|chain|, i requires 0 <= i < |chain| => chain[i].point)
  }

  /** Signatures are distinct and non-zero; slots never decrease. */
  predicate PointsOk(points: seq<TxPoint>) {
    && (forall i :: 0 <= i < |points| ==> points[i].sig != ZERO_SIGNATURE)
    && (forall i, j :: 0 <= i < j < |points| ==> points[i].sig != points[j].sig)
    && (forall i, j :: 0 <= i < j < |points| ==> points[i].slot <= points[j].slot)
  }

  predicate ChainOk(chain: seq<Tx>) {
    && PointsOk(Points(chain))
    && (forall i, j :: 0 <= i < j < |chain| ==> chain[i].block <= chain[j].block)
  }

  predicate HistoryOk(chain: seq<Tx>, height: u64) {
    ChainOk(chain) && forall i :: 0 <= i < |chain| ==> chain[i].block <= height
  }

  /** New blocks lie above the height reached so far, and only new blocks bring transactions. */
  predicate Extends(chain: seq<Tx>, height: u64, txs: seq<Tx>, newHeight: u64) {
    && height <= newHeight
    && ChainOk(chain + txs)
    && forall i :: 0 <= i < |txs| ==> height < txs[i].block <= newHeight
  }

  ghost predicate GrewTo(chain: seq<Tx>, height: u64, chain': seq<Tx>, height': u64) {
    chain <= chain' && Extends(chain, height, chain'[|chain|..], height')
  }

  /** Growth composes, and keeps a history well-formed. */
  lemma GrewTwice(chain: seq<Tx>, height: u64, chain1: seq<Tx>, height1: u64, chain2: seq<Tx>, height2: u64)
    requires GrewTo(chain, height, chain1, height1) && GrewTo(chain1, height1, chain2, height2)
    ensures GrewTo(chain, height, chain2, height2)
  {
    var first, second := chain1[|chain|..], chain2[|chain1|..];
    assert chain + chain2[|chain|..] == chain1 + second;
    assert chain2[|chain|..] == first + second;
  }

  lemma NotGrown(chain: seq<Tx>, height: u64)
    requires ChainOk(chain)
    ensures GrewTo(chain, height, chain, height)
  {
    assert chain + [] == chain;
  }

  /** Position of a signature, or the length when it is not there. */
  function IndexOf(points: seq<TxPoint>, sig: Signature): (r: nat)
    ensures r <= |points|
    ensures r < |points| ==> points[r].sig == sig
    ensures forall i :: 0 <= i < r ==> points[i].sig != sig
  {
    if points == [] then 0
    else if points[0].sig == sig then 0
    else 1 + IndexOf(points[1..], sig)
  }

  lemma IndexOfAt(points: seq<TxPoint>, i: nat)
    requires PointsOk(points) && i < |points|
    ensures IndexOf(points, points[i].sig) == i
  {
  }

  /** Position of a cursor; minus one when none is recorded. */
  function Cursor(points: seq<TxPoint>, q: TxPoint): (r: int)
    ensures -1 <= r <= |points|
  {
    if q.sig == ZERO_SIGNATURE then -1 else IndexOf(points, q.sig)
  }

  /** The first position whose slot is at least `start`; the length when there is none. */
  function FirstFrom(points: seq<TxPoint>, start: u64): (r: nat)
    ensures r <= |points|
    ensures forall i :: 0 <= i < r ==> points[i].slot < start
    ensures r < |points| ==> start <= points[r].slot
  {
    if points == [] then 0
    else if start <= points[0].slot then 0
    else 1 + FirstFrom(points[1..], start)
  }

  function NotHidden(hidden: set<Signature>): TxPoint -> bool {
    (p: TxPoint) => p.sig !in hidden
  }

  function SlotFrom(slot: u64): TxPoint -> bool {
    (p: TxPoint) => slot <= p.slot
  }

  /** What the node still lists of a history, oldest first. */
  function Visible(points: seq<TxPoint>, hidden: set<Signature>): seq<TxPoint> {
    Filter(points, NotHidden(hidden))
  }

  /** What the one-shot, unlimited query answers, oldest first: everything newer than the cursor, or,
      when the cursor was refused, everything at or above its slot. */
  function Listed(visible: seq<TxPoint>, q: TxPoint, refused: bool): seq<TxPoint> {
    if refused then Filter(visible, SlotFrom(q.slot))
    else if q.sig == ZERO_SIGNATURE then visible
    else
      var at := IndexOf(visible, q.sig);
      if at < |visible| then visible[at + 1..] else []
  }
}
