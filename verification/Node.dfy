/** The Solana node the tracker talks to: an append-only history that keeps growing, and being forgotten,
    between any two calls, served newest first in pages between exclusive cursors. */
module Node {
  import opened Sequences
  import opened Bytes
  import opened Records
  import opened Events
  import opened Chain

  datatype NodeError = CursorNotFound | Unavailable

  /** Tries of an operation that is retried before it is given up. */
  const RETRY_COUNT := 10

  /** The most signatures one call answers with. */
  const MAX_SIGNATURES := 1000

  /** One page over what is visible, oldest first: `before` and `until` are exclusive, the zero signature
      means no bound, and a cursor that is not visible is an error. The page itself is newest first. */
  function PageOf(visible: seq<TxPoint>, before: Signature, until: Signature): Result<seq<TxPoint>, NodeError> {
    var end := if before == ZERO_SIGNATURE then |visible| else IndexOf(visible, before);
    var start := if until == ZERO_SIGNATURE then 0 else IndexOf(visible, until) + 1;
    if (before != ZERO_SIGNATURE && end == |visible|) || start > |visible| then Err(CursorNotFound)
    else if end <= start then Ok([])
    else Ok(Reverse(visible[if start + MAX_SIGNATURES < end then end - MAX_SIGNATURES else start..end]))
  }

  datatype TransactionResponse = TransactionResponse(slot: u64, content: Transaction)

  class SolanaNode {
    var chain: seq<Tx>
    var height: u64
    var hidden: set<Signature>

    // how often it did not answer, and how often that was because it refused a cursor
    ghost var faults: nat
    ghost var refusals: nat

    ghost predicate Valid()
      reads this
    {
      HistoryOk(chain, height)
    }

    /** What is visible of the first m transactions. */
    ghost function View(m: nat): seq<TxPoint>
      reads this
      requires m <= |chain|
    {
      Visible(Points(chain)[..m], hidden)
    }

    /** Time passes: the chain grows, and more of the history may be forgotten. */
    method Advance()
      requires Valid()
      modifies this`chain, this`height, this`hidden
      ensures Valid() && GrewTo(old(chain), old(height), chain, height) && old(hidden) <= hidden
    {
      var forgotten: set<Signature> := *;
      hidden := hidden + forgotten;
      var more: seq<Tx>, newHeight: u64 := *, *;
      NotGrown(chain, height);
      if Extends(chain, height, more, newHeight) {
        assert (chain + more)[|chain|..] == more;
        chain, height := chain + more, newHeight;
      }
    }

    /** Between polls the node may also serve again what it had forgotten. */
    method ForgetSome()
      modifies this`hidden
    {
      hidden := *;
    }

    method GetBlockHeight() returns (r: Result<u64, NodeError>)
      requires Valid()
      modifies this`chain, this`height, this`hidden, this`faults
      ensures Valid() && GrewTo(old(chain), old(height), chain, height) && old(hidden) <= hidden
      ensures r.Ok? ==> r.value == height
      ensures faults == old(faults) + if r.Err? then 1 else 0
    {
      Advance();
      r := Ok(height);
      if * {
        r, faults := Err(Unavailable), faults + 1;
      }
    }

    /** A page of the history as it is by then; any call can also fail, and a cursor can be refused. */
    method GetSignaturesForAddress(before: Signature, until: Signature)
      returns (r: Result<seq<TxPoint>, NodeError>)
      requires Valid()
      modifies this`chain, this`height, this`hidden, this`faults, this`refusals
      ensures Valid() && GrewTo(old(chain), old(height), chain, height) && old(hidden) <= hidden
      ensures r.Ok? ==> r == PageOf(View(|chain|), before, until)
      ensures r == Err(CursorNotFound) ==> before != ZERO_SIGNATURE || until != ZERO_SIGNATURE
      ensures faults == old(faults) + if r.Err? then 1 else 0
      ensures refusals == old(refusals) + if r == Err(CursorNotFound) then 1 else 0
    {
      Advance();
      r := Err(Unavailable);
      if * {
        assert Points(chain)[..|chain|] == Points(chain);
        r := PageOf(Visible(Points(chain), hidden), before, until);
      } else if before != ZERO_SIGNATURE || until != ZERO_SIGNATURE {
        if * {
          r := Err(CursorNotFound);
        }
      }
      faults := faults + if r.Err? then 1 else 0;
      refusals := refusals + if r == Err(CursorNotFound) then 1 else 0;
    }

    method GetTransaction(sig: Signature) returns (r: Result<TransactionResponse, NodeError>)
      requires Valid()
      modifies this`faults
      ensures r.Ok? ==>
                var i := IndexOf(Points(chain), sig);
                i < |chain| && r.value == TransactionResponse(chain[i].point.slot, chain[i].content)
      ensures faults == old(faults) + if r.Err? then 1 else 0
    {
      var i := IndexOf(Points(chain), sig);
      r := Err(Unavailable);
      if * {
        if i < |chain| {
          r := Ok(TransactionResponse(chain[i].point.slot, chain[i].content));
        }
      }
      faults := faults + if r.Err? then 1 else 0;
    }

    /** The block height of the block a transaction landed in. */
    method GetBlockOf(sig: Signature) returns (r: Result<u64, NodeError>)
      requires Valid()
      modifies this`faults
      ensures r.Ok? ==> var i := IndexOf(Points(chain), sig); i < |chain| && r.value == chain[i].block
      ensures faults == old(faults) + if r.Err? then 1 else 0
    {
      var i := IndexOf(Points(chain), sig);
      r := Err(Unavailable);
      if * {
        if i < |chain| {
          r := Ok(chain[i].block);
        }
      }
      faults := faults + if r.Err? then 1 else 0;
    }
  }
}
