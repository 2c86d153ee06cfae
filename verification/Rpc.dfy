/** The chain node as one tick sees it: a fixed chain, any call may fail. */
module Rpc {
  import opened Wrappers
  import opened Ledger
  import opened TickPlan

  /** The header fields the indexer reads. */
  datatype BlockHeader = BlockHeader(hash: Digest, parent: Digest, timestamp: nat)

  class Node {
    const chain: Chain
    const fails: nat -> bool
    var calls: nat

    constructor (chain: Chain, fails: nat -> bool)
      ensures this.chain == chain
    {
      this.chain, this.fails, calls := chain, fails, 0;
    }

    /** Every call from number `lo` to `hi` (exclusive) was answered. */
    ghost predicate Served(lo: nat, hi: nat) {
      forall n: nat :: lo <= n < hi ==> !fails(n)
    }

    method Next() returns (ok: bool)
      modifies this`calls
      ensures calls == old(calls) + 1 && ok == !fails(old(calls))
    {
      ok := !fails(calls);
      calls := calls + 1;
    }

    method BlockNumber() returns (res: Result<nat>)
      requires |chain| > 0
      modifies this`calls
      ensures calls >= old(calls) && (Served(old(calls), calls) ==> res.Ok?)
      ensures res.Ok? ==> res.value == |chain| - 1
    {
      var ok := Next();
      return if ok then Ok(|chain| - 1) else Err;
    }

    method Header(h: nat) returns (res: Result<Option<BlockHeader>>)
      modifies this`calls
      ensures calls >= old(calls) && (Served(old(calls), calls) ==> res.Ok?)
      ensures res.Ok? ==> (res.value.Some? <==> h < |chain|)
      ensures res.Ok? && res.value.Some? ==>
                res.value.value == BlockHeader(BlockHash(chain, h), HashOf(chain[..h]), chain[h].timestamp)
    {
      var ok := Next();
      if !ok {
        return Err;
      }
      return Ok(if h < |chain| then Some(BlockHeader(BlockHash(chain, h), HashOf(chain[..h]), chain[h].timestamp))
                else None);
    }

    method BlockWithTxs(h: nat) returns (res: Result<(BlockHeader, seq<Tx>)>)
      requires h < |chain|
      modifies this`calls
      ensures calls >= old(calls) && (Served(old(calls), calls) ==> res.Ok?)
      ensures res.Ok? ==>
                res.value == (BlockHeader(BlockHash(chain, h), HashOf(chain[..h]), chain[h].timestamp), chain[h].txs)
    {
      var ok := Next();
      return if ok then Ok((BlockHeader(BlockHash(chain, h), HashOf(chain[..h]), chain[h].timestamp), chain[h].txs))
             else Err;
    }

    method GetLogs(cfg: Config, from: nat, to: nat) returns (res: Result<seq<Located>>)
      requires from <= to < |chain|
      modifies this`calls
      ensures calls >= old(calls) && (Served(old(calls), calls) ==> res.Ok?)
      ensures res.Ok? ==> res.value == Logs(cfg, chain, from, to + 1)
    {
      var ok := Next();
      return if ok then Ok(Logs(cfg, chain, from, to + 1)) else Err;
    }

    /** The `eth_call` reads of one snapshot; a contract without state at that block makes them fail. */
    method CallVault(a: Address, h: nat) returns (res: Result<VaultState>)
      requires h < |chain|
      modifies this`calls
      ensures calls >= old(calls) && (Served(old(calls), calls) ==> (res.Ok? <==> StateAt(chain, h, a).Some?))
      ensures res.Ok? ==> StateAt(chain, h, a) == Some(res.value)
    {
      var ok := Next();
      return if ok && a in chain[h].vaults then Ok(chain[h].vaults[a]) else Err;
    }
  }
}
