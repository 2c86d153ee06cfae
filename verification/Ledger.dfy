/** Failure-compatible results, shared by every module. */
module Wrappers {

  datatype Option<+T> = None | Some(value: T)

  /** The outcome of a database or RPC call: the call may fail, and a failure carries no data. */
  datatype Result<+T> = Ok(value: T) | Err {

    predicate IsFailure() {
      Err?
    }

    function PropagateFailure<U>(): Result<U>
      requires Err?
    {
      Err
    }

    function Extract(): T
      requires Ok?
    {
      value
    }
  }
}

/** The canonical chain as the indexer's RPC endpoint shows it during one tick. */
module Ledger {
  import opened Wrappers

  type Address = nat
  type Word = nat

  /** A decoded log, one constructor per event the indexer dispatches on.  `Undecodable` is a log whose
      topic is watched but whose payload does not decode; `Unwatched` is a log outside the topic filter. */
  datatype Event =
    | AgentDeposit(paymentId: Word, orderId: Word, agent: Address, receiver: Address, amount: Word, shares: Word,
                   windowId: nat)
    | AgentDepositRouted(paymentId: Word, orderId: Word, agent: Address, receiver: Address, amount: Word,
                         sharesPerLeg: seq<Word>, windowId: nat)
    | AgentAuthorized(agent: Address, validUntil: nat, maxPerPayment: Word, maxPerWindow: Word, receiver: Address)
    | AgentRevoked(agent: Address)
    | RouterDeposit(depositor: Address, vault: Address, amount: Word, shares: Word, weightBps: Word)
    | VaultActivity
    | VaultRegistered(vault: Address, name: string)
    | VaultStatusChanged(vault: Address, status: nat, timestamp: Word)
    | ProposalCreated(proposalId: Word, proposer: Address, deadline: nat)
    | VoteCast(proposalId: Word, voter: Address, power: Word)
    | ProposalExecuted(proposalId: Word)
    | WeightsApplied(proposalId: Word, vaults: seq<Address>, bps: seq<Word>)
    | Undecodable
    | Unwatched

  datatype Log = Log(address: Address, index: nat, txHash: Word, event: Event)
  datatype Tx = Tx(hash: Word, index: nat, from: Address, to: Option<Address>, status: nat)
  datatype VaultState = VaultState(totalAssets: Word, totalSupply: Word)

  /** A block: its transactions, its logs, and the vault state `eth_call` reads at it. */
  datatype Block = Block(timestamp: nat, txs: seq<Tx>, logs: seq<Log>, vaults: map<Address, VaultState>)

  type Chain = seq<Block>

  /** An ideal block hash: it commits to the block and, through the parent hash, to everything below it. */
  datatype Digest = Origin | Link(parent: Digest, block: Block)

  function HashOf(c: Chain): Digest {
    if c == [] then Origin else Link(HashOf(c[..|c| - 1]), c[|c| - 1])
  }

  /** The hash of the block at height `h`. */
  function BlockHash(c: Chain, h: nat): Digest
    requires h < |c|
  {
    HashOf(c[..h + 1])
  }

  /** Parent-hash chaining: equal hashes mean equal histories. */
  lemma {:induction false} HashOfInjective(a: Chain, b: Chain)
    requires HashOf(a) == HashOf(b)
    ensures a == b
    decreases |a|
  {
    if a != [] && b != [] {
      HashOfInjective(a[..|a| - 1], b[..|b| - 1]);
      assert a == a[..|a| - 1] + [a[|a| - 1]];
      assert b == b[..|b| - 1] + [b[|b| - 1]];
    }
  }

  /** One hash comparison at height `h` decides whether two chains agree on every block up to `h`. */
  lemma {:induction false} BlockHashDecidesPrefix(a: Chain, b: Chain, h: nat)
    requires h < |a| && h < |b|
    ensures BlockHash(a, h) == BlockHash(b, h) <==> a[..h + 1] == b[..h + 1]
  {
    if BlockHash(a, h) == BlockHash(b, h) {
      HashOfInjective(a[..h + 1], b[..h + 1]);
    }
  }

  /** `max_blocks_per_tick - 1` is an unsigned subtraction, so zero is not a usable setting. */
  type Positive = n: nat | 1 <= n witness 1

  datatype Config = Config(chainId: nat, gateway: Address, vault: Address, registry: Option<Address>,
                           governance: Option<Address>, multiVaultEvents: bool, maxBlocks: Positive,
                           endBlock: Option<nat>)
  {
    /** `watched_addresses` together with the topic filter of `eth_getLogs`. */
    predicate Watches(log: Log) {
      && !log.event.Unwatched?
      && (|| log.address == gateway
          || log.address == vault
          || (multiVaultEvents && registry == Some(log.address))
          || governance == Some(log.address))
    }
  }

  /** A log together with the height of its block. */
  datatype Located = Located(height: nat, log: Log)

  function BlockLogs(cfg: Config, height: nat, logs: seq<Log>): seq<Located> {
    if logs == [] then
      []
    else
      var rest := BlockLogs(cfg, height, logs[..|logs| - 1]);
      var last := logs[|logs| - 1];
      if cfg.Watches(last) then rest + [Located(height, last)] else rest
  }

  /** `eth_getLogs` over heights `lo` (inclusive) to `hi` (exclusive), in chain order. */
  function Logs(cfg: Config, c: Chain, lo: nat, hi: nat): seq<Located>
    requires lo <= hi <= |c|
    decreases hi
  {
    if lo == hi then [] else Logs(cfg, c, lo, hi - 1) + BlockLogs(cfg, hi - 1, c[hi - 1].logs)
  }

  lemma {:induction false} BlockLogsWatched(cfg: Config, height: nat, logs: seq<Log>)
    ensures forall l :: l in BlockLogs(cfg, height, logs) ==> l.height == height && cfg.Watches(l.log)
  {
    if logs != [] {
      BlockLogsWatched(cfg, height, logs[..|logs| - 1]);
    }
  }

  /** Exactly the watched logs of the range are returned, each at its own height. */
  lemma {:induction false} LogsInRange(cfg: Config, c: Chain, lo: nat, hi: nat)
    requires lo <= hi <= |c|
    ensures forall l :: l in Logs(cfg, c, lo, hi) ==> lo <= l.height < hi && cfg.Watches(l.log)
    decreases hi
  {
    if lo < hi {
      LogsInRange(cfg, c, lo, hi - 1);
      BlockLogsWatched(cfg, hi - 1, c[hi - 1].logs);
    }
  }

  lemma {:induction false} LogsSplit(cfg: Config, c: Chain, lo: nat, mid: nat, hi: nat)
    requires lo <= mid <= hi <= |c|
    ensures Logs(cfg, c, lo, hi) == Logs(cfg, c, lo, mid) + Logs(cfg, c, mid, hi)
    decreases hi
  {
    if mid < hi {
      LogsSplit(cfg, c, lo, mid, hi - 1);
    }
  }

  /** The logs below `hi` depend only on the blocks below `hi`. */
  lemma {:induction false} LogsPrefix(cfg: Config, a: Chain, b: Chain, lo: nat, hi: nat)
    requires lo <= hi <= |a| && hi <= |b| && a[..hi] == b[..hi]
    ensures Logs(cfg, a, lo, hi) == Logs(cfg, b, lo, hi)
    decreases hi
  {
    if lo < hi {
      assert a[..hi - 1] == a[..hi][..hi - 1] && b[..hi - 1] == b[..hi][..hi - 1];
      assert a[hi - 1] == a[..hi][hi - 1] && b[hi - 1] == b[..hi][hi - 1];
      LogsPrefix(cfg, a, b, lo, hi - 1);
    }
  }

  // ---------------------------------------------------------------- what the node returns, log by log

  /** `watched_addresses`: the gateway and the vault, the registry in multi-vault mode, the governance contract. */
  function WatchedAddresses(cfg: Config): set<Address> {
    {cfg.gateway, cfg.vault} +
    (if cfg.multiVaultEvents && cfg.registry.Some? then {cfg.registry.value} else {}) +
    (if cfg.governance.Some? then {cfg.governance.value} else {})
  }

  /** The indexer asks for this log: its address is watched and its topic is known. */
  predicate Subscribed(cfg: Config, log: Log) {
    log.address in WatchedAddresses(cfg) && !log.event.Unwatched?
  }

  /** A log on the chain: block height and position within the block. */
  datatype Place = Place(height: nat, position: nat)

  predicate OnChain(c: Chain, p: Place) {
    p.height < |c| && p.position < |c[p.height].logs|
  }

  function LogAt(c: Chain, p: Place): Log
    requires OnChain(c, p)
  {
    c[p.height].logs[p.position]
  }

  predicate Ahead(p: Place, q: Place) {
    p.height < q.height || (p.height == q.height && p.position < q.position)
  }

  /** `p` is a subscribed log at a height from `lo` on and below `hi`. */
  predicate Wanted(cfg: Config, c: Chain, lo: nat, hi: nat, p: Place) {
    OnChain(c, p) && lo <= p.height < hi && Subscribed(cfg, LogAt(c, p))
  }

  /** `places` are the subscribed logs of the range, each once, in chain order. */
  ghost predicate Places(cfg: Config, c: Chain, lo: nat, hi: nat, places: seq<Place>) {
    && (forall j :: 0 <= j < |places| ==> Wanted(cfg, c, lo, hi, places[j]))
    && (forall j, k :: 0 <= j < k < |places| ==> Ahead(places[j], places[k]))
    && (forall p :: Wanted(cfg, c, lo, hi, p) ==> p in places)
  }

  /** `ls` are the logs at `places`. */
  ghost predicate At(c: Chain, places: seq<Place>, ls: seq<Located>) {
    |ls| == |places| &&
    forall j :: 0 <= j < |places| ==> OnChain(c, places[j]) && ls[j] == Located(places[j].height, LogAt(c, places[j]))
  }

  /** The subscribed logs among the first `n` of a block. */
  ghost predicate BlockPlaces(cfg: Config, c: Chain, h: nat, n: nat, places: seq<Place>) {
    && (forall j :: 0 <= j < |places| ==> Wanted(cfg, c, h, h + 1, places[j]) && places[j].position < n)
    && (forall j, k :: 0 <= j < k < |places| ==> Ahead(places[j], places[k]))
    && (forall p :: Wanted(cfg, c, h, h + 1, p) && p.position < n ==> p in places)
  }

  lemma {:induction false} BlockPlacesNext(cfg: Config, c: Chain, h: nat, n: nat, places: seq<Place>, p: Place)
    requires h < |c| && n < |c[h].logs| && BlockPlaces(cfg, c, h, n, places) && p == Place(h, n)
    ensures BlockPlaces(cfg, c, h, n + 1, if Subscribed(cfg, c[h].logs[n]) then places + [p] else places)
  {
    if Subscribed(cfg, c[h].logs[n]) {
      var more := places + [p];
      forall j, k | 0 <= j < k < |more|
        ensures Ahead(more[j], more[k])
      {
        assert more[j] == places[j];
      }
      forall q | Wanted(cfg, c, h, h + 1, q) && q.position < n + 1
        ensures q in more
      {
        assert q.position < n ==> q in places;
        assert more[|places|] == p;
      }
    } else {
      forall q | Wanted(cfg, c, h, h + 1, q) && q.position < n + 1
        ensures q.position < n
      {
      }
    }
  }

  lemma {:induction false} AtConcat(c: Chain, a: seq<Place>, la: seq<Located>, b: seq<Place>, lb: seq<Located>)
    requires At(c, a, la) && At(c, b, lb)
    ensures At(c, a + b, la + lb)
  {
  }

  lemma {:induction false} BlockLogsNext(cfg: Config, h: nat, logs: seq<Log>, n: nat)
    requires n < |logs|
    ensures BlockLogs(cfg, h, logs[..n + 1]) ==
            BlockLogs(cfg, h, logs[..n]) + if Subscribed(cfg, logs[n]) then [Located(h, logs[n])] else []
  {
    assert logs[..n + 1][..n] == logs[..n];
  }

  /** The watched logs of one block, by position. */
  lemma {:induction false} BlockLogsArePlaces(cfg: Config, c: Chain, h: nat, n: nat) returns (places: seq<Place>)
    requires h < |c| && n <= |c[h].logs|
    ensures BlockPlaces(cfg, c, h, n, places) && At(c, places, BlockLogs(cfg, h, c[h].logs[..n]))
  {
    if n == 0 {
      places := [];
    } else {
      var front := BlockLogsArePlaces(cfg, c, h, n - 1);
      var p := Place(h, n - 1);
      BlockPlacesNext(cfg, c, h, n - 1, front, p);
      BlockLogsNext(cfg, h, c[h].logs, n - 1);
      places := if Subscribed(cfg, c[h].logs[n - 1]) then front + [p] else front;
      if Subscribed(cfg, c[h].logs[n - 1]) {
        AtConcat(c, front, BlockLogs(cfg, h, c[h].logs[..n - 1]), [p], [Located(h, c[h].logs[n - 1])]);
      } else {
        assert BlockLogs(cfg, h, c[h].logs[..n]) == BlockLogs(cfg, h, c[h].logs[..n - 1]);
      }
    }
  }

  lemma {:induction false} PlacesNext(cfg: Config, c: Chain, lo: nat, hi: nat, before: seq<Place>, block: seq<Place>)
    requires lo <= hi < |c| && Places(cfg, c, lo, hi, before) && BlockPlaces(cfg, c, hi, |c[hi].logs|, block)
    ensures Places(cfg, c, lo, hi + 1, before + block)
  {
    var places := before + block;
    forall j | 0 <= j < |places|
      ensures Wanted(cfg, c, lo, hi + 1, places[j])
      ensures j < |before| ==> places[j] == before[j] && places[j].height < hi
      ensures j >= |before| ==> places[j] == block[j - |before|] && places[j].height == hi
    {
      assert j < |before| ==> Wanted(cfg, c, lo, hi, before[j]);
      assert j >= |before| ==> Wanted(cfg, c, hi, hi + 1, block[j - |before|]);
    }
    forall j, k | 0 <= j < k < |places|
      ensures Ahead(places[j], places[k])
    {
      assert k < |before| ==> Ahead(before[j], before[k]);
      assert j >= |before| ==> Ahead(block[j - |before|], block[k - |before|]);
    }
    forall p | Wanted(cfg, c, lo, hi + 1, p)
      ensures p in places
    {
      assert Wanted(cfg, c, lo, hi, p) || Wanted(cfg, c, hi, hi + 1, p);
    }
  }

  /** The fetched logs are exactly the subscribed logs of the range, each once, in chain order. */
  lemma {:induction false} LogsArePlaces(cfg: Config, c: Chain, lo: nat, hi: nat) returns (places: seq<Place>)
    requires lo <= hi <= |c|
    ensures Places(cfg, c, lo, hi, places) && At(c, places, Logs(cfg, c, lo, hi))
    decreases hi
  {
    if lo == hi {
      places := [];
    } else {
      var before := LogsArePlaces(cfg, c, lo, hi - 1);
      var block := BlockLogsArePlaces(cfg, c, hi - 1, |c[hi - 1].logs|);
      assert c[hi - 1].logs[..|c[hi - 1].logs|] == c[hi - 1].logs;
      PlacesNext(cfg, c, lo, hi - 1, before, block);
      AtConcat(c, before, Logs(cfg, c, lo, hi - 1), block, BlockLogs(cfg, hi - 1, c[hi - 1].logs));
      places := before + block;
    }
  }

  /** No watched log is missed: one from the gateway, the vault, the governance contract or, in multi-vault mode, the
      registry, with a known topic, at any position of any block of the range, is among those fetched. */
  lemma {:induction false} EveryWatchedLog(cfg: Config, c: Chain, lo: nat, hi: nat, h: nat, i: nat)
    requires lo <= h < hi <= |c| && i < |c[h].logs| && !c[h].logs[i].event.Unwatched?
    requires || c[h].logs[i].address == cfg.gateway || c[h].logs[i].address == cfg.vault
             || (cfg.multiVaultEvents && cfg.registry == Some(c[h].logs[i].address))
             || cfg.governance == Some(c[h].logs[i].address)
    ensures Located(h, c[h].logs[i]) in Logs(cfg, c, lo, hi)
  {
    var places := LogsArePlaces(cfg, c, lo, hi);
    assert Wanted(cfg, c, lo, hi, Place(h, i));
    var j :| 0 <= j < |places| && places[j] == Place(h, i);
    assert Logs(cfg, c, lo, hi)[j] == Located(h, c[h].logs[i]);
  }

  /** The watched logs of a block, from its positions. */
  lemma {:induction false} BlockWatchedIff(cfg: Config, c: Chain, h: nat, l: Located)
    requires h < |c|
    ensures l in BlockLogs(cfg, h, c[h].logs) <==>
            exists i: nat :: i < |c[h].logs| && Subscribed(cfg, c[h].logs[i]) && l == Located(h, c[h].logs[i])
  {
    var places := BlockLogsArePlaces(cfg, c, h, |c[h].logs|);
    var ls := BlockLogs(cfg, h, c[h].logs);
    assert c[h].logs[..|c[h].logs|] == c[h].logs;
    if l in ls {
      var j :| 0 <= j < |ls| && ls[j] == l;
      assert Wanted(cfg, c, h, h + 1, places[j]);
      assert l == Located(h, c[h].logs[places[j].position]);
    }
    if i: nat :| i < |c[h].logs| && Subscribed(cfg, c[h].logs[i]) && l == Located(h, c[h].logs[i]) {
      assert Wanted(cfg, c, h, h + 1, Place(h, i));
      var j :| 0 <= j < |places| && places[j] == Place(h, i);
      assert ls[j] == l;
    }
  }
}
