/** Several indexers, one per chain, over the same tables. */
module Shared {
  import opened Wrappers
  import opened Ledger
  import opened Tables
  import opened EventFold
  import opened TickPlan
  import opened PlanFacts
  import opened TickContract
  import opened Sync
  import opened Reorg

  /** The rows of one chain are the same. */
  ghost predicate SameRows(cid: nat, db: Db, db': Db) {
    forall k: Key :: k.cid == cid ==> (k in db <==> k in db') && (k in db ==> db'[k] == db[k])
  }

  lemma {:induction false} SameRowsSynced(cfg: Config, db: Db, db': Db, cur: int, v: Chain)
    requires SameRows(cfg.chainId, db, db') && Synced(cfg, db, cur, v)
    ensures Synced(cfg, db', cur, v)
  {
    assert Events(db', cfg.chainId) == Events(db, cfg.chainId);
  }

  lemma {:induction false} ForeignRun(runs: seq<Run>, run: Run, cid: nat)
    requires !Counts(run, cid)
    ensures Cursor(runs + [run], cid) == Cursor(runs, cid)
  {
    assert (runs + [run])[..|runs|] == runs;
  }

  lemma {:induction false} ForeignCursor(cfg: Config, c: Chain, s: Store, o: Outcome, s': Store, cid: nat)
    requires Tick(cfg, c, s, o, s') && cfg.chainId != cid
    ensures Cursor(s'.runs, cid) == Cursor(s.runs, cid)
  {
    if |s'.runs| > |s.runs| {
      var run := s'.runs[|s.runs|];
      assert s'.runs == s.runs + [run];
      ForeignRun(s.runs, run, cid);
    }
  }

  /** A tick of another chain's indexer leaves this chain's rows and cursor alone. */
  lemma {:induction false} ForeignTick(cfg: Config, c: Chain, s: Store, o: Outcome, s': Store, cid: nat)
    requires Tick(cfg, c, s, o, s') && cfg.chainId != cid
    ensures SameRows(cid, s.db, s'.db) && Cursor(s'.runs, cid) == Cursor(s.runs, cid)
  {
    ForeignCursor(cfg, c, s, o, s', cid);
    forall k: Key | k.cid == cid
      ensures (k in s.db <==> k in s'.db) && (k in s.db ==> s'.db[k] == s.db[k])
    {
      TickFrame(cfg, c, s, o, s', k);
    }
  }

  /** Tick `i` is one of the indexer with configuration `cfgs[i]`. */
  ghost predicate SharedStep(cfgs: seq<Config>, chains: seq<Chain>, stores: seq<Store>, outcomes: seq<Outcome>, i: nat)
    requires |cfgs| == |chains| == |outcomes| && |stores| == |chains| + 1 && i < |chains|
  {
    Tick(cfgs[i], chains[i], stores[i], outcomes[i], stores[i + 1])
  }

  /** Any interleaving of ticks of any number of indexers, from empty tables. */
  ghost predicate SharedHistory(cfgs: seq<Config>, chains: seq<Chain>, stores: seq<Store>, outcomes: seq<Outcome>) {
    && |cfgs| == |chains| == |outcomes| && |stores| == |chains| + 1 && stores[0] == Store(map[], [])
    && forall i: nat :: i < |chains| ==> SharedStep(cfgs, chains, stores, outcomes, i)
  }

  /** The chain the index of `cfg` describes after `n` ticks of all indexers. */
  function ViewOf(cfg: Config, cfgs: seq<Config>, chains: seq<Chain>, stores: seq<Store>, outcomes: seq<Outcome>,
                  n: nat)
    : Chain
    requires |cfgs| == |chains| == |outcomes| && |stores| == |chains| + 1 && n <= |chains|
  {
    if n == 0 then
      []
    else
      var before := ViewOf(cfg, cfgs, chains, stores, outcomes, n - 1);
      if cfgs[n - 1].chainId == cfg.chainId then
        NextView(cfg, chains[n - 1], stores[n - 1], outcomes[n - 1], stores[n], before)
      else
        before
  }

  /** Each chain id is indexed with one configuration. */
  predicate OneConfig(cfg: Config, cfgs: seq<Config>) {
    forall i :: 0 <= i < |cfgs| && cfgs[i].chainId == cfg.chainId ==> cfgs[i] == cfg
  }

  /** Index refines chain, for every chain whose own ticks are healthy, whatever the indexers of other chains do
      between them, healthy or not. */
  lemma {:induction false} SharedIndexRefines(cfg: Config, cfgs: seq<Config>, chains: seq<Chain>, stores: seq<Store>,
                                              outcomes: seq<Outcome>, n: nat)
    requires SharedHistory(cfgs, chains, stores, outcomes) && n <= |chains| && OneConfig(cfg, cfgs)
    requires forall i :: 0 <= i < n && cfgs[i].chainId == cfg.chainId ==>
               Healthy(cfg, chains[i], stores[i], outcomes[i], stores[i + 1])
    ensures Synced(cfg, stores[n].db, Cursor(stores[n].runs, cfg.chainId),
                   ViewOf(cfg, cfgs, chains, stores, outcomes, n))
  {
    if n == 0 {
      EmptySynced(cfg);
    } else {
      var c, s, o, s' := chains[n - 1], stores[n - 1], outcomes[n - 1], stores[n];
      var view := ViewOf(cfg, cfgs, chains, stores, outcomes, n - 1);
      SharedIndexRefines(cfg, cfgs, chains, stores, outcomes, n - 1);
      assert SharedStep(cfgs, chains, stores, outcomes, n - 1);
      if cfgs[n - 1].chainId == cfg.chainId {
        TickIff(cfg, c, s, o, s', view);
      } else {
        ForeignTick(cfgs[n - 1], c, s, o, s', cfg.chainId);
        SameRowsSynced(cfg, s.db, s'.db, Cursor(s.runs, cfg.chainId), view);
      }
    }
  }
}
