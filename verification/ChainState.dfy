/** From the chain to the tables: headers, transactions and vault snapshots, column by column. */
module ChainState {
  import opened Wrappers
  import opened Ledger
  import opened Tables
  import opened EventFold
  import opened TickPlan
  import opened PlanFacts
  import opened TickCopies
  import opened TickContract
  import opened Sync
  import opened StableChain
  import opened ChainRows
  import opened ShareValue

  // ---------------------------------------------------------------- headers and snapshots

  /** A stored header is the block's hash, its parent's hash and its timestamp. */
  lemma {:induction false} HeaderColumns(cfg: Config, stores: seq<Store>, chains: seq<Chain>, outcomes: seq<Outcome>,
                                         views: seq<Chain>, n: nat, c: Chain, h: nat)
    requires Describes(cfg, stores, chains, outcomes, views, n, c) && h <= Cursor(stores[n].runs, cfg.chainId)
    requires BlockKey(cfg.chainId, h) in stores[n].db
    ensures h < |c| && stores[n].db[BlockKey(cfg.chainId, h)].block == h
    ensures var header := stores[n].db[BlockKey(cfg.chainId, h)].cols;
            && header.BlockCols? && header.hash == HashOf(c[..h + 1]) && header.parent == HashOf(c[..h])
            && header.timestamp == c[h].timestamp
  {
    var k := BlockKey(cfg.chainId, h);
    DescribesSynced(cfg, stores, chains, outcomes, views, n, c);
    assert Mirrors(c, k, stores[n].db[k]);
  }

  /** A completed tick that advances stores the header at its end, and that of every block with a watched log. */
  lemma {:induction false} HeadersStored(cfg: Config, c: Chain, s: Store, o: Outcome, s': Store, h: nat)
    requires Tick(cfg, c, s, o, s') && o.Done? && Resume(cfg, s.db, c, Cursor(s.runs, cfg.chainId)) < h <= o.recorded
    ensures o.recorded < |c|
    ensures h == o.recorded || (exists i: nat :: i < |c[h].logs| && Subscribed(cfg, c[h].logs[i])) ==>
              BlockKey(cfg.chainId, h) in s'.db
  {
    var last := Cursor(s.runs, cfg.chainId);
    EndStored(cfg, c, Base(cfg, s.db, c, last), Resume(cfg, s.db, c, last), s'.db, o.recorded, h);
  }

  lemma {:induction false} EndStored(cfg: Config, c: Chain, base: Db, resume: int, db': Db, recorded: int, h: nat)
    requires |c| > 0 && -1 <= resume < h <= recorded && Advances(cfg, c, base, resume, db', recorded)
    ensures recorded < |c|
    ensures h == recorded || (exists i: nat :: i < |c[h].logs| && Subscribed(cfg, c[h].logs[i])) ==>
              BlockKey(cfg.chainId, h) in db'
  {
    if i: nat :| i < |c[h].logs| && Subscribed(cfg, c[h].logs[i]) {
      BlockWatchedIff(cfg, c, h, Located(h, c[h].logs[i]));
      assert Located(h, c[h].logs[i]) in BlockLogs(cfg, h, c[h].logs);
    }
    assert h == recorded || HasLogs(cfg, c, h) ==> StoresHeader(cfg, c, recorded, h);
  }

  /** The row is the vault's state at height `h`. */
  ghost predicate SnapshotShows(c: Chain, a: Address, h: nat, r: Row) {
    && h < |c| && a in c[h].vaults && r.block == h && r.cols.SnapshotCols?
    && r.cols.totalAssets == c[h].vaults[a].totalAssets && r.cols.totalSupply == c[h].vaults[a].totalSupply
  }

  /** A stored snapshot up to the cursor is the vault's assets and supply at its block. */
  lemma {:induction false} SnapshotColumns(cfg: Config, stores: seq<Store>, chains: seq<Chain>, outcomes: seq<Outcome>,
                                           views: seq<Chain>, n: nat, c: Chain, a: Address, h: nat)
    requires Describes(cfg, stores, chains, outcomes, views, n, c) && h <= Cursor(stores[n].runs, cfg.chainId)
    requires SnapshotKey(cfg.chainId, a, h) in stores[n].db
    ensures SnapshotShows(c, a, h, stores[n].db[SnapshotKey(cfg.chainId, a, h)])
  {
    var k := SnapshotKey(cfg.chainId, a, h);
    DescribesSynced(cfg, stores, chains, outcomes, views, n, c);
    assert IsStateKey(k) && stores[n].db[k].block == h;
    assert Mirrors(c, k, stores[n].db[k]);
  }

  /** On a growing chain so is every other one, above the cursor too. */
  lemma {:induction false} AllSnapshotsShow(cfg: Config, stores: seq<Store>, chains: seq<Chain>, outcomes: seq<Outcome>,
                                            views: seq<Chain>, n: nat, k: Key)
    requires History(cfg, stores, chains, outcomes, views) && n <= |chains| && Growing(chains)
    requires k in stores[n].db && k.SnapshotKey? && k.cid == cfg.chainId
    ensures SnapshotShows(LastChain(chains, n), k.contract, k.height, stores[n].db[k])
  {
    var c, s := LastChain(chains, n), stores[n];
    StableAlways(cfg, stores, chains, outcomes, views, n);
    assert AtCursor(cfg, s, Cursor(s.runs, cfg.chainId));
    var hi :| Steady(cfg, s.db, Cursor(s.runs, cfg.chainId), hi, c) && Reaches(cfg, Cursor(s.runs, cfg.chainId), hi, c);
    assert Mirrors(c, k, s.db[k]);
  }

  /** What the API reports for an account is its shares of the chain's assets at the vault's latest snapshot: nothing if
      there was no supply, and otherwise `shares * assets / supply` of that block, rounded down. */
  lemma {:induction false} ValueIsTheChains(cfg: Config, stores: seq<Store>, chains: seq<Chain>, outcomes: seq<Outcome>,
                                            views: seq<Chain>, n: nat, a: Address, shares: nat, k: Key,
                                            value: Option<nat>)
    requires History(cfg, stores, chains, outcomes, views) && n <= |chains| && Growing(chains)
    requires Latest(stores[n].db, cfg.chainId, a, k) && IsValue(stores[n].db, cfg.chainId, a, shares, value)
    ensures k.height < |LastChain(chains, n)| && a in LastChain(chains, n)[k.height].vaults
    ensures var state := LastChain(chains, n)[k.height].vaults[a];
            value == if state.totalSupply == 0 then None else Some(shares * state.totalAssets / state.totalSupply)
  {
    var db := stores[n].db;
    AllSnapshotsShow(cfg, stores, chains, outcomes, views, n, k);
    assert IsSnapshot(db, cfg.chainId, a, k);
    var x :| Latest(db, cfg.chainId, a, x) && ValuedAt(db, x, shares, value);
    AllSnapshotsShow(cfg, stores, chains, outcomes, views, n, x);
    assert x == k;
  }

  // ---------------------------------------------------------------- transactions

  /** Every stored transaction is the chain's, and up to the cursor the blocks with watched logs are complete. */
  ghost predicate Copied(cfg: Config, db: Db, cur: int, c: Chain) {
    && (forall k :: k in db && k.TxKey? && k.cid == cfg.chainId ==> TxShown(c, k, db[k]))
    && (forall h: nat :: h <= cur && h < |c| ==> WholeBlock(cfg, c, h, db))
  }

  lemma {:induction false} CopiedGrown(cfg: Config, db: Db, cur: int, c: Chain, c': Chain)
    requires Copied(cfg, db, cur, c) && c <= c' && cur < |c|
    ensures Copied(cfg, db, cur, c')
  {
    forall k | k in db && k.TxKey? && k.cid == cfg.chainId
      ensures TxShown(c', k, db[k])
    {
      assert TxShown(c, k, db[k]) && c'[db[k].block] == c[db[k].block];
    }
    forall h: nat | h <= cur && h < |c'|
      ensures WholeBlock(cfg, c', h, db)
    {
      assert WholeBlock(cfg, c, h, db) && c'[h] == c[h];
    }
  }

  lemma {:induction false} WholeBlockKept(cfg: Config, c: Chain, from: nat, t: nat, db: Db, db': Db, h: nat)
    requires t < |c| && h < |c| && WholeBlock(cfg, c, h, db)
    requires TxEffect(cfg, c, from, t, db, db') && StateEffect(cfg, c, from, t, db, db')
    ensures WholeBlock(cfg, c, h, db')
  {
    if HasLogs(cfg, c, h) {
      forall j: nat | j < |c[h].txs|
        ensures TxKey(cfg.chainId, c[h].txs[j].hash) in db'
      {
        assert TxKey(cfg.chainId, c[h].txs[j].hash) in db;
      }
    }
    assert IsStateKey(SnapshotKey(cfg.chainId, cfg.vault, h));
  }

  lemma {:induction false} PassCopied(cfg: Config, c: Chain, cur: int, t: nat, db: Db, db': Db)
    requires -1 <= cur < t < |c| && Copied(cfg, db, cur, c)
    requires TxEffect(cfg, c, cur + 1, t, db, db') && StateEffect(cfg, c, cur + 1, t, db, db')
    ensures Copied(cfg, db', cur, c)
  {
    forall k | k in db' && k.TxKey? && k.cid == cfg.chainId
      ensures TxShown(c, k, db'[k])
    {
      if k in db {
        assert db'[k] == db[k];
      }
    }
    forall h: nat | h <= cur && h < |c|
      ensures WholeBlock(cfg, c, h, db')
    {
      WholeBlockKept(cfg, c, cur + 1, t, db, db', h);
    }
  }

  lemma {:induction false} AdvancesCopied(cfg: Config, c: Chain, db: Db, cur: int, db': Db, recorded: int)
    requires |c| > 0 && -1 <= cur && Advances(cfg, c, db, cur, db', recorded) && Copied(cfg, db, cur, c)
    ensures Copied(cfg, db', recorded, c) && cur <= recorded
  {
    var target := Target(cfg, cur + 1, |c| - 1);
    if target.Some? {
      FullPassEffect(cfg, c, cur + 1, target.value, db, db');
      PassCopied(cfg, c, cur, target.value, db, db');
    }
  }

  lemma {:induction false} StopsCopied(cfg: Config, c: Chain, db: Db, cur: int, db': Db)
    requires |c| > 0 && -1 <= cur && Stops(cfg, c, db, cur, db') && Copied(cfg, db, cur, c)
    ensures Copied(cfg, db', cur, c)
  {
    var target := Target(cfg, cur + 1, |c| - 1);
    if target.Some? {
      var logs := PartPassEffect(cfg, c, cur + 1, target.value, db, db');
      PassCopied(cfg, c, cur, target.value, db, db');
    }
  }

  lemma {:induction false} TickCopied(cfg: Config, c: Chain, s: Store, o: Outcome, s': Store)
    requires Tick(cfg, c, s, o, s') && !Mismatch(cfg, s.db, c, Cursor(s.runs, cfg.chainId))
    requires Copied(cfg, s.db, Cursor(s.runs, cfg.chainId), c)
    ensures Copied(cfg, s'.db, Cursor(s'.runs, cfg.chainId), c)
  {
    var cur := Cursor(s.runs, cfg.chainId);
    TickCursor(cfg, c, s, o, s');
    if o.Done? {
      AdvancesCopied(cfg, c, s.db, cur, s'.db, o.recorded);
    } else if s'.db != s.db {
      StopsCopied(cfg, c, s.db, cur, s'.db);
    }
  }

  lemma {:induction false} CopiedAlways(cfg: Config, stores: seq<Store>, chains: seq<Chain>, outcomes: seq<Outcome>,
                                        views: seq<Chain>, n: nat)
    requires History(cfg, stores, chains, outcomes, views) && n <= |chains| && Growing(chains)
    ensures Copied(cfg, stores[n].db, Cursor(stores[n].runs, cfg.chainId), LastChain(chains, n))
  {
    if n > 0 {
      var c0, c, s := LastChain(chains, n - 1), chains[n - 1], stores[n - 1];
      CopiedAlways(cfg, stores, chains, outcomes, views, n - 1);
      StableAlways(cfg, stores, chains, outcomes, views, n - 1);
      StableSynced(cfg, s, c0);
      assert c0 <= c && TickAt(cfg, stores, chains, outcomes, views, n - 1);
      StableTick(cfg, c, s, outcomes[n - 1], stores[n], c0);
      CopiedGrown(cfg, s.db, Cursor(s.runs, cfg.chainId), c0, c);
      TickCopied(cfg, c, s, outcomes[n - 1], stores[n]);
    }
  }

  /** Every stored transaction is one of its block, column by column. */
  lemma {:induction false} TransactionColumns(cfg: Config, stores: seq<Store>, chains: seq<Chain>,
                                              outcomes: seq<Outcome>, views: seq<Chain>, n: nat, hash: Word)
    returns (tx: Tx)
    requires History(cfg, stores, chains, outcomes, views) && n <= |chains| && Growing(chains)
    requires TxKey(cfg.chainId, hash) in stores[n].db
    ensures var r := stores[n].db[TxKey(cfg.chainId, hash)];
            && r.block < |LastChain(chains, n)| && tx in LastChain(chains, n)[r.block].txs && tx.hash == hash
            && r.cols.TxCols? && r.cols.txIndex == tx.index && r.cols.from == tx.from && r.cols.to == tx.to
            && r.cols.txStatus == tx.status
  {
    var k, c := TxKey(cfg.chainId, hash), LastChain(chains, n);
    CopiedAlways(cfg, stores, chains, outcomes, views, n);
    var r := stores[n].db[k];
    assert TxShown(c, k, r);
    var j: nat :| j < |c[r.block].txs| && IsTx(c[r.block].txs[j], k, r);
    tx := c[r.block].txs[j];
  }

  /** A block up to the cursor with any watched log has all its transactions stored, and its header; and if the log is
      the configured vault's, a snapshot of the vault. */
  lemma {:induction false} EventBlockComplete(cfg: Config, stores: seq<Store>, chains: seq<Chain>,
                                              outcomes: seq<Outcome>, views: seq<Chain>, n: nat, p: Place)
    requires History(cfg, stores, chains, outcomes, views) && n <= |chains| && Growing(chains)
    requires OnChain(LastChain(chains, n), p) && Subscribed(cfg, LogAt(LastChain(chains, n), p))
    requires p.height <= Cursor(stores[n].runs, cfg.chainId)
    ensures BlockKey(cfg.chainId, p.height) in stores[n].db
    ensures forall tx :: tx in LastChain(chains, n)[p.height].txs ==> TxKey(cfg.chainId, tx.hash) in stores[n].db
    ensures LogAt(LastChain(chains, n), p).address == cfg.vault ==>
              SnapshotKey(cfg.chainId, cfg.vault, p.height) in stores[n].db
  {
    var c, h, l := LastChain(chains, n), p.height, Located(p.height, LogAt(LastChain(chains, n), p));
    BlockWatchedIff(cfg, c, h, l);
    assert l in BlockLogs(cfg, h, c[h].logs);
    CopiedAlways(cfg, stores, chains, outcomes, views, n);
    assert WholeBlock(cfg, c, h, stores[n].db) && HasLogs(cfg, c, h);
    StableHeaders(cfg, stores, chains, outcomes, views, n);
    assert IsEnds(cfg, stores, chains, n, Ends(cfg, stores, chains[..n]));
  }
}
