/** The transactions and snapshots a tick copies: which rows its writes leave, and that none is missing. */
module TickCopies {
  import opened Wrappers
  import opened Ledger
  import opened Tables
  import opened EventFold
  import opened TickPlan
  import opened PlanFacts

  // ---------------------------------------------------------------- what the chain shows

  /** Row `r` under key `k` is transaction `t`. */
  predicate IsTx(t: Tx, k: Key, r: Row)
    requires k.TxKey?
  {
    && k.hash == t.hash && r.cols.TxCols?
    && r.cols.txIndex == t.index && r.cols.from == t.from && r.cols.to == t.to && r.cols.txStatus == t.status
  }

  /** The row is a transaction of its block. */
  ghost predicate TxShown(c: Chain, k: Key, r: Row)
    requires k.TxKey?
  {
    r.block < |c| && exists j: nat :: j < |c[r.block].txs| && IsTx(c[r.block].txs[j], k, r)
  }

  // ---------------------------------------------------------------- the writes

  /** A transaction write copies one from a block of the range with watched logs. */
  ghost predicate CopiesTx(cfg: Config, c: Chain, from: nat, t: nat, w: Write)
    requires t < |c|
  {
    w.Insert? && w.key.TxKey? ==>
      && w.key.cid == cfg.chainId && from <= w.row.block <= t && HasLogs(cfg, c, w.row.block)
      && TxShown(c, w.key, w.row)
  }

  lemma {:induction false} OneBlockCopies(cfg: Config, c: Chain, h: nat, from: nat, t: nat)
    requires from <= h <= t < |c|
    ensures forall w :: w in OneBlock(cfg, c, h) ==> CopiesTx(cfg, c, from, t, w)
    ensures forall j :: 0 <= j < |c[h].txs| && HasLogs(cfg, c, h) ==> TxWrite(cfg, h, c[h].txs[j]) in OneBlock(cfg, c, h)
  {
    var txs := c[h].txs;
    var ws := TxWrites(cfg, h, txs);
    TxWritesEach(cfg, h, txs);
    forall w | w in ws
      ensures CopiesTx(cfg, c, from, t, w) || !HasLogs(cfg, c, h)
    {
      var j :| 0 <= j < |ws| && ws[j] == w;
      assert IsTx(txs[j], w.key, w.row);
    }
    forall j | 0 <= j < |txs|
      ensures TxWrite(cfg, h, txs[j]) in ws
    {
      assert ws[j] == TxWrite(cfg, h, txs[j]);
    }
  }

  lemma {:induction false} BlockWritesCopy(cfg: Config, c: Chain, from: nat, hi: nat, t: nat, w: Write)
    requires from <= hi <= t + 1 <= |c| && w in BlockWrites(cfg, c, from, hi)
    ensures CopiesTx(cfg, c, from, t, w)
    decreases hi
  {
    if w in BlockWrites(cfg, c, from, hi - 1) {
      BlockWritesCopy(cfg, c, from, hi - 1, t, w);
    } else {
      OneBlockCopies(cfg, c, hi - 1, from, t);
    }
  }

  lemma {:induction false} BlockWritesHaveTx(cfg: Config, c: Chain, from: nat, hi: nat, h: nat, j: nat)
    requires from <= h < hi <= |c| && HasLogs(cfg, c, h) && j < |c[h].txs|
    ensures TxWrite(cfg, h, c[h].txs[j]) in BlockWrites(cfg, c, from, hi)
    decreases hi
  {
    if h == hi - 1 {
      OneBlockCopies(cfg, c, h, from, h);
    } else {
      BlockWritesHaveTx(cfg, c, from, hi - 1, h, j);
    }
  }

  lemma {:induction false} LogWritesHandle(ls: seq<Located>)
    ensures forall w :: w in LogWrites(ls) ==> w.Handle?
  {
    if ls != [] {
      LogWritesHandle(ls[..|ls| - 1]);
    }
  }

  lemma {:induction false} SnapWritesSnap(cfg: Config, c: Chain, lo: nat, hi: nat)
    requires lo <= hi <= |c|
    ensures forall w :: w in SnapWrites(cfg, c, lo, hi) ==> w.Snap?
    ensures forall h: nat :: lo <= h < hi && VaultTouched(cfg, c, h) ==>
              Snap(cfg.vault, h, StateAt(c, h, cfg.vault)) in SnapWrites(cfg, c, lo, hi)
    decreases hi
  {
    if lo < hi {
      SnapWritesSnap(cfg, c, lo, hi - 1);
    }
  }

  lemma {:induction false} BeatsSnap(cfg: Config, db: Db, c: Chain, t: nat, vaults: seq<Address>)
    requires t < |c|
    ensures forall w :: w in Beats(cfg, db, c, t, vaults) ==> w.Snap?
  {
    if vaults != [] {
      BeatsSnap(cfg, db, c, t, vaults[..|vaults| - 1]);
    }
  }

  lemma {:induction false} InSum(a: seq<Write>, b: seq<Write>, c: seq<Write>, d: seq<Write>, w: Write)
    ensures w in a + b + c + d <==> w in a || w in b || w in c || w in d
  {
  }

  lemma {:induction false} IngestCopies(cfg: Config, c: Chain, from: nat, t: nat, w: Write)
    requires from <= t < |c| && w in Ingest(cfg, c, from, t)
    ensures CopiesTx(cfg, c, from, t, w)
  {
    var blocks, logs := BlockWrites(cfg, c, from, t + 1), LogWrites(Logs(cfg, c, from, t + 1));
    InSum(blocks, CursorWrites(cfg, c, t), logs, SnapWrites(cfg, c, from, t + 1), w);
    LogWritesHandle(Logs(cfg, c, from, t + 1));
    SnapWritesSnap(cfg, c, from, t + 1);
    if w in blocks {
      BlockWritesCopy(cfg, c, from, t + 1, t, w);
    }
  }

  /** Every transaction a tick writes is the chain's. */
  lemma {:induction false} TickCopiesTxs(cfg: Config, db: Db, c: Chain, from: nat, t: nat)
    requires from <= t < |c|
    ensures forall w :: w in TickWrites(cfg, db, c, from, t) ==> CopiesTx(cfg, c, from, t, w)
  {
    var ingest := Ingest(cfg, c, from, t);
    forall w | w in ingest
      ensures CopiesTx(cfg, c, from, t, w)
    {
      IngestCopies(cfg, c, from, t, w);
    }
    match Exec(cfg, db, ingest)
    case Err =>
    case Ok(mid) => BeatsSnap(cfg, mid, c, t, HeartbeatVaults(cfg, mid));
  }

  /** And every transaction of a block with watched logs, and a snapshot for every block that touches the vault, is
      among its writes. */
  lemma {:induction false} TickIncludes(cfg: Config, db: Db, c: Chain, from: nat, t: nat, h: nat)
    requires from <= h <= t < |c|
    ensures forall j: nat :: j < |c[h].txs| && HasLogs(cfg, c, h) ==>
              TxWrite(cfg, h, c[h].txs[j]) in TickWrites(cfg, db, c, from, t)
    ensures VaultTouched(cfg, c, h) ==>
              Snap(cfg.vault, h, StateAt(c, h, cfg.vault)) in TickWrites(cfg, db, c, from, t)
  {
    var blocks, logs := BlockWrites(cfg, c, from, t + 1), LogWrites(Logs(cfg, c, from, t + 1));
    var cursor, snaps := CursorWrites(cfg, c, t), SnapWrites(cfg, c, from, t + 1);
    forall j: nat | j < |c[h].txs| && HasLogs(cfg, c, h)
      ensures TxWrite(cfg, h, c[h].txs[j]) in Ingest(cfg, c, from, t)
    {
      BlockWritesHaveTx(cfg, c, from, t + 1, h, j);
      InSum(blocks, cursor, logs, snaps, TxWrite(cfg, h, c[h].txs[j]));
    }
    SnapWritesSnap(cfg, c, from, t + 1);
    InSum(blocks, cursor, logs, snaps, Snap(cfg.vault, h, StateAt(c, h, cfg.vault)));
  }

  // ---------------------------------------------------------------- their effect

  /** What some writes do to one transaction key. */
  lemma {:induction false} ExecTx(cfg: Config, c: Chain, from: nat, t: nat, db: Db, ws: seq<Write>, k: Key)
    requires t < |c| && Exec(cfg, db, ws).Ok? && k.TxKey?
    requires forall w :: w in ws ==> CopiesTx(cfg, c, from, t, w)
    ensures var db' := Exec(cfg, db, ws).value;
            && (k in db ==> k in db' && db'[k] == db[k])
            && (k in db' && k !in db ==>
                && k.cid == cfg.chainId && from <= db'[k].block <= t && HasLogs(cfg, c, db'[k].block)
                && TxShown(c, k, db'[k]))
  {
    if ws != [] {
      var front, last := ws[..|ws| - 1], ws[|ws| - 1];
      assert last in ws;
      assert forall w :: w in front ==> w in ws;
      ExecTx(cfg, c, from, t, db, front, k);
    }
  }

  /** The key a write leaves. */
  function KeyOf(cfg: Config, w: Write): Key
    requires !w.Handle?
  {
    if w.Insert? then w.key else SnapshotKey(cfg.chainId, w.contract, w.height)
  }

  lemma {:induction false} ApplyWriteKeeps(cfg: Config, db: Db, w: Write, k: Key)
    requires ApplyWrite(cfg, db, w).Ok? && k in db
    ensures k in ApplyWrite(cfg, db, w).value
  {
  }

  /** No write is lost. */
  lemma {:induction false} ExecLeaves(cfg: Config, db: Db, ws: seq<Write>, w: Write)
    requires Exec(cfg, db, ws).Ok? && w in ws && !w.Handle?
    ensures KeyOf(cfg, w) in Exec(cfg, db, ws).value
  {
    var front, last := ws[..|ws| - 1], ws[|ws| - 1];
    if w in front {
      ExecLeaves(cfg, db, front, w);
      ApplyWriteKeeps(cfg, Exec(cfg, db, front).value, last, KeyOf(cfg, w));
    } else {
      assert w == last;
    }
  }
}
