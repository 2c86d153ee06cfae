/** What the writes of a tick can and cannot change. */
module PlanFacts {
  import opened Wrappers
  import opened Ledger
  import opened Tables
  import opened EventFold
  import opened TickPlan

  /** The logs handled by a list of writes, in order. */
  function LogsIn(ws: seq<Write>): seq<Located> {
    if ws == [] then
      []
    else
      LogsIn(ws[..|ws| - 1]) + if ws[|ws| - 1].Handle? then [ws[|ws| - 1].log] else []
  }

  lemma {:induction false} LogsInConcat(a: seq<Write>, b: seq<Write>)
    ensures LogsIn(a + b) == LogsIn(a) + LogsIn(b)
    decreases |b|
  {
    if b == [] {
      assert a + b == a;
    } else {
      LogsInConcat(a, b[..|b| - 1]);
      assert (a + b)[..|a + b| - 1] == a + b[..|b| - 1];
    }
  }

  lemma {:induction false} LogsInNone(ws: seq<Write>)
    requires forall w :: w in ws ==> !w.Handle?
    ensures LogsIn(ws) == []
  {
    if ws != [] {
      assert ws[|ws| - 1] in ws;
      LogsInNone(ws[..|ws| - 1]);
    }
  }

  lemma {:induction false} LogsInLogWrites(ls: seq<Located>)
    ensures LogsIn(LogWrites(ls)) == ls
  {
    if ls != [] {
      LogsInLogWrites(ls[..|ls| - 1]);
      assert LogWrites(ls)[..|LogWrites(ls)| - 1] == LogWrites(ls[..|ls| - 1]);
    }
  }

  /** The heights whose header a tick ending at `target` stores: blocks with watched logs, and its last block. */
  predicate StoresHeader(cfg: Config, c: Chain, target: nat, h: nat) {
    h < |c| && (h == target || HasLogs(cfg, c, h))
  }

  /** A write that copies what chain `c` shows at a height of the range. */
  predicate Faithful(cfg: Config, c: Chain, from: nat, target: nat, w: Write)
    requires target < |c|
  {
    match w
    case Insert(k, r) =>
      && k.cid == cfg.chainId
      && from <= r.block <= target
      && (k.BlockKey? ==> k.height == r.block && r == HeaderRow(c, k.height) && StoresHeader(cfg, c, target, k.height))
      && (k.BlockKey? || k.TxKey?)
    case Handle(l) => from <= l.height <= target
    case Snap(a, h, s) => from <= h <= target && s == StateAt(c, h, a)
  }

  lemma {:induction false} OneBlockFaithful(cfg: Config, c: Chain, h: nat, from: nat, target: nat)
    requires from <= h <= target < |c|
    ensures forall w :: w in OneBlock(cfg, c, h) ==> Faithful(cfg, c, from, target, w) && !w.Handle?
  {
    TxWritesEach(cfg, h, c[h].txs);
  }

  lemma {:induction false} BlockWritesFaithful(cfg: Config, c: Chain, from: nat, hi: nat, target: nat)
    requires from <= hi <= target + 1 <= |c|
    ensures forall w :: w in BlockWrites(cfg, c, from, hi) ==> Faithful(cfg, c, from, target, w) && !w.Handle?
    decreases hi
  {
    if from < hi {
      BlockWritesFaithful(cfg, c, from, hi - 1, target);
      OneBlockFaithful(cfg, c, hi - 1, from, target);
    }
  }

  lemma {:induction false} SnapWritesFaithful(cfg: Config, c: Chain, from: nat, hi: nat, target: nat)
    requires from <= hi <= target + 1 <= |c|
    ensures forall w :: w in SnapWrites(cfg, c, from, hi) ==> Faithful(cfg, c, from, target, w) && !w.Handle?
    decreases hi
  {
    if from < hi {
      SnapWritesFaithful(cfg, c, from, hi - 1, target);
    }
  }

  lemma {:induction false} LogWritesFaithful(cfg: Config, c: Chain, from: nat, target: nat, ls: seq<Located>)
    requires target < |c| && forall l :: l in ls ==> from <= l.height <= target
    ensures forall w :: w in LogWrites(ls) ==> Faithful(cfg, c, from, target, w)
  {
    if ls != [] {
      assert ls[|ls| - 1] in ls;
      LogWritesFaithful(cfg, c, from, target, ls[..|ls| - 1]);
    }
  }

  lemma {:induction false} BeatsFaithful(cfg: Config, db: Db, c: Chain, from: nat, target: nat, vaults: seq<Address>)
    requires from <= target < |c|
    ensures forall w :: w in Beats(cfg, db, c, target, vaults) ==> Faithful(cfg, c, from, target, w) && !w.Handle?
  {
    if vaults != [] {
      BeatsFaithful(cfg, db, c, from, target, vaults[..|vaults| - 1]);
    }
  }

  lemma {:induction false} IngestFaithful(cfg: Config, c: Chain, from: nat, target: nat)
    requires from <= target < |c|
    ensures forall w :: w in Ingest(cfg, c, from, target) ==> Faithful(cfg, c, from, target, w)
  {
    BlockWritesFaithful(cfg, c, from, target + 1, target);
    SnapWritesFaithful(cfg, c, from, target + 1, target);
    LogsInRange(cfg, c, from, target + 1);
    LogWritesFaithful(cfg, c, from, target, Logs(cfg, c, from, target + 1));
  }

  lemma {:induction false} IngestLogs(cfg: Config, c: Chain, from: nat, target: nat)
    requires from <= target < |c|
    ensures LogsIn(Ingest(cfg, c, from, target)) == Logs(cfg, c, from, target + 1)
  {
    var logs := Logs(cfg, c, from, target + 1);
    var blocks, cursor := BlockWrites(cfg, c, from, target + 1), CursorWrites(cfg, c, target);
    var snaps := SnapWrites(cfg, c, from, target + 1);
    assert LogsIn(blocks) == [] by {
      BlockWritesFaithful(cfg, c, from, target + 1, target);
      LogsInNone(blocks);
    }
    assert LogsIn(snaps) == [] by {
      SnapWritesFaithful(cfg, c, from, target + 1, target);
      LogsInNone(snaps);
    }
    LogsInNone(cursor);
    LogsInLogWrites(logs);
    LogsInConcat(blocks, cursor);
    LogsInConcat(blocks + cursor, LogWrites(logs));
    LogsInConcat(blocks + cursor + LogWrites(logs), snaps);
  }

  /** A tick only copies the range it covers, and handles exactly that range's watched logs, in order. */
  lemma {:induction false} TickWritesFaithful(cfg: Config, db: Db, c: Chain, from: nat, target: nat)
    requires from <= target < |c|
    ensures forall w :: w in TickWrites(cfg, db, c, from, target) ==> Faithful(cfg, c, from, target, w)
    ensures LogsIn(TickWrites(cfg, db, c, from, target)) == Logs(cfg, c, from, target + 1)
  {
    IngestFaithful(cfg, c, from, target);
    IngestLogs(cfg, c, from, target);
    var ingest := Ingest(cfg, c, from, target);
    match Exec(cfg, db, ingest)
    case Err =>
    case Ok(mid) =>
      var beats := Beats(cfg, mid, c, target, HeartbeatVaults(cfg, mid));
      BeatsFaithful(cfg, mid, c, from, target, HeartbeatVaults(cfg, mid));
      LogsInNone(beats);
      LogsInConcat(ingest, beats);
  }

  lemma {:induction false} ApplyWriteEvents(cfg: Config, db: Db, w: Write)
    requires ApplyWrite(cfg, db, w).Ok? && (w.Insert? ==> !IsEventKey(w.key))
    ensures Events(ApplyWrite(cfg, db, w).value, cfg.chainId) ==
            if w.Handle? then Step(cfg, Events(db, cfg.chainId), w.log) else Events(db, cfg.chainId)
  {
    match w
    case Insert(k, r) => PutEvents(db, cfg.chainId, k, r);
    case Handle(l) => ApplyLogEvents(cfg, db, l);
    case Snap(a, h, s) => PutEvents(db, cfg.chainId, SnapshotKey(cfg.chainId, a, h), SnapshotRow(h, s.value));
  }

  /** The event tables after any writes are the fold of the logs handled. */
  lemma {:induction false} ExecEvents(cfg: Config, db: Db, ws: seq<Write>)
    requires Exec(cfg, db, ws).Ok?
    requires forall w :: w in ws && w.Insert? ==> !IsEventKey(w.key)
    ensures Events(Exec(cfg, db, ws).value, cfg.chainId) ==
            FoldEvents(cfg, Events(db, cfg.chainId), LogsIn(ws))
  {
    if ws != [] {
      var front, w := ws[..|ws| - 1], ws[|ws| - 1];
      ExecEvents(cfg, db, front);
      assert w in ws;
      ApplyWriteEvents(cfg, Exec(cfg, db, front).value, w);
      if w.Handle? {
        assert LogsIn(ws)[..|LogsIn(ws)| - 1] == LogsIn(front);
      } else {
        assert LogsIn(ws) == LogsIn(front);
      }
    }
  }

  // ---------------------------------------------------------------- tables derived from logs

  /** The tables whose rows come from logs alone: the event tables and `vaults`. */
  predicate IsDerivedKey(k: Key) {
    IsEventKey(k) || k.VaultKey?
  }

  /** The derived tables of one chain, every column included. */
  function Derived(db: Db, cid: nat): Db {
    map k | k in db && k.cid == cid && IsDerivedKey(k) :: db[k]
  }

  lemma {:induction false} PutDerived(db: Db, cid: nat, k: Key, r: Row)
    ensures Derived(Put(db, k, r), cid) ==
            if IsDerivedKey(k) && k.cid == cid then Put(Derived(db, cid), k, r) else Derived(db, cid)
  {
  }

  lemma {:induction false} UpdateDerived(db: Db, cid: nat, k: Key, r: Row)
    requires k in db && IsDerivedKey(k) && k.cid == cid
    ensures Derived(db[k := r], cid) == Derived(db, cid)[k := r]
  {
  }

  lemma {:induction false} InsertVoteDerived(db: Db, cid: nat, proposal: nat, voter: Address, r: Row, support: bool)
    requires InsertVote(db, cid, proposal, voter, r, support).Ok?
    ensures InsertVote(Derived(db, cid), cid, proposal, voter, r, support) ==
            Ok(Derived(InsertVote(db, cid, proposal, voter, r, support).value, cid))
  {
    var vote, parent := VoteKey(cid, proposal, voter), ProposalKey(cid, proposal);
    if vote !in db {
      PutDerived(db, cid, vote, r);
      UpdateDerived(db[vote := r], cid, parent, Tally(db[vote := r], parent, support)[parent]);
    }
  }

  /** Handling a log reads and writes the derived tables only. */
  lemma {:induction false} ApplyLogDerived(cfg: Config, db: Db, l: Located)
    requires ApplyLog(cfg, db, l).Ok?
    ensures ApplyLog(cfg, Derived(db, cfg.chainId), l) == Ok(Derived(ApplyLog(cfg, db, l).value, cfg.chainId))
  {
    var cid, d := cfg.chainId, Derived(db, cfg.chainId);
    match l.log.event
    case Undecodable =>
    case Unwatched =>
    case VaultActivity =>
    case VaultRegistered(vault, name) =>
      PutDerived(db, cid, VaultKey(cid, vault), Row(l.height, VaultCols(name, l.log.txHash, 0, None)));
    case VaultStatusChanged(vault, status, timestamp) =>
      var k := VaultKey(cid, vault);
      if k in db {
        UpdateDerived(db, cid, k, ApplyLog(cfg, db, l).value[k]);
      }
    case ProposalExecuted(pid) =>
      var k := ProposalKey(cid, ClampI64(pid));
      if k in db {
        UpdateDerived(db, cid, k, ApplyLog(cfg, db, l).value[k]);
      }
    case VoteCast(pid, voter, _) =>
      var e := EntryOf(cfg, l).value;
      InsertVoteDerived(db, cid, ClampI64(pid), voter, e.1, true);
    case _ =>
      var e := EntryOf(cfg, l).value;
      PutDerived(db, cid, e.0, e.1);
  }

  /** Whether a log can be handled depends on the derived tables only. */
  lemma {:induction false} ApplyLogOk(cfg: Config, db: Db, l: Located)
    ensures ApplyLog(cfg, db, l).Ok? <==> ApplyLog(cfg, Derived(db, cfg.chainId), l).Ok?
  {
  }

  /** What some writes do to the derived tables: they handle `logs`. */
  ghost predicate DerivedEffect(cfg: Config, db: Db, logs: seq<Located>, db': Db) {
    ApplyLogs(cfg, Derived(db, cfg.chainId), logs) == Ok(Derived(db', cfg.chainId))
  }

  lemma {:induction false} ApplyWriteDerived(cfg: Config, db: Db, w: Write)
    requires ApplyWrite(cfg, db, w).Ok? && (w.Insert? ==> !IsDerivedKey(w.key))
    ensures if w.Handle? then
              ApplyLog(cfg, Derived(db, cfg.chainId), w.log) == Ok(Derived(ApplyWrite(cfg, db, w).value, cfg.chainId))
            else
              Derived(ApplyWrite(cfg, db, w).value, cfg.chainId) == Derived(db, cfg.chainId)
  {
    match w
    case Insert(k, r) => PutDerived(db, cfg.chainId, k, r);
    case Handle(l) => ApplyLogDerived(cfg, db, l);
    case Snap(a, h, s) => PutDerived(db, cfg.chainId, SnapshotKey(cfg.chainId, a, h), SnapshotRow(h, s.value));
  }

  /** The derived tables after any writes are those of handling the logs alone. */
  lemma {:induction false} ExecDerived(cfg: Config, db: Db, ws: seq<Write>)
    requires Exec(cfg, db, ws).Ok?
    requires forall w :: w in ws && w.Insert? ==> !IsDerivedKey(w.key)
    ensures DerivedEffect(cfg, db, LogsIn(ws), Exec(cfg, db, ws).value)
  {
    if ws != [] {
      var front, w := ws[..|ws| - 1], ws[|ws| - 1];
      ExecDerived(cfg, db, front);
      assert w in ws;
      ApplyWriteDerived(cfg, Exec(cfg, db, front).value, w);
      if w.Handle? {
        assert LogsIn(ws)[..|LogsIn(ws)| - 1] == LogsIn(front);
      } else {
        assert LogsIn(ws) == LogsIn(front);
      }
    }
  }

  /** Every vault state the writes need could be read. */
  ghost predicate Readable(ws: seq<Write>) {
    forall w :: w in ws && w.Snap? ==> w.state.Some?
  }

  /** Writes succeed exactly if the vault states they need could be read and their logs can be handled. */
  lemma {:induction false} ExecOkIff(cfg: Config, db: Db, ws: seq<Write>)
    requires forall w :: w in ws && w.Insert? ==> !IsDerivedKey(w.key)
    ensures Exec(cfg, db, ws).Ok? <==> Readable(ws) && ApplyLogs(cfg, Derived(db, cfg.chainId), LogsIn(ws)).Ok?
  {
    if ws != [] {
      var front, w := ws[..|ws| - 1], ws[|ws| - 1];
      ExecOkIff(cfg, db, front);
      assert ws == front + [w];
      if Exec(cfg, db, front).Ok? {
        ExecDerived(cfg, db, front);
        if w.Handle? {
          ApplyLogOk(cfg, Exec(cfg, db, front).value, w.log);
        }
      }
      if w.Handle? {
        assert LogsIn(ws)[..|LogsIn(ws)| - 1] == LogsIn(front);
      } else {
        assert LogsIn(ws) == LogsIn(front);
      }
    }
  }

  /** Block headers and vault snapshots: the tables that mirror chain state. */
  predicate IsStateKey(k: Key) {
    k.BlockKey? || k.SnapshotKey?
  }

  /** The row under a state key is what chain `c` shows there. */
  predicate Mirrors(c: Chain, k: Key, r: Row)
    requires IsStateKey(k)
  {
    && r.block == k.height < |c|
    && (k.BlockKey? ==> r == HeaderRow(c, k.height))
    && (k.SnapshotKey? ==> StateAt(c, k.height, k.contract).Some? &&
                           r == SnapshotRow(k.height, StateAt(c, k.height, k.contract).value))
  }

  lemma {:induction false} ApplyWriteState(cfg: Config, c: Chain, from: nat, target: nat, db: Db, w: Write, k: Key)
    requires target < |c| && Faithful(cfg, c, from, target, w) && ApplyWrite(cfg, db, w).Ok?
    ensures var db' := ApplyWrite(cfg, db, w).value;
            && (IsStateKey(k) && k in db ==> k in db' && db'[k] == db[k])
            && (IsStateKey(k) && k in db' && k !in db ==>
                && k.cid == cfg.chainId && Mirrors(c, k, db'[k]) && from <= db'[k].block <= target
                && (k.BlockKey? ==> StoresHeader(cfg, c, target, k.height)))
            && (k.cid != cfg.chainId ==> (k in db <==> k in db') && (k in db ==> db'[k] == db[k]))
  {
  }

  /** State rows are kept once written and new ones mirror the chain; other chains are untouched. */
  lemma {:induction false} ExecState(cfg: Config, c: Chain, from: nat, target: nat, db: Db, ws: seq<Write>, k: Key)
    requires target < |c| && Exec(cfg, db, ws).Ok?
    requires forall w :: w in ws ==> Faithful(cfg, c, from, target, w)
    ensures var db' := Exec(cfg, db, ws).value;
            && (IsStateKey(k) && k in db ==> k in db' && db'[k] == db[k])
            && (IsStateKey(k) && k in db' && k !in db ==>
                && k.cid == cfg.chainId && Mirrors(c, k, db'[k]) && from <= db'[k].block <= target
                && (k.BlockKey? ==> StoresHeader(cfg, c, target, k.height)))
            && (k.cid != cfg.chainId ==> (k in db <==> k in db') && (k in db ==> db'[k] == db[k]))
  {
    if ws != [] {
      ExecState(cfg, c, from, target, db, ws[..|ws| - 1], k);
      assert ws[|ws| - 1] in ws;
      ApplyWriteState(cfg, c, from, target, Exec(cfg, db, ws[..|ws| - 1]).value, ws[|ws| - 1], k);
    }
  }
}
