/** One tick of the indexer, statement by statement, proved to follow the write plan and hence the tick
    contract that the history theorems rest on. */
module Indexer {
  import opened Wrappers
  import opened Ledger
  import opened Tables
  import opened TickPlan
  import opened TickContract
  import opened Sync
  import opened Rpc
  import opened Database
  import opened PlanRuns

  /** Every database call since number `dc` and every node call since number `rc` was answered. */
  ghost predicate Served(db: Connection, rpc: Node, dc: nat, rc: nat)
    reads db, rpc
  {
    db.Served(dc, db.calls) && rpc.Served(rc, rpc.calls)
  }

  // ---------------------------------------------------------------- reorg check

  /** `walk_back_to_match`: the highest stored height at or below `start` whose hash the chain still shows. */
  method WalkBackToMatch(db: Connection, rpc: Node, cfg: Config, start: int) returns (res: Result<int>)
    requires -1 <= start
    modifies db`calls, rpc`calls
    ensures db.calls >= old(db.calls) && rpc.calls >= old(rpc.calls)
    ensures Served(db, rpc, old(db.calls), old(rpc.calls)) ==> res.Ok?
    ensures res.Ok? ==> res.value == Root(cfg, db.rows, rpc.chain, start)
  {
    var n := start;
    while n >= 0
      invariant -1 <= n <= start && db.calls >= old(db.calls) && rpc.calls >= old(rpc.calls)
      invariant Root(cfg, db.rows, rpc.chain, start) == Root(cfg, db.rows, rpc.chain, n)
    {
      var stored :- db.GetBlockHash(cfg.chainId, n);
      if stored.Some? {
        var header :- rpc.Header(n);
        if header.Some? && header.value.hash == stored.value {
          return Ok(n);
        }
      }
      n := n - 1;
    }
    return Ok(-1);
  }

  /** The reorg check: compare one hash, and on a difference walk back and roll back.  It fails exactly when a call
      fails or the rollback is refused. */
  method CheckReorg(db: Connection, rpc: Node, cfg: Config, last: int) returns (res: Result<int>)
    requires -1 <= last
    modifies db`rows, db`calls, rpc`calls
    ensures db.calls >= old(db.calls) && rpc.calls >= old(rpc.calls)
    ensures res.Ok? ==> res.value == Resume(cfg, old(db.rows), rpc.chain, last) &&
                        db.rows == Base(cfg, old(db.rows), rpc.chain, last)
    ensures res.Err? ==> db.rows == old(db.rows) || db.rows == Base(cfg, old(db.rows), rpc.chain, last)
    ensures RollbackBlocked(cfg, old(db.rows), rpc.chain, last) ==> res.Err? && db.rows == old(db.rows)
    ensures Served(db, rpc, old(db.calls), old(rpc.calls)) && !RollbackBlocked(cfg, old(db.rows), rpc.chain, last) ==>
              res.Ok?
  {
    if last >= 0 {
      var stored :- db.GetBlockHash(cfg.chainId, last);
      if stored.Some? {
        var header :- rpc.Header(last);
        if header.Some? && header.value.hash != stored.value {
          var root :- WalkBackToMatch(db, rpc, cfg, last);
          var _ :- db.DeleteAboveBlock(cfg.chainId, root);
          return Ok(root);
        }
      }
    }
    return Ok(last);
  }

  // ---------------------------------------------------------------- ingest

  /** One block: its header and transactions if it has watched logs. */
  method IngestBlock(db: Connection, rpc: Node, cfg: Config, h: nat, eventful: bool) returns (res: Result<()>)
    requires h < |rpc.chain| && (eventful <==> HasLogs(cfg, rpc.chain, h))
    modifies db`rows, db`calls, rpc`calls
    ensures db.calls >= old(db.calls) && rpc.calls >= old(rpc.calls)
    ensures PhaseRan(cfg, rpc.chain, BlockAt(h), old(db.rows), res.Ok?,
                     Served(db, rpc, old(db.calls), old(rpc.calls)), db.rows)
  {
    ghost var c, start := rpc.chain, db.rows;
    if !eventful {
      PhaseEmpty(cfg, c, BlockAt(h), start);
      return Ok(());
    }
    PhaseNotStarted(cfg, c, BlockAt(h), start);
    var got := rpc.BlockWithTxs(h);
    if got.Err? {
      return Err;
    }
    var txs := got.value.1;
    ghost var dc := db.calls;
    var r := db.Insert(BlockKey(cfg.chainId, h),
                       Row(h, BlockCols(got.value.0.hash, got.value.0.parent, got.value.0.timestamp)));
    ghost var one, all := db.Served(dc, db.calls), Served(db, rpc, old(db.calls), old(rpc.calls));
    HeaderStep(cfg, c, h, start, r.Ok?, one, all, db.rows);
    if r.Err? {
      TxsAll(cfg, c, h, start, false, all, db.rows);
      return Err;
    }
    dc := db.calls;
    var rest := IngestTxs(db, cfg, rpc.chain, h, start);
    one, all := db.Served(dc, db.calls), Served(db, rpc, old(db.calls), old(rpc.calls));
    PhaseServed(cfg, c, TxsOf(h, |txs|), start, rest.Ok?, one, all, db.rows);
    TxsAll(cfg, c, h, start, rest.Ok?, all, db.rows);
    return rest;
  }

  /** The transactions of one block, after its header. */
  method IngestTxs(db: Connection, cfg: Config, c: Chain, h: nat, ghost start: Db) returns (res: Result<()>)
    requires h < |c| && PhaseRan(cfg, c, TxsOf(h, 0), start, true, true, db.rows)
    modifies db`rows, db`calls
    ensures db.calls >= old(db.calls)
    ensures PhaseRan(cfg, c, TxsOf(h, |c[h].txs|), start, res.Ok?, db.Served(old(db.calls), db.calls), db.rows)
  {
    var txs, i := c[h].txs, 0;
    while i != |txs|
      invariant 0 <= i <= |txs| && db.calls >= old(db.calls)
      invariant PhaseRan(cfg, c, TxsOf(h, i), start, true, true, db.rows)
    {
      ghost var before, dc, w := db.rows, db.calls, TxWrite(cfg, h, txs[i]);
      var r := db.Insert(TxKey(cfg.chainId, txs[i].hash),
                         Row(h, TxCols(txs[i].index, txs[i].from, txs[i].to, txs[i].status)));
      ghost var one, all := db.Served(dc, db.calls), db.Served(old(db.calls), db.calls);
      PhaseSingle(cfg, c, Single(w), w, before, r.Ok?, one, db.rows);
      LoopStep(cfg, c, TxsOf(h, i), Single(w), TxsOf(h, i + 1), TxsOf(h, |txs|), |txs| - i, start, before, r.Ok?, one,
               all, db.rows);
      if r.Err? {
        return Err;
      }
      i := i + 1;
    }
    PhaseServed(cfg, c, TxsOf(h, i), start, true, true, db.Served(old(db.calls), db.calls), db.rows);
    return Ok(());
  }

  /** Group the logs by block and contract. */
  method GroupLogs(cfg: Config, ghost c: Chain, ghost from: nat, ghost hi: nat, logs: seq<Located>)
    returns (pairs: set<(nat, Address)>, blocks: set<nat>)
    requires from <= hi <= |c| && logs == Logs(cfg, c, from, hi)
    ensures Grouped(cfg, c, from, hi, pairs, blocks)
  {
    pairs, blocks := {}, {};
    for i := 0 to |logs|
      invariant forall h :: h in blocks <==> exists l :: l in logs[..i] && l.height == h
      invariant forall h, a :: (h, a) in pairs <==> exists l :: l in logs[..i] && l.height == h && l.log.address == a
    {
      assert logs[..i + 1] == logs[..i] + [logs[i]];
      pairs := pairs + {(logs[i].height, logs[i].log.address)};
      blocks := blocks + {logs[i].height};
    }
    assert logs[..|logs|] == logs;
    forall h: nat | from <= h < hi
      ensures h in blocks <==> HasLogs(cfg, c, h)
      ensures (h, cfg.vault) in pairs <==> VaultTouched(cfg, c, h)
    {
      GroupedAt(cfg, c, from, hi, h);
    }
  }

  /** Every block with events, lowest first. */
  method IngestBlocks(db: Connection, rpc: Node, cfg: Config, from: nat, target: nat, ghost pairs: set<(nat, Address)>,
                      blocks: set<nat>)
    returns (res: Result<()>)
    requires from <= target < |rpc.chain| && Grouped(cfg, rpc.chain, from, target + 1, pairs, blocks)
    modifies db`rows, db`calls, rpc`calls
    ensures db.calls >= old(db.calls) && rpc.calls >= old(rpc.calls)
    ensures PhaseRan(cfg, rpc.chain, BlocksTo(from, target + 1), old(db.rows), res.Ok?,
                     Served(db, rpc, old(db.calls), old(rpc.calls)), db.rows)
  {
    ghost var c, start, end := rpc.chain, db.rows, target + 1;
    PhaseEmpty(cfg, c, BlocksTo(from, from), start);
    var h := from;
    while h != target + 1
      invariant from <= h <= target + 1 && db.calls >= old(db.calls) && rpc.calls >= old(rpc.calls)
      invariant PhaseRan(cfg, c, BlocksTo(from, h), start, true, true, db.rows)
    {
      ghost var before, dc, rc := db.rows, db.calls, rpc.calls;
      var r := IngestBlock(db, rpc, cfg, h, h in blocks);
      ghost var one, all := Served(db, rpc, dc, rc), Served(db, rpc, old(db.calls), old(rpc.calls));
      LoopStep(cfg, c, BlocksTo(from, h), BlockAt(h), BlocksTo(from, h + 1), BlocksTo(from, end), end - h, start, before,
               r.Ok?, one, all, db.rows);
      if r.Err? {
        return Err;
      }
      h := h + 1;
    }
    PhaseServed(cfg, c, BlocksTo(from, end), start, true, true, Served(db, rpc, old(db.calls), old(rpc.calls)), db.rows);
    return Ok(());
  }

  /** The header at the end of the range is stored even without events there. */
  method IngestCursor(db: Connection, rpc: Node, cfg: Config, target: nat, blocks: set<nat>) returns (res: Result<()>)
    requires target < |rpc.chain| && (target in blocks <==> HasLogs(cfg, rpc.chain, target))
    modifies db`rows, db`calls, rpc`calls
    ensures db.calls >= old(db.calls) && rpc.calls >= old(rpc.calls)
    ensures PhaseRan(cfg, rpc.chain, CursorAt(target), old(db.rows), res.Ok?,
                     Served(db, rpc, old(db.calls), old(rpc.calls)), db.rows)
  {
    ghost var c, start := rpc.chain, db.rows;
    PhaseNotStarted(cfg, c, CursorAt(target), start);
    if target in blocks {
      PhaseEmpty(cfg, c, CursorAt(target), start);
    } else {
      var header := rpc.Header(target);
      if header.Err? {
        return Err;
      }
      if header.value.Some? {
        var got := header.value.value;
        var r := db.Insert(BlockKey(cfg.chainId, target), Row(target, BlockCols(got.hash, got.parent, got.timestamp)));
        PhaseSingle(cfg, c, CursorAt(target), TickPlan.Header(cfg, c, target), start, r.Ok?,
                    db.Served(old(db.calls), db.calls), db.rows);
        if r.Err? {
          return Err;
        }
      }
    }
    return Ok(());
  }

  /** `handle_log`: decode and dispatch. */
  method HandleLog(db: Connection, cfg: Config, l: Located) returns (res: Result<nat>)
    modifies db`rows, db`calls
    ensures db.calls >= old(db.calls)
    ensures Issued(old(db.rows), ApplyLog(cfg, old(db.rows), l), res.Ok?, db.Served(old(db.calls), db.calls), db.rows)
  {
    var id, h, log := cfg.chainId, l.height, l.log;
    match log.event {
      case AgentDeposit(pid, oid, agent, receiver, amount, shares, window) =>
        res := db.Insert(DepositKey(id, h, log.index),
                         Row(h, DepositCols(log.txHash, pid, oid, agent, receiver, amount, shares, WrapI64(window),
                                            Some(cfg.vault))));
      case AgentDepositRouted(pid, oid, agent, receiver, amount, legs, window) =>
        var total := SumLegs(legs);
        res := db.Insert(DepositKey(id, h, log.index),
                         Row(h, DepositCols(log.txHash, pid, oid, agent, receiver, amount, total, WrapI64(window),
                                            None)));
      case AgentAuthorized(agent, until, perPayment, perWindow, receiver) =>
        res := db.Insert(PolicyKey(id, h, log.index),
                         Row(h, PolicyCols(log.txHash, agent, false, Some(WrapI64(until)), Some(perPayment),
                                           Some(perWindow), Some(receiver))));
      case AgentRevoked(agent) =>
        res := db.Insert(PolicyKey(id, h, log.index), Row(h, PolicyCols(log.txHash, agent, true, None, None, None, None)));
      case RouterDeposit(depositor, vault, amount, shares, weight) =>
        res := db.Insert(LegKey(id, h, log.index),
                         Row(h, LegCols(log.txHash, log.txHash, depositor, vault, amount, shares, weight)));
      case VaultActivity =>
        res := Ok(0);
      case VaultRegistered(vault, name) =>
        res := db.Insert(VaultKey(id, vault), Row(h, VaultCols(name, log.txHash, 0, None)));
      case VaultStatusChanged(vault, status, timestamp) =>
        res := db.UpdateVaultStatus(id, vault, status, ClampI64(timestamp));
      case ProposalCreated(pid, proposer, deadline) =>
        res := db.Insert(ProposalKey(id, ClampI64(pid)),
                         Row(h, ProposalCols(log.index, log.txHash, proposer, h, WrapI64(deadline), 0, None, 0, 0)));
      case VoteCast(pid, voter, power) =>
        res := db.InsertVote(id, ClampI64(pid), voter, Row(h, VoteCols(log.index, log.txHash, true, power)), true);
      case ProposalExecuted(pid) =>
        res := db.ExecuteProposal(id, ClampI64(pid), h);
      case WeightsApplied(_, vaults, bps) =>
        res := db.Insert(WeightKey(id, log.address, h, log.index),
                         Row(h, WeightCols(log.txHash, vaults, seq(|bps|, i requires 0 <= i < |bps| => ClampI64(bps[i])))));
      case Undecodable =>
        res := Err;
      case Unwatched =>
        res := Ok(0);
    }
  }

  method SumLegs(legs: seq<Word>) returns (total: Word)
    ensures total == SaturatingSum(legs)
  {
    total := 0;
    for i := 0 to |legs|
      invariant total == SaturatingSum(legs[..i])
    {
      assert legs[..i + 1][..i] == legs[..i];
      total := SaturatingAdd(total, legs[i]);
    }
    assert legs[..|legs|] == legs;
  }

  method HandleLogs(db: Connection, cfg: Config, ghost c: Chain, logs: seq<Located>) returns (res: Result<()>)
    modifies db`rows, db`calls
    ensures db.calls >= old(db.calls)
    ensures PhaseRan(cfg, c, LogsOf(logs, |logs|), old(db.rows), res.Ok?, db.Served(old(db.calls), db.calls), db.rows)
  {
    ghost var start := db.rows;
    PhaseEmpty(cfg, c, LogsOf(logs, 0), start);
    var i := 0;
    while i != |logs|
      invariant 0 <= i <= |logs| && db.calls >= old(db.calls)
      invariant PhaseRan(cfg, c, LogsOf(logs, i), start, true, true, db.rows)
    {
      ghost var before, dc := db.rows, db.calls;
      var r := HandleLog(db, cfg, logs[i]);
      ghost var one, all := db.Served(dc, db.calls), db.Served(old(db.calls), db.calls);
      ghost var w := Write.Handle(logs[i]);
      PhaseSingle(cfg, c, Single(w), w, before, r.Ok?, one, db.rows);
      LoopStep(cfg, c, LogsOf(logs, i), Single(w), LogsOf(logs, i + 1), LogsOf(logs, |logs|), |logs| - i, start, before,
               r.Ok?, one, all, db.rows);
      if r.Err? {
        return Err;
      }
      i := i + 1;
    }
    PhaseServed(cfg, c, LogsOf(logs, |logs|), start, true, true, db.Served(old(db.calls), db.calls), db.rows);
    return Ok(());
  }

  // ---------------------------------------------------------------- snapshots

  /** `snapshot_vault_address`. */
  method SnapshotVault(db: Connection, rpc: Node, cfg: Config, a: Address, h: nat) returns (res: Result<nat>)
    requires h < |rpc.chain|
    modifies db`rows, db`calls, rpc`calls
    ensures db.calls >= old(db.calls) && rpc.calls >= old(rpc.calls)
    ensures Issued(old(db.rows), ApplyWrite(cfg, old(db.rows), Snap(a, h, StateAt(rpc.chain, h, a))), res.Ok?,
                   Served(db, rpc, old(db.calls), old(rpc.calls)), db.rows)
  {
    var state := rpc.CallVault(a, h);
    if state.Err? {
      return Err;
    }
    res := db.Insert(SnapshotKey(cfg.chainId, a, h), SnapshotRow(h, state.value));
  }

  /** One round: a snapshot of the configured vault at `h` if it logged something there. */
  method SnapshotBlock(db: Connection, rpc: Node, cfg: Config, h: nat, touched: bool) returns (res: Result<()>)
    requires h < |rpc.chain| && (touched <==> VaultTouched(cfg, rpc.chain, h))
    modifies db`rows, db`calls, rpc`calls
    ensures db.calls >= old(db.calls) && rpc.calls >= old(rpc.calls)
    ensures PhaseRan(cfg, rpc.chain, SnapAt(h), old(db.rows), res.Ok?, Served(db, rpc, old(db.calls), old(rpc.calls)),
                     db.rows)
  {
    ghost var c, before := rpc.chain, db.rows;
    if !touched {
      PhaseEmpty(cfg, c, SnapAt(h), before);
      return Ok(());
    }
    var r := SnapshotVault(db, rpc, cfg, cfg.vault, h);
    PhaseSingle(cfg, c, SnapAt(h), Snap(cfg.vault, h, StateAt(c, h, cfg.vault)), before, r.Ok?,
                Served(db, rpc, old(db.calls), old(rpc.calls)), db.rows);
    return if r.Ok? then Ok(()) else Err;
  }

  /** Event-driven snapshots: one per block in which the configured vault logged something. */
  method SnapshotTouched(db: Connection, rpc: Node, cfg: Config, from: nat, target: nat, pairs: set<(nat, Address)>,
                         ghost blocks: set<nat>)
    returns (res: Result<()>)
    requires from <= target < |rpc.chain| && Grouped(cfg, rpc.chain, from, target + 1, pairs, blocks)
    modifies db`rows, db`calls, rpc`calls
    ensures db.calls >= old(db.calls) && rpc.calls >= old(rpc.calls)
    ensures PhaseRan(cfg, rpc.chain, SnapsTo(from, target + 1), old(db.rows), res.Ok?,
                     Served(db, rpc, old(db.calls), old(rpc.calls)), db.rows)
  {
    ghost var c, start, end := rpc.chain, db.rows, target + 1;
    PhaseEmpty(cfg, c, SnapsTo(from, from), start);
    var h := from;
    while h != target + 1
      invariant from <= h <= target + 1 && db.calls >= old(db.calls) && rpc.calls >= old(rpc.calls)
      invariant PhaseRan(cfg, c, SnapsTo(from, h), start, true, true, db.rows)
    {
      ghost var before, dc, rc := db.rows, db.calls, rpc.calls;
      var r := SnapshotBlock(db, rpc, cfg, h, (h, cfg.vault) in pairs);
      ghost var one, all := Served(db, rpc, dc, rc), Served(db, rpc, old(db.calls), old(rpc.calls));
      LoopStep(cfg, c, SnapsTo(from, h), SnapAt(h), SnapsTo(from, h + 1), SnapsTo(from, end), end - h, start, before,
               r.Ok?, one, all, db.rows);
      if r.Err? {
        return Err;
      }
      h := h + 1;
    }
    PhaseServed(cfg, c, SnapsTo(from, end), start, true, true, Served(db, rpc, old(db.calls), old(rpc.calls)), db.rows);
    return Ok(());
  }

  // ---------------------------------------------------------------- the ingest phase

  /** The first two parts: blocks with events, and the header at the end of the range. */
  method IngestHeaders(db: Connection, rpc: Node, cfg: Config, from: nat, target: nat, ghost pairs: set<(nat, Address)>,
                       blocks: set<nat>)
    returns (res: Result<()>)
    requires from <= target < |rpc.chain| && Grouped(cfg, rpc.chain, from, target + 1, pairs, blocks)
    modifies db`rows, db`calls, rpc`calls
    ensures db.calls >= old(db.calls) && rpc.calls >= old(rpc.calls)
    ensures res.Ok? ==> PhaseRan(cfg, rpc.chain, IngestOf(from, target, 2), old(db.rows), true, true, db.rows)
    ensures res.Err? ==> PhaseRan(cfg, rpc.chain, IngestOf(from, target, 4), old(db.rows), false,
                                  Served(db, rpc, old(db.calls), old(rpc.calls)), db.rows)
  {
    ghost var c, start := rpc.chain, db.rows;
    PhaseEmpty(cfg, c, IngestOf(from, target, 0), start);
    var r := IngestBlocks(db, rpc, cfg, from, target, pairs, blocks);
    ghost var mid, all := db.rows, Served(db, rpc, old(db.calls), old(rpc.calls));
    LoopStep(cfg, c, IngestOf(from, target, 0), BlocksTo(from, target + 1), IngestOf(from, target, 1),
             IngestOf(from, target, 4), 4, start, start, r.Ok?, all, all, mid);
    if r.Err? {
      return Err;
    }
    ghost var dc, rc := db.calls, rpc.calls;
    r := IngestCursor(db, rpc, cfg, target, blocks);
    ghost var one := Served(db, rpc, dc, rc);
    all := Served(db, rpc, old(db.calls), old(rpc.calls));
    LoopStep(cfg, c, IngestOf(from, target, 1), CursorAt(target), IngestOf(from, target, 2), IngestOf(from, target, 4), 3,
             start, mid, r.Ok?, one, all, db.rows);
    return r;
  }

  /** The last two parts: the logs, and the snapshots they trigger. */
  method IngestEvents(db: Connection, rpc: Node, cfg: Config, ghost start: Db, from: nat, target: nat,
                      logs: seq<Located>,
                      pairs: set<(nat, Address)>, ghost blocks: set<nat>)
    returns (res: Result<()>)
    requires from <= target < |rpc.chain| && Grouped(cfg, rpc.chain, from, target + 1, pairs, blocks)
    requires logs == Logs(cfg, rpc.chain, from, target + 1)
    requires PhaseRan(cfg, rpc.chain, IngestOf(from, target, 2), start, true, true, db.rows)
    modifies db`rows, db`calls, rpc`calls
    ensures db.calls >= old(db.calls) && rpc.calls >= old(rpc.calls)
    ensures PhaseRan(cfg, rpc.chain, IngestOf(from, target, 4), start, res.Ok?,
                     Served(db, rpc, old(db.calls), old(rpc.calls)), db.rows)
  {
    ghost var c, before := rpc.chain, db.rows;
    var r := HandleLogs(db, cfg, c, logs);
    ghost var mid, all := db.rows, Served(db, rpc, old(db.calls), old(rpc.calls));
    LoopStep(cfg, c, IngestOf(from, target, 2), LogsOf(logs, |logs|), IngestOf(from, target, 3), IngestOf(from, target, 4), 2,
             start, before, r.Ok?, db.Served(old(db.calls), db.calls), all, mid);
    if r.Err? {
      return Err;
    }
    ghost var dc, rc := db.calls, rpc.calls;
    r := SnapshotTouched(db, rpc, cfg, from, target, pairs, blocks);
    ghost var one := Served(db, rpc, dc, rc);
    all := Served(db, rpc, old(db.calls), old(rpc.calls));
    LoopStep(cfg, c, IngestOf(from, target, 3), SnapsTo(from, target + 1), IngestOf(from, target, 4),
             IngestOf(from, target, 4), 1, start, mid, r.Ok?, one, all, db.rows);
    if r.Ok? {
      PhaseServed(cfg, c, IngestOf(from, target, 4), start, true, true, all, db.rows);
    }
    return r;
  }

  /** Everything between the range decision and the heartbeat. */
  method IngestRange(db: Connection, rpc: Node, cfg: Config, from: nat, target: nat) returns (res: Result<()>)
    requires from <= target < |rpc.chain|
    modifies db`rows, db`calls, rpc`calls
    ensures db.calls >= old(db.calls) && rpc.calls >= old(rpc.calls)
    ensures PhaseRan(cfg, rpc.chain, IngestOf(from, target, 4), old(db.rows), res.Ok?,
                     Served(db, rpc, old(db.calls), old(rpc.calls)), db.rows)
  {
    ghost var c, start, whole := rpc.chain, db.rows, IngestOf(from, target, 4);
    PhaseNotStarted(cfg, c, whole, start);
    var got := rpc.GetLogs(cfg, from, target);
    if got.Err? {
      return Err;
    }
    var pairs, blocks := GroupLogs(cfg, c, from, target + 1, got.value);
    ghost var dc, rc := db.calls, rpc.calls;
    var r := IngestHeaders(db, rpc, cfg, from, target, pairs, blocks);
    if r.Err? {
      PhaseServed(cfg, c, whole, start, false, Served(db, rpc, dc, rc),
                  Served(db, rpc, old(db.calls), old(rpc.calls)), db.rows);
      return Err;
    }
    dc, rc := db.calls, rpc.calls;
    r := IngestEvents(db, rpc, cfg, start, from, target, got.value, pairs, blocks);
    PhaseServed(cfg, c, whole, start, r.Ok?, Served(db, rpc, dc, rc),
                Served(db, rpc, old(db.calls), old(rpc.calls)), db.rows);
    return r;
  }

  // ---------------------------------------------------------------- heartbeat

  /** The configured vault, then every other active registered vault. */
  method ListHeartbeatVaults(db: Connection, cfg: Config) returns (res: Result<seq<Address>>)
    modifies db`calls
    ensures db.calls >= old(db.calls)
    ensures db.Served(old(db.calls), db.calls) ==> res.Ok?
    ensures res.Ok? ==> res.value == HeartbeatVaults(cfg, db.rows)
  {
    var listed := db.RegisteredVaults(cfg.chainId);
    if listed.Err? {
      return Err;
    }
    var registered := listed.value;
    AscendingLists(ActiveVaults(db.rows, cfg.chainId));
    var others: seq<Address> := [];
    ghost var calls := db.calls;
    var i := 0;
    while i != |registered|
      invariant 0 <= i <= |registered| && OthersOf(cfg, registered[..i], others) && db.calls == calls
    {
      OthersNext(cfg, registered, i, others);
      if registered[i] !in [cfg.vault] + others {
        others := others + [registered[i]];
      }
      i := i + 1;
    }
    assert registered[..i] == registered;
    OthersAll(cfg, db.rows, others);
    return Ok([cfg.vault] + others);
  }

  /** One round: a snapshot for vault `i` if its latest one is too old. */
  method Beat(db: Connection, rpc: Node, cfg: Config, ghost mid: Db, target: nat, vaults: seq<Address>, i: nat)
    returns (res: Result<()>)
    requires target < |rpc.chain| && i < |vaults| && Distinct(vaults)
    requires PhaseRan(cfg, rpc.chain, BeatsOf(mid, target, vaults, i), mid, true, true, db.rows)
    requires OthersUntouched(cfg.chainId, vaults, i, mid, db.rows)
    modifies db`rows, db`calls, rpc`calls
    ensures db.calls >= old(db.calls) && rpc.calls >= old(rpc.calls)
    ensures res.Ok? ==> PhaseRan(cfg, rpc.chain, BeatsOf(mid, target, vaults, i + 1), mid, true, true, db.rows)
    ensures res.Ok? ==> OthersUntouched(cfg.chainId, vaults, i + 1, mid, db.rows)
    ensures res.Err? ==> PhaseRan(cfg, rpc.chain, BeatsOf(mid, target, vaults, |vaults|), mid, false,
                                  Served(db, rpc, old(db.calls), old(rpc.calls)), db.rows)
  {
    ghost var c, before, one := rpc.chain, db.rows, BeatAt(mid, target, vaults[i]);
    ghost var a, b, all := BeatsOf(mid, target, vaults, i), BeatsOf(mid, target, vaults, i + 1),
                           BeatsOf(mid, target, vaults, |vaults|);
    var last := db.LastSnapshot(cfg.chainId, vaults[i]);
    if last.Err? {
      LoopStop(cfg, c, a, |vaults| - i, mid, before);
      return Err;
    }
    ghost var dc := db.calls;
    SameBeat(cfg.chainId, vaults[i], mid, before, target);
    var stale := last.value.None? || target - last.value.value >= HEARTBEAT_BLOCKS;
    if !stale {
      PhaseEmpty(cfg, c, one, before);
      LoopStep(cfg, c, a, one, b, b, 1, mid, before, true, true, true, before);
      return Ok(());
    }
    var r := SnapshotVault(db, rpc, cfg, vaults[i], target);
    ghost var w, served := Snap(vaults[i], target, StateAt(c, target, vaults[i])), Served(db, rpc, dc, old(rpc.calls));
    SnapshotTouchesOne(cfg, vaults, i, target, w.state, mid, before, r.Ok?, served, db.rows);
    PhaseSingle(cfg, c, one, w, before, r.Ok?, served, db.rows);
    LoopStep(cfg, c, a, one, b, all, |vaults| - i, mid, before, r.Ok?, served,
             Served(db, rpc, old(db.calls), old(rpc.calls)), db.rows);
    return if r.Ok? then Ok(()) else Err;
  }

  /** All rounds, for vaults listed from the current tables. */
  method BeatAll(db: Connection, rpc: Node, cfg: Config, target: nat, vaults: seq<Address>) returns (res: Result<()>)
    requires target < |rpc.chain| && Distinct(vaults)
    modifies db`rows, db`calls, rpc`calls
    ensures db.calls >= old(db.calls) && rpc.calls >= old(rpc.calls)
    ensures PhaseRan(cfg, rpc.chain, BeatsOf(old(db.rows), target, vaults, |vaults|), old(db.rows), res.Ok?,
                     Served(db, rpc, old(db.calls), old(rpc.calls)), db.rows)
  {
    ghost var c, mid := rpc.chain, db.rows;
    PhaseEmpty(cfg, c, BeatsOf(mid, target, vaults, 0), mid);
    var i := 0;
    while i != |vaults|
      invariant 0 <= i <= |vaults| && db.calls >= old(db.calls) && rpc.calls >= old(rpc.calls)
      invariant PhaseRan(cfg, c, BeatsOf(mid, target, vaults, i), mid, true, true, db.rows)
      invariant OthersUntouched(cfg.chainId, vaults, i, mid, db.rows)
    {
      ghost var dc, rc := db.calls, rpc.calls;
      var r := Beat(db, rpc, cfg, mid, target, vaults, i);
      if r.Err? {
        PhaseServed(cfg, c, BeatsOf(mid, target, vaults, |vaults|), mid, false, Served(db, rpc, dc, rc),
                    Served(db, rpc, old(db.calls), old(rpc.calls)), db.rows);
        return Err;
      }
      i := i + 1;
    }
    PhaseServed(cfg, c, BeatsOf(mid, target, vaults, i), mid, true, true,
                Served(db, rpc, old(db.calls), old(rpc.calls)), db.rows);
    return Ok(());
  }

  /** Heartbeat snapshots for every vault whose latest snapshot is too old. */
  method Heartbeat(db: Connection, rpc: Node, cfg: Config, target: nat) returns (res: Result<()>)
    requires target < |rpc.chain|
    modifies db`rows, db`calls, rpc`calls
    ensures db.calls >= old(db.calls) && rpc.calls >= old(rpc.calls)
    ensures var vaults := HeartbeatVaults(cfg, old(db.rows));
            PhaseRan(cfg, rpc.chain, BeatsOf(old(db.rows), target, vaults, |vaults|), old(db.rows), res.Ok?,
                     Served(db, rpc, old(db.calls), old(rpc.calls)), db.rows)
  {
    ghost var mid, all := db.rows, HeartbeatVaults(cfg, db.rows);
    var list := ListHeartbeatVaults(db, cfg);
    if list.Err? {
      PhaseNotStarted(cfg, rpc.chain, BeatsOf(mid, target, all, |all|), mid);
      return Err;
    }
    HeartbeatVaultsListed(cfg, mid);
    ghost var dc, rc := db.calls, rpc.calls;
    var r := BeatAll(db, rpc, cfg, target, list.value);
    PhaseServed(cfg, rpc.chain, BeatsOf(mid, target, all, |all|), mid, r.Ok?, Served(db, rpc, dc, rc),
                Served(db, rpc, old(db.calls), old(rpc.calls)), db.rows);
    return r;
  }

  // ---------------------------------------------------------------- the tick

  /** From the resume level on: decide the range, ingest it, send heartbeats. */
  method Advance(db: Connection, rpc: Node, cfg: Config, resume: int) returns (res: Result<int>)
    requires |rpc.chain| > 0 && -1 <= resume
    modifies db`rows, db`calls, rpc`calls
    ensures db.calls >= old(db.calls) && rpc.calls >= old(rpc.calls)
    ensures res.Ok? ==> Finishes(cfg, rpc.chain, old(db.rows), resume, db.rows, res.value)
    ensures res.Err? ==> db.rows == old(db.rows) || Breaks(cfg, rpc.chain, old(db.rows), resume, db.rows)
    ensures res.Err? && Served(db, rpc, old(db.calls), old(rpc.calls)) ==>
              RangeFails(cfg, rpc.chain, old(db.rows), resume)
  {
    ghost var c, base := rpc.chain, db.rows;
    var from := resume + 1;
    var tip :- rpc.BlockNumber();
    var safeHead := if tip >= CONFIRMATIONS then tip - CONFIRMATIONS else 0;
    if from > safeHead {
      return Ok(resume);
    }
    var target := safeHead;
    if cfg.endBlock.Some? && cfg.endBlock.value < target {
      target := cfg.endBlock.value;
    }
    if from + (cfg.maxBlocks - 1) < target {
      target := from + (cfg.maxBlocks - 1);
    }
    if from > target {
      return Ok(resume);
    }
    assert Target(cfg, from, tip) == Some(target);
    ghost var dc, rc := db.calls, rpc.calls;
    var r := IngestRange(db, rpc, cfg, from, target);
    ghost var mid := db.rows;
    if r.Err? {
      IngestStopped(cfg, c, from, target, base, Served(db, rpc, dc, rc), mid);
      return Err;
    }
    PhaseServed(cfg, c, IngestOf(from, target, 4), base, true, Served(db, rpc, dc, rc), true, mid);
    dc, rc := db.calls, rpc.calls;
    r := Heartbeat(db, rpc, cfg, target);
    HeartbeatEnded(cfg, c, from, target, base, mid, r.Ok?, Served(db, rpc, dc, rc), db.rows);
    return if r.Ok? then Ok(target) else Err;
  }

  /** `run_inner`: whatever fails, the tables are those of the plan cut somewhere; if nothing does, of all of it.
      If every call is answered it fails only if its rollback is refused or its plan has a failing write. */
  method RunInner(db: Connection, rpc: Node, cfg: Config, last: int) returns (res: Result<int>)
    requires |rpc.chain| > 0 && -1 <= last
    modifies db`rows, db`calls, rpc`calls
    ensures db.calls >= old(db.calls) && rpc.calls >= old(rpc.calls)
    ensures res.Ok? ==> Completes(cfg, rpc.chain, old(db.rows), last, db.rows, res.value)
    ensures res.Err? ==> Interrupted(cfg, rpc.chain, old(db.rows), last, db.rows)
    ensures RollbackBlocked(cfg, old(db.rows), rpc.chain, last) ==> res.Err? && db.rows == old(db.rows)
    ensures res.Ok? ==> !TickFails(cfg, rpc.chain, old(db.rows), last)
    ensures res.Err? && Served(db, rpc, old(db.calls), old(rpc.calls)) ==> TickFails(cfg, rpc.chain, old(db.rows), last)
  {
    var checked := CheckReorg(db, rpc, cfg, last);
    ghost var base := db.rows;
    if checked.Err? {
      if db.rows != old(db.rows) {
        BreaksAtOnce(cfg, rpc.chain, base, Resume(cfg, old(db.rows), rpc.chain, last));
      }
      return Err;
    }
    res := Advance(db, rpc, cfg, checked.value);
    if res.Err? && db.rows == base {
      BreaksAtOnce(cfg, rpc.chain, base, checked.value);
    }
    if res.Ok? {
      FinishesNotFails(cfg, rpc.chain, base, checked.value, db.rows, res.value);
    }
  }

  /** What `run_once` reports: the level it reached and whether its work failed. */
  datatype Report = Report(level: int, failed: bool)

  /** What a report says about its tick: one that is not `failed` recorded its level; a failed one repeats the
      cursor. */
  predicate Reported(cfg: Config, s: Store, o: Outcome, report: Result<Report>) {
    report.Ok? ==>
      if report.value.failed then o == Stopped && report.value.level == Cursor(s.runs, cfg.chainId)
      else o == Done(report.value.level)
  }

  /** A pass that took effect and was recorded is a completed tick. */
  lemma {:induction false} DoneTick(cfg: Config, c: Chain, s: Store, recorded: int, s': Store)
    requires |c| > 0 && Completes(cfg, c, s.db, Cursor(s.runs, cfg.chainId), s'.db, recorded)
    requires !RollbackBlocked(cfg, s.db, c, Cursor(s.runs, cfg.chainId))
    requires s'.runs == s.runs + [Run(cfg.chainId, Cursor(s.runs, cfg.chainId) + 1, ToOption(recorded), false)]
    ensures Tick(cfg, c, s, Done(recorded), s')
  {
    CompletedMeetsContract(cfg, c, s.db, Cursor(s.runs, cfg.chainId), s'.db, recorded);
  }

  /** One that was cut, or not recorded, is an interrupted tick. */
  lemma {:induction false} StoppedTick(cfg: Config, c: Chain, s: Store, s': Store)
    requires |c| > 0 && Interrupted(cfg, c, s.db, Cursor(s.runs, cfg.chainId), s'.db)
    requires RollbackBlocked(cfg, s.db, c, Cursor(s.runs, cfg.chainId)) ==> s'.db == s.db
    requires Unrecorded(s.runs, s'.runs)
    ensures Tick(cfg, c, s, Stopped, s')
  {
    InterruptedMeetsContract(cfg, c, s.db, Cursor(s.runs, cfg.chainId), s'.db);
  }

  /** `run_once`: read the cursor, open a run, do the work, close the run.  Whatever the database and the node do,
      the outcome is a tick of the history model.  If every call is answered there is a report, and it is `failed`
      exactly if the tick could not complete on these tables and this chain. */
  method RunOnce(db: Connection, rpc: Node, cfg: Config) returns (res: Result<Report>, ghost o: Outcome)
    requires |rpc.chain| > 0
    modifies db, rpc
    ensures db.calls >= old(db.calls) && rpc.calls >= old(rpc.calls)
    ensures Tick(cfg, rpc.chain, old(Store(db.rows, db.runs)), o, Store(db.rows, db.runs))
    ensures Reported(cfg, old(Store(db.rows, db.runs)), o, res)
    ensures Served(db, rpc, old(db.calls), old(rpc.calls)) ==>
              res.Ok? && (res.value.failed <==>
                          TickFails(cfg, rpc.chain, old(db.rows), Cursor(old(db.runs), cfg.chainId)))
  {
    ghost var c, s := rpc.chain, Store(db.rows, db.runs);
    o := Stopped;
    var cursor := db.LastIndexedBlock(cfg.chainId);
    if cursor.Err? {
      StoppedTick(cfg, c, s, Store(db.rows, db.runs));
      return Err, o;
    }
    var last := cursor.value;
    var run := db.StartRun(cfg.chainId, last + 1);
    if run.Err? {
      StoppedTick(cfg, c, s, Store(db.rows, db.runs));
      return Err, o;
    }
    var inner := RunInner(db, rpc, cfg, last);
    if inner.Err? {
      var finished := db.FinishRun(run.value, ToOption(last), true);
      StoppedTick(cfg, c, s, Store(db.rows, db.runs));
      return if finished.Ok? then Ok(Report(last, true)) else Err, o;
    }
    var finished := db.FinishRun(run.value, ToOption(inner.value), false);
    if db.runs == s.runs + [Run(cfg.chainId, last + 1, ToOption(inner.value), false)] {
      o := Done(inner.value);
      DoneTick(cfg, c, s, inner.value, Store(db.rows, db.runs));
    } else {
      CompletedMeetsContract(cfg, c, s.db, last, db.rows, inner.value);
      StoppedTick(cfg, c, s, Store(db.rows, db.runs));
    }
    return if finished.Ok? then Ok(Report(inner.value, false)) else Err, o;
  }

  // ---------------------------------------------------------------- the poll loop

  function ChainsOf(nodes: seq<Node>): seq<Chain> {
    seq(|nodes|, i requires 0 <= i < |nodes| => nodes[i].chain)
  }

  /** The report reaches `end_block`, which ends the loop. */
  predicate EndsLoop(cfg: Config, report: Result<Report>) {
    report.Ok? && cfg.endBlock.Some? && report.value.level >= cfg.endBlock.value
  }

  /** A run of the loop: a tick and its report per round, and it goes on exactly until a report reaches the end. */
  ghost predicate PollRun(cfg: Config, chains: seq<Chain>, stores: seq<Store>, outcomes: seq<Outcome>,
                          reports: seq<Result<Report>>, reached: bool)
  {
    && Ticks(cfg, chains, stores, outcomes) && |reports| == |chains|
    && (forall i :: 0 <= i < |reports| ==> Reported(cfg, stores[i], outcomes[i], reports[i]))
    && (forall i :: 0 <= i < |reports| ==> (EndsLoop(cfg, reports[i]) <==> reached && i == |reports| - 1))
    && (reached ==> reports != [])
  }

  /** The report says whether the tick could complete. */
  ghost predicate HonestReport(cfg: Config, c: Chain, s: Store, report: Result<Report>)
    requires |c| > 0
  {
    report.Ok? && (report.value.failed <==> TickFails(cfg, c, s.db, Cursor(s.runs, cfg.chainId)))
  }

  ghost predicate Honest(cfg: Config, chains: seq<Chain>, stores: seq<Store>, reports: seq<Result<Report>>)
    requires |reports| == |chains| < |stores| && forall c :: c in chains ==> |c| > 0
  {
    forall i :: 0 <= i < |reports| ==> HonestReport(cfg, chains[i], stores[i], reports[i])
  }

  /** Every call will be answered. */
  ghost predicate Answering(db: Connection, nodes: seq<Node>) {
    (forall n :: db.replies(n).Served?) && (forall node, n :: node in nodes ==> !node.fails(n))
  }

  lemma {:induction false} AllServed(db: Connection, nodes: seq<Node>, node: Node, dc: nat, rc: nat)
    requires Answering(db, nodes) && node in nodes
    ensures Served(db, node, dc, rc)
  {
  }

  /** The poll loop, one node state per round. */
  method Poll(db: Connection, nodes: seq<Node>, cfg: Config)
    returns (reports: seq<Result<Report>>, reached: bool, ghost stores: seq<Store>, ghost outcomes: seq<Outcome>)
    requires forall node :: node in nodes ==> |node.chain| > 0
    modifies db, set node | node in nodes
    ensures |reports| <= |nodes| && (!reached ==> |reports| == |nodes|)
    ensures PollRun(cfg, ChainsOf(nodes)[..|reports|], stores, outcomes, reports, reached)
    ensures stores[0] == old(Store(db.rows, db.runs)) && stores[|reports|] == Store(db.rows, db.runs)
    ensures Answering(db, nodes) ==>
              Honest(cfg, ChainsOf(nodes)[..|reports|], stores, reports)
  {
    ghost var perfect := Answering(db, nodes);
    ghost var chains := ChainsOf(nodes);
    reports, reached, stores, outcomes := [], false, [Store(db.rows, db.runs)], [];
    while |reports| < |nodes| && !reached
      invariant |reports| <= |nodes|
      invariant PollRun(cfg, chains[..|reports|], stores, outcomes, reports, reached)
      invariant stores[0] == old(Store(db.rows, db.runs)) && stores[|reports|] == Store(db.rows, db.runs)
      invariant perfect ==> Honest(cfg, chains[..|reports|], stores, reports)
      decreases |nodes| - |reports|
    {
      assert nodes[|reports|] in nodes;
      ghost var dc, rc := db.calls, nodes[|reports|].calls;
      var report, o := RunOnce(db, nodes[|reports|], cfg);
      if perfect {
        AllServed(db, nodes, nodes[|reports|], dc, rc);
        HonestMore(cfg, chains, |reports|, stores, reports, report, Store(db.rows, db.runs));
      }
      reached := EndsLoop(cfg, report);
      ghost var after := Store(db.rows, db.runs);
      PollMore(cfg, chains, |reports|, stores, outcomes, reports, report, o, after);
      stores, outcomes, reports := stores + [after], outcomes + [o], reports + [report];
    }
  }

  lemma {:induction false} PollMore(cfg: Config, chains: seq<Chain>, n: nat, stores: seq<Store>, outcomes: seq<Outcome>,
                                    reports: seq<Result<Report>>, report: Result<Report>, o: Outcome, after: Store)
    requires n < |chains| && PollRun(cfg, chains[..n], stores, outcomes, reports, false)
    requires Tick(cfg, chains[n], stores[n], o, after) && Reported(cfg, stores[n], o, report)
    ensures PollRun(cfg, chains[..n + 1], stores + [after], outcomes + [o], reports + [report], EndsLoop(cfg, report))
  {
    var more := chains[..n + 1];
    forall i: nat | i < n + 1
      ensures StepAt(cfg, more, stores + [after], outcomes + [o], i)
    {
      if i < n {
        assert StepAt(cfg, chains[..n], stores, outcomes, i);
      }
    }
  }

  lemma {:induction false} HonestMore(cfg: Config, chains: seq<Chain>, n: nat, stores: seq<Store>,
                                      reports: seq<Result<Report>>, report: Result<Report>, after: Store)
    requires n < |chains| && |reports| == n < |stores| == n + 1 && forall c :: c in chains ==> |c| > 0
    requires Honest(cfg, chains[..n], stores, reports) && HonestReport(cfg, chains[n], stores[n], report)
    ensures Honest(cfg, chains[..n + 1], stores + [after], reports + [report])
  {
    var cs, ss, rs := chains[..n + 1], stores + [after], reports + [report];
    forall i | 0 <= i < |rs|
      ensures HonestReport(cfg, cs[i], ss[i], rs[i])
    {
      if i < n {
        assert HonestReport(cfg, chains[..n][i], stores[i], reports[i]);
      }
    }
  }
}
