/** Accounting for the running vote counters, which rollbacks do not undo. */
module Tally {
  import opened Wrappers
  import opened Ledger
  import opened Tables
  import opened TickPlan
  import opened PlanFacts
  import opened TickContract
  import opened Sync
  import opened CrashReplay
  import opened Reorg

  /** What can happen to the governance tables: a handled log, a direct `insert_vote`, a rollback. */
  datatype Op =
    | Handled(log: Located)
    | Cast(proposal: nat, voter: Address, height: nat, index: nat, txHash: Word, support: bool, weight: Word)
    | Cut(root: int)

  function VoteRow(op: Op): Row
    requires op.Cast?
  {
    Row(op.height, VoteCols(op.index, op.txHash, op.support, op.weight))
  }

  function Apply(cfg: Config, db: Db, op: Op): Result<Db> {
    match op
    case Handled(l) => ApplyLog(cfg, db, l)
    case Cast(p, voter, _, _, _, support, _) => InsertVote(db, cfg.chainId, p, voter, VoteRow(op), support)
    case Cut(root) => if Dangles(db, cfg.chainId, root) then Err else Ok(DeleteAbove(db, cfg.chainId, root))
  }

  function RunOps(cfg: Config, db: Db, ops: seq<Op>): Result<Db> {
    if ops == [] then
      Ok(db)
    else
      var before :- RunOps(cfg, db, ops[..|ops| - 1]);
      Apply(cfg, before, ops[|ops| - 1])
  }

  /** The live votes on a proposal, by side. */
  function Votes(db: Db, cid: nat, p: nat, side: bool): set<Key> {
    set k | k in db && k.VoteKey? && k.cid == cid && k.proposal == p && db[k].cols.VoteCols? && db[k].cols.support == side
  }

  function Counter(r: Row, side: bool): nat {
    if !r.cols.ProposalCols? then 0 else if side then r.cols.votesFor else r.cols.votesAgainst
  }

  /** The votes on `p` a rollback to `root` deletes. */
  function Deleted(db: Db, cid: nat, root: int, p: nat, side: bool): set<Key> {
    set k | k in Votes(db, cid, p, side) && db[k].block > root
  }

  /** How many votes on `p` rollbacks have deleted since the current row of `p` was created. */
  function Lost(cfg: Config, ops: seq<Op>, p: nat, side: bool): nat
    requires RunOps(cfg, map[], ops).Ok?
  {
    if ops == [] then
      0
    else
      var front, op := ops[..|ops| - 1], ops[|ops| - 1];
      var before, k := RunOps(cfg, map[], front).value, ProposalKey(cfg.chainId, p);
      if k !in before || k !in RunOps(cfg, map[], ops).value then
        0
      else
        Lost(cfg, front, p, side) + if op.Cut? then |Deleted(before, cfg.chainId, op.root, p, side)| else 0
  }

  /** Every vote has its proposal. */
  ghost predicate Parented(db: Db, cid: nat) {
    forall k :: k in db && k.VoteKey? && k.cid == cid ==> ProposalKey(cid, k.proposal) in db
  }

  lemma {:induction false} VoteStep(db: Db, cid: nat, p: nat, voter: Address, r: Row, side: bool, db': Db)
    requires r.cols.VoteCols? && r.cols.support == side && WellTyped(db)
    requires InsertVote(db, cid, p, voter, r, side) == Ok(db') && VoteKey(cid, p, voter) !in db
    ensures ProposalKey(cid, p) in db && ProposalKey(cid, p) in db'
    ensures Votes(db', cid, p, side) == Votes(db, cid, p, side) + {VoteKey(cid, p, voter)}
    ensures Counter(db'[ProposalKey(cid, p)], side) == Counter(db[ProposalKey(cid, p)], side) + 1
  {
  }

  lemma {:induction false} VoteStepOther(db: Db, cid: nat, p: nat, voter: Address, r: Row, side: bool, db': Db,
                                         q: nat, s: bool)
    requires r.cols.VoteCols? && r.cols.support == side && WellTyped(db)
    requires InsertVote(db, cid, p, voter, r, side) == Ok(db') && VoteKey(cid, p, voter) !in db && (q != p || s != side)
    ensures ProposalKey(cid, q) in db <==> ProposalKey(cid, q) in db'
    ensures Votes(db', cid, q, s) == Votes(db, cid, q, s)
    ensures ProposalKey(cid, q) in db ==> Counter(db'[ProposalKey(cid, q)], s) == Counter(db[ProposalKey(cid, q)], s)
  {
  }

  /** An inserted vote moves its own counter by one, with the set of votes. */
  lemma {:induction false} VoteKeepsBalance(db: Db, cid: nat, p: nat, voter: Address, r: Row, side: bool, db': Db,
                                            q: nat, s: bool)
    requires r.cols.VoteCols? && r.cols.support == side && WellTyped(db)
    requires InsertVote(db, cid, p, voter, r, side) == Ok(db')
    ensures ProposalKey(cid, q) in db <==> ProposalKey(cid, q) in db'
    ensures ProposalKey(cid, q) in db ==>
              Counter(db'[ProposalKey(cid, q)], s) - |Votes(db', cid, q, s)| ==
              Counter(db[ProposalKey(cid, q)], s) - |Votes(db, cid, q, s)|
  {
    if VoteKey(cid, p, voter) !in db {
      if q == p && s == side {
        VoteStep(db, cid, p, voter, r, side, db');
      } else {
        VoteStepOther(db, cid, p, voter, r, side, db', q, s);
      }
    }
  }

  /** Every other log leaves votes and counters alone; a new proposal starts at zero. */
  lemma {:induction false} LogKeepsVotes(cfg: Config, db: Db, l: Located, db': Db, k: Key)
    requires ApplyLog(cfg, db, l) == Ok(db') && !l.log.event.VoteCast? && WellTyped(db)
    ensures k in db ==> k in db'
    ensures k.VoteKey? ==> (k in db <==> k in db') && (k in db ==> db'[k] == db[k])
    ensures k.ProposalKey? && k in db ==> Counter(db'[k], true) == Counter(db[k], true) &&
                                          Counter(db'[k], false) == Counter(db[k], false)
    ensures k.ProposalKey? && k in db' && k !in db ==> Counter(db'[k], true) == 0 && Counter(db'[k], false) == 0
  {
  }

  lemma {:induction false} LogKeepsBalance(cfg: Config, db: Db, l: Located, db': Db, q: nat, s: bool)
    requires ApplyLog(cfg, db, l) == Ok(db') && !l.log.event.VoteCast? && WellTyped(db) && Parented(db, cfg.chainId)
    ensures Votes(db', cfg.chainId, q, s) == Votes(db, cfg.chainId, q, s)
    ensures ProposalKey(cfg.chainId, q) in db' ==>
              if ProposalKey(cfg.chainId, q) in db then
                Counter(db'[ProposalKey(cfg.chainId, q)], s) == Counter(db[ProposalKey(cfg.chainId, q)], s)
              else
                Counter(db'[ProposalKey(cfg.chainId, q)], s) == 0 && Votes(db, cfg.chainId, q, s) == {}
  {
    forall k: Key
      ensures k.VoteKey? ==> (k in db <==> k in db') && (k in db ==> db'[k] == db[k])
    {
      LogKeepsVotes(cfg, db, l, db', k);
    }
    LogKeepsVotes(cfg, db, l, db', ProposalKey(cfg.chainId, q));
  }

  /** A rollback takes votes away and leaves the counter where it was. */
  lemma {:induction false} CutShifts(db: Db, cid: nat, root: int, q: nat, s: bool)
    ensures var db' := DeleteAbove(db, cid, root);
            && Votes(db', cid, q, s) == Votes(db, cid, q, s) - Deleted(db, cid, root, q, s)
            && |Votes(db', cid, q, s)| == |Votes(db, cid, q, s)| - |Deleted(db, cid, root, q, s)|
            && (ProposalKey(cid, q) in db' ==> ProposalKey(cid, q) in db && db'[ProposalKey(cid, q)] == db[ProposalKey(cid, q)])
  {
    var db' := DeleteAbove(db, cid, root);
    var votes, deleted := Votes(db, cid, q, s), Deleted(db, cid, root, q, s);
    assert Votes(db', cid, q, s) == votes - deleted;
    assert votes == (votes - deleted) + deleted;
  }

  // ---------------------------------------------------------------- invariants

  lemma {:induction false} LogParented(cfg: Config, db: Db, l: Located, db': Db)
    requires ApplyLog(cfg, db, l) == Ok(db') && !l.log.event.VoteCast? && WellTyped(db) && Parented(db, cfg.chainId)
    ensures Parented(db', cfg.chainId)
  {
    forall k | k in db' && k.VoteKey? && k.cid == cfg.chainId
      ensures ProposalKey(cfg.chainId, k.proposal) in db'
    {
      LogKeepsVotes(cfg, db, l, db', k);
      LogKeepsVotes(cfg, db, l, db', ProposalKey(cfg.chainId, k.proposal));
    }
  }

  lemma {:induction false} VoteParented(db: Db, cid: nat, p: nat, voter: Address, r: Row, side: bool, db': Db)
    requires InsertVote(db, cid, p, voter, r, side) == Ok(db') && Parented(db, cid) && WellTyped(db)
    ensures Parented(db', cid) && WellTyped(db')
  {
  }

  /** The foreign key survives a rollback that is not refused. */
  lemma {:induction false} CutParented(db: Db, cid: nat, root: int)
    requires Parented(db, cid) && !Dangles(db, cid, root)
    ensures Parented(DeleteAbove(db, cid, root), cid)
  {
    var db' := DeleteAbove(db, cid, root);
    forall k | k in db' && k.VoteKey? && k.cid == cid
      ensures ProposalKey(cid, k.proposal) in db'
    {
      assert k in db && db[k].block <= root;
      assert ProposalKey(cid, k.proposal) in db;
    }
  }

  lemma {:induction false} RunKeeps(cfg: Config, ops: seq<Op>)
    requires RunOps(cfg, map[], ops).Ok?
    ensures WellTyped(RunOps(cfg, map[], ops).value) && Parented(RunOps(cfg, map[], ops).value, cfg.chainId)
  {
    if ops != [] {
      var front, op := ops[..|ops| - 1], ops[|ops| - 1];
      RunKeeps(cfg, front);
      var db, db' := RunOps(cfg, map[], front).value, RunOps(cfg, map[], ops).value;
      if op.Handled? && !op.log.log.event.VoteCast? {
        LogParented(cfg, db, op.log, db');
        ApplyLogTyped(cfg, db, op.log);
      } else if op.Handled? {
        var l := op.log;
        VoteParented(db, cfg.chainId, ClampI64(l.log.event.proposalId), l.log.event.voter, EntryOf(cfg, l).value.1, true, db');
      } else if op.Cast? {
        VoteParented(db, cfg.chainId, op.proposal, op.voter, VoteRow(op), op.support, db');
      } else {
        CutParented(db, cfg.chainId, op.root);
      }
    }
  }

  /** Vote-tally accounting: after any sequence of creations, votes, executions and rollbacks, the counter of a
      live proposal is its live votes on that side plus those rollbacks deleted since it was created. */
  lemma {:induction false} TallyAccounts(cfg: Config, ops: seq<Op>, p: nat, side: bool)
    requires RunOps(cfg, map[], ops).Ok?
    ensures var db, k := RunOps(cfg, map[], ops).value, ProposalKey(cfg.chainId, p);
            k in db ==> Counter(db[k], side) == |Votes(db, cfg.chainId, p, side)| + Lost(cfg, ops, p, side)
  {
    if ops != [] {
      var front, op := ops[..|ops| - 1], ops[|ops| - 1];
      TallyAccounts(cfg, front, p, side);
      RunKeeps(cfg, front);
      var db, db' := RunOps(cfg, map[], front).value, RunOps(cfg, map[], ops).value;
      if op.Handled? && !op.log.log.event.VoteCast? {
        LogKeepsBalance(cfg, db, op.log, db', p, side);
      } else if op.Handled? {
        var l := op.log;
        VoteKeepsBalance(db, cfg.chainId, ClampI64(l.log.event.proposalId), l.log.event.voter, EntryOf(cfg, l).value.1,
                         true, db', p, side);
      } else if op.Cast? {
        VoteKeepsBalance(db, cfg.chainId, op.proposal, op.voter, VoteRow(op), op.support, db', p, side);
      } else {
        CutShifts(db, cfg.chainId, op.root, p, side);
      }
    }
  }

  /** Without rollbacks nothing is lost, so the counters are exact. */
  lemma {:induction false} NothingLost(cfg: Config, ops: seq<Op>, p: nat, side: bool)
    requires RunOps(cfg, map[], ops).Ok? && forall i :: 0 <= i < |ops| ==> !ops[i].Cut?
    ensures Lost(cfg, ops, p, side) == 0
  {
    if ops != [] {
      NothingLost(cfg, ops[..|ops| - 1], p, side);
    }
  }

  // ---------------------------------------------------------------- histories

  /** How far the counter of `p` exceeds its live votes. */
  function Excess(db: Db, cid: nat, p: nat, side: bool): int {
    if ProposalKey(cid, p) in db then Counter(db[ProposalKey(cid, p)], side) - |Votes(db, cid, p, side)| else 0
  }

  ghost predicate Sorted(db: Db, cid: nat) {
    WellTyped(db) && Parented(db, cid)
  }

  /** Handling logs moves counters and votes together; a proposal they create starts even. */
  lemma {:induction false} LogBalances(cfg: Config, d: Db, l: Located, d': Db, p: nat, side: bool)
    requires ApplyLog(cfg, d, l) == Ok(d') && Sorted(d, cfg.chainId)
    ensures Sorted(d', cfg.chainId) && Excess(d', cfg.chainId, p, side) == Excess(d, cfg.chainId, p, side)
  {
    ApplyLogTyped(cfg, d, l);
    if l.log.event.VoteCast? {
      var proposal, row := ClampI64(l.log.event.proposalId), EntryOf(cfg, l).value.1;
      VoteParented(d, cfg.chainId, proposal, l.log.event.voter, row, true, d');
      VoteKeepsBalance(d, cfg.chainId, proposal, l.log.event.voter, row, true, d', p, side);
    } else {
      LogParented(cfg, d, l, d');
      LogKeepsBalance(cfg, d, l, d', p, side);
      LogKeepsVotes(cfg, d, l, d', ProposalKey(cfg.chainId, p));
    }
  }

  lemma {:induction false} LogsBalance(cfg: Config, d: Db, ls: seq<Located>, d': Db, p: nat, side: bool)
    requires ApplyLogs(cfg, d, ls) == Ok(d') && Sorted(d, cfg.chainId)
    ensures Sorted(d', cfg.chainId) && Excess(d', cfg.chainId, p, side) == Excess(d, cfg.chainId, p, side)
  {
    if ls != [] {
      var mid := ApplyLogs(cfg, d, ls[..|ls| - 1]).value;
      LogsBalance(cfg, d, ls[..|ls| - 1], mid, p, side);
      LogBalances(cfg, mid, ls[|ls| - 1], d', p, side);
    }
  }

  /** Votes and counters are read from the derived tables. */
  lemma {:induction false} ExcessDerived(db: Db, cid: nat, p: nat, side: bool)
    ensures Excess(Derived(db, cid), cid, p, side) == Excess(db, cid, p, side)
  {
    assert Votes(Derived(db, cid), cid, p, side) == Votes(db, cid, p, side);
  }

  lemma {:induction false} IngestBalances(cfg: Config, c: Chain, base: Db, resume: int, o: Outcome, db': Db, p: nat,
                                          side: bool)
    requires |c| > 0 && -1 <= resume && Sorted(Derived(base, cfg.chainId), cfg.chainId)
    requires if o.Done? then Advances(cfg, c, base, resume, db', o.recorded) else Stops(cfg, c, base, resume, db')
    ensures Sorted(Derived(db', cfg.chainId), cfg.chainId)
    ensures Excess(db', cfg.chainId, p, side) == Excess(base, cfg.chainId, p, side)
  {
    if db' != base {
      var t, logs := IngestEffect(cfg, c, base, resume, o, db');
      ExcessDerived(base, cfg.chainId, p, side);
      ExcessDerived(db', cfg.chainId, p, side);
      LogsBalance(cfg, Derived(base, cfg.chainId), logs, Derived(db', cfg.chainId), p, side);
    }
  }

  lemma {:induction false} CutDerived(db: Db, cid: nat, root: int)
    ensures Derived(DeleteAbove(db, cid, root), cid) == DeleteAbove(Derived(db, cid), cid, root)
    ensures Dangles(Derived(db, cid), cid, root) ==> Dangles(db, cid, root)
  {
    if Dangles(Derived(db, cid), cid, root) {
      var k :| k in Derived(db, cid) && k.VoteKey? && k.cid == cid && Derived(db, cid)[k].block <= root &&
               ProposalKey(cid, k.proposal) in Derived(db, cid) &&
               Derived(db, cid)[ProposalKey(cid, k.proposal)].block > root;
      assert k in db && ProposalKey(cid, k.proposal) in db;
    }
  }

  /** A rollback that is not refused keeps the tables in order. */
  lemma {:induction false} CutSorted(db: Db, cid: nat, root: int)
    requires Sorted(Derived(db, cid), cid) && !Dangles(db, cid, root)
    ensures Sorted(Derived(DeleteAbove(db, cid, root), cid), cid)
  {
    CutDerived(db, cid, root);
    CutParented(Derived(db, cid), cid, root);
  }

  /** The tick committed a rollback. */
  predicate RollsBack(cfg: Config, c: Chain, s: Store, o: Outcome, s': Store) {
    Mismatch(cfg, s.db, c, Cursor(s.runs, cfg.chainId)) && (o.Done? || s'.db != s.db)
  }

  /** The excess after a tick, given the one before it: a rollback that spares the proposal adds the votes it deletes;
      a proposal that was not there, or goes, starts anew. */
  function ExcessAfter(cfg: Config, c: Chain, s: Store, o: Outcome, s': Store, p: nat, side: bool, before: int): int {
    var k, root := ProposalKey(cfg.chainId, p), Root(cfg, s.db, c, Cursor(s.runs, cfg.chainId));
    if k !in s.db then
      0
    else if !RollsBack(cfg, c, s, o, s') then
      before
    else if s.db[k].block > root then
      0
    else
      before + |Deleted(s.db, cfg.chainId, root, p, side)|
  }

  /** The rollback's own part of it. */
  lemma {:induction false} CutExcess(db: Db, cid: nat, root: int, p: nat, side: bool)
    ensures Excess(DeleteAbove(db, cid, root), cid, p, side) ==
            if ProposalKey(cid, p) !in db || db[ProposalKey(cid, p)].block > root then 0
            else Excess(db, cid, p, side) + |Deleted(db, cid, root, p, side)|
  {
    CutShifts(db, cid, root, p, side);
  }

  lemma {:induction false} TickExcess(cfg: Config, c: Chain, s: Store, o: Outcome, s': Store, p: nat, side: bool)
    requires Tick(cfg, c, s, o, s') && Sorted(Derived(s.db, cfg.chainId), cfg.chainId)
    ensures Sorted(Derived(s'.db, cfg.chainId), cfg.chainId)
    ensures Excess(s'.db, cfg.chainId, p, side) ==
            ExcessAfter(cfg, c, s, o, s', p, side, Excess(s.db, cfg.chainId, p, side))
  {
    var last := Cursor(s.runs, cfg.chainId);
    var base, resume := Base(cfg, s.db, c, last), Resume(cfg, s.db, c, last);
    if o.Done? || s'.db != s.db {
      if Mismatch(cfg, s.db, c, last) {
        CutSorted(s.db, cfg.chainId, resume);
        CutExcess(s.db, cfg.chainId, resume, p, side);
      }
      IngestBalances(cfg, c, base, resume, o, s'.db, p, side);
    }
  }

  /** The votes on `p` that the first `n` ticks' rollbacks deleted since its row was created: summed over the rollbacks
      that spared the row, back to the last tick that found or left none. */
  function LostBy(cfg: Config, stores: seq<Store>, chains: seq<Chain>, outcomes: seq<Outcome>, n: nat, p: nat,
                  side: bool): int
    requires |stores| == |chains| + 1 && |outcomes| == |chains| && n <= |chains|
  {
    if n == 0 then
      0
    else
      ExcessAfter(cfg, chains[n - 1], stores[n - 1], outcomes[n - 1], stores[n], p, side,
                  LostBy(cfg, stores, chains, outcomes, n - 1, p, side))
  }

  lemma {:induction false} HistoryExcess(cfg: Config, stores: seq<Store>, chains: seq<Chain>, outcomes: seq<Outcome>,
                                         views: seq<Chain>, n: nat, p: nat, side: bool)
    requires History(cfg, stores, chains, outcomes, views) && n <= |chains|
    ensures Sorted(Derived(stores[n].db, cfg.chainId), cfg.chainId)
    ensures Excess(stores[n].db, cfg.chainId, p, side) == LostBy(cfg, stores, chains, outcomes, n, p, side)
  {
    if n > 0 {
      HistoryExcess(cfg, stores, chains, outcomes, views, n - 1, p, side);
      assert TickAt(cfg, stores, chains, outcomes, views, n - 1);
      TickExcess(cfg, chains[n - 1], stores[n - 1], outcomes[n - 1], stores[n], p, side);
    }
  }

  lemma {:induction false} LostByNone(cfg: Config, stores: seq<Store>, chains: seq<Chain>, outcomes: seq<Outcome>,
                                      n: nat,
                                      p: nat, side: bool)
    requires |stores| == |chains| + 1 && |outcomes| == |chains| && n <= |chains|
    ensures LostBy(cfg, stores, chains, outcomes, n, p, side) >= 0
    ensures (forall i :: 0 <= i < n ==> !RollsBack(cfg, chains[i], stores[i], outcomes[i], stores[i + 1])) ==>
              LostBy(cfg, stores, chains, outcomes, n, p, side) == 0
  {
    if n > 0 {
      LostByNone(cfg, stores, chains, outcomes, n - 1, p, side);
    }
  }

  /** Over every history, whatever crashed or reorganised, a live proposal's counter is exactly its live votes plus
      those the history's own rollbacks deleted since its row was created; so it never falls short of the live votes,
      and it is exact if no tick rolled back. */
  lemma {:induction false} HistoryTally(cfg: Config, stores: seq<Store>, chains: seq<Chain>, outcomes: seq<Outcome>,
                                        views: seq<Chain>, n: nat, p: nat, side: bool)
    requires History(cfg, stores, chains, outcomes, views) && n <= |chains|
    requires ProposalKey(cfg.chainId, p) in stores[n].db
    ensures var counter, votes := Counter(stores[n].db[ProposalKey(cfg.chainId, p)], side),
                                  |Votes(stores[n].db, cfg.chainId, p, side)|;
            && counter == votes + LostBy(cfg, stores, chains, outcomes, n, p, side)
            && counter >= votes
            && ((forall i :: 0 <= i < n ==> !RollsBack(cfg, chains[i], stores[i], outcomes[i], stores[i + 1])) ==>
                counter == votes)
  {
    HistoryExcess(cfg, stores, chains, outcomes, views, n, p, side);
    LostByNone(cfg, stores, chains, outcomes, n, p, side);
  }
}
