/** What the indexer can never get past: a log that does not decode, a vote for a proposal that no earlier log created,
    and an active vault without a state. */
module Poison {
  import opened Wrappers
  import opened Ledger
  import opened Tables
  import opened EventFold
  import opened TickPlan
  import opened PlanFacts
  import opened TickContract
  import opened Sync
  import opened CrashReplay
  import opened PlanRuns

  // ---------------------------------------------------------------- undecodable logs

  /** Block `h` carries a watched log whose payload does not decode. */
  ghost predicate Undecoded(cfg: Config, c: Chain, h: nat)
    requires h < |c|
  {
    exists l :: l in BlockLogs(cfg, h, c[h].logs) && l.log.event.Undecodable?
  }

  /** No range that contains the block can be handled, whatever the tables. */
  lemma {:induction false} UndecodedFails(cfg: Config, d: Db, c: Chain, from: nat, t: nat, h: nat)
    requires from <= h <= t < |c| && Undecoded(cfg, c, h)
    ensures ApplyLogs(cfg, d, Logs(cfg, c, from, t + 1)).Err?
  {
    var logs := Logs(cfg, c, from, t + 1);
    var l :| l in BlockLogs(cfg, h, c[h].logs) && l.log.event.Undecodable?;
    LogsAtHeight(cfg, c, from, t + 1, h, l);
    if ApplyLogs(cfg, d, logs).Ok? {
      AllPresent(cfg, d, logs, l);
    }
  }

  lemma {:induction false} AdvancesBelowUndecoded(cfg: Config, c: Chain, base: Db, resume: int, db': Db, recorded: int,
                                                  h: nat)
    requires |c| > 0 && -1 <= resume < h && Advances(cfg, c, base, resume, db', recorded)
    requires h < |c| ==> Undecoded(cfg, c, h)
    ensures recorded < h
  {
    var target := Target(cfg, resume + 1, |c| - 1);
    if target.Some? && target.value >= h {
      FullPassEffect(cfg, c, resume + 1, target.value, base, db');
      UndecodedFails(cfg, Derived(base, cfg.chainId), c, resume + 1, target.value, h);
    }
  }

  lemma {:induction false} TickBelowUndecoded(cfg: Config, c: Chain, s: Store, o: Outcome, s': Store, h: nat)
    requires Tick(cfg, c, s, o, s') && (h < |c| ==> Undecoded(cfg, c, h))
    requires Cursor(s.runs, cfg.chainId) < h
    ensures Cursor(s'.runs, cfg.chainId) < h
  {
    var last := Cursor(s.runs, cfg.chainId);
    TickCursor(cfg, c, s, o, s');
    if o.Done? {
      AdvancesBelowUndecoded(cfg, c, Base(cfg, s.db, c, last), Resume(cfg, s.db, c, last), s'.db, o.recorded, h);
    }
  }

  /** An undecodable watched log stops the indexer for good: as long as every chain the node shows that has a block
      `h` has one in it, the cursor stays below `h`, over every run of ticks, rollbacks included. */
  lemma {:induction false} NeverPastUndecoded(cfg: Config, chains: seq<Chain>, stores: seq<Store>,
                                              outcomes: seq<Outcome>, n: nat, h: nat)
    requires Ticks(cfg, chains, stores, outcomes) && n <= |chains|
    requires forall i :: 0 <= i < n && h < |chains[i]| ==> Undecoded(cfg, chains[i], h)
    requires Cursor(stores[0].runs, cfg.chainId) < h
    ensures Cursor(stores[n].runs, cfg.chainId) < h
  {
    if n > 0 {
      NeverPastUndecoded(cfg, chains, stores, outcomes, n - 1, h);
      assert StepAt(cfg, chains, stores, outcomes, n - 1);
      TickBelowUndecoded(cfg, chains[n - 1], stores[n - 1], outcomes[n - 1], stores[n], h);
    }
  }

  lemma {:induction false} UndecodedPlanFails(cfg: Config, base: Db, c: Chain, from: nat, t: nat, h: nat)
    requires from <= h <= t < |c| && Undecoded(cfg, c, h)
    ensures PlanFails(cfg, base, c, from, t)
  {
    UndecodedFails(cfg, Derived(base, cfg.chainId), c, from, t, h);
    PlanFailsIff(cfg, base, c, from, t, TickWrites(cfg, base, c, from, t));
  }

  /** And every tick whose range contains it fails, even if every call is answered. */
  lemma {:induction false} UndecodedTickFails(cfg: Config, c: Chain, db: Db, last: int, h: nat)
    requires |c| > 0 && -1 <= last && h < |c| && Undecoded(cfg, c, h)
    requires var resume := Resume(cfg, db, c, last);
             var target := Target(cfg, resume + 1, |c| - 1);
             target.Some? && resume < h <= target.value
    ensures TickFails(cfg, c, db, last)
  {
    var base, resume := Base(cfg, db, c, last), Resume(cfg, db, c, last);
    var t := Target(cfg, resume + 1, |c| - 1).value;
    UndecodedPlanFails(cfg, base, c, resume + 1, t, h);
  }

  // ---------------------------------------------------------------- votes for unknown proposals

  predicate IsVote(l: Located, proposal: nat, voter: Address) {
    l.log.event.VoteCast? && ClampI64(l.log.event.proposalId) == proposal && l.log.event.voter == voter
  }

  /** Neither the proposal nor the vote has a row. */
  predicate Absent(cfg: Config, db: Db, proposal: nat, voter: Address) {
    ProposalKey(cfg.chainId, proposal) !in db && VoteKey(cfg.chainId, proposal, voter) !in db
  }

  /** Position `j`, if there is one, is the vote, and no log before it created the proposal. */
  predicate Wall(cfg: Config, ls: seq<Located>, proposal: nat, voter: Address, j: nat) {
    if j < |ls| then
      IsVote(ls[j], proposal, voter) && First(cfg, ls[..j], ProposalKey(cfg.chainId, proposal)).None?
    else
      First(cfg, ls, ProposalKey(cfg.chainId, proposal)).None?
  }

  /** Logs that do not create the proposal add neither row. */
  lemma {:induction false} AbsentKept(cfg: Config, d: Db, ls: seq<Located>, proposal: nat, voter: Address)
    requires Absent(cfg, d, proposal, voter) && First(cfg, ls, ProposalKey(cfg.chainId, proposal)).None?
    requires ApplyLogs(cfg, d, ls).Ok?
    ensures Absent(cfg, ApplyLogs(cfg, d, ls).value, proposal, voter)
  {
    if ls != [] {
      AbsentKept(cfg, d, ls[..|ls| - 1], proposal, voter);
    }
  }

  /** Over tables without the two rows, handling cannot get past the vote, and creates neither row before it. */
  lemma {:induction false} WallHolds(cfg: Config, d: Db, all: seq<Located>, done: seq<Located>, proposal: nat,
                                     voter: Address, j: nat)
    requires Wall(cfg, all, proposal, voter, j) && Absent(cfg, d, proposal, voter)
    requires done <= all && ApplyLogs(cfg, d, done).Ok?
    ensures |done| <= j && Absent(cfg, ApplyLogs(cfg, d, done).value, proposal, voter)
  {
    var k := ProposalKey(cfg.chainId, proposal);
    if j < |done| {
      ApplyLogsConcat(cfg, d, done[..j + 1], done[j + 1..]);
      assert done == done[..j + 1] + done[j + 1..];
      assert done[..j + 1][..j] == all[..j] && done[..j + 1][j] == all[j];
      AbsentKept(cfg, d, all[..j], proposal, voter);
    } else {
      var before := if j < |all| then all[..j] else all;
      FirstConcat(cfg, done, before[|done|..], k);
      assert before == done + before[|done|..];
      AbsentKept(cfg, d, done, proposal, voter);
    }
  }

  /** Among the logs up to block `h`, position `i` is a vote in block `h` whose proposal no log before it created. */
  predicate UnbackedAt(cfg: Config, c: Chain, h: nat, proposal: nat, voter: Address, i: nat)
    requires h < |c|
  {
    var ls := Logs(cfg, c, 0, h + 1);
    i < |ls| && ls[i].height == h && Wall(cfg, ls, proposal, voter, i)
  }

  /** The chain has such a vote in block `h`; or it is shorter, and has not created the proposal. */
  ghost predicate Unbacked(cfg: Config, c: Chain, h: nat, proposal: nat, voter: Address) {
    if h < |c| then
      exists i: nat :: UnbackedAt(cfg, c, h, proposal, voter, i)
    else
      First(cfg, Logs(cfg, c, 0, |c|), ProposalKey(cfg.chainId, proposal)).None?
  }

  lemma {:induction false} LogsShorter(cfg: Config, c: Chain, lo: nat, h: nat, i: nat)
    requires lo <= h < |c| && i < |Logs(cfg, c, 0, h + 1)| && Logs(cfg, c, 0, h + 1)[i].height == h
    ensures |Logs(cfg, c, 0, lo)| <= i
  {
    var low, ls := Logs(cfg, c, 0, lo), Logs(cfg, c, 0, h + 1);
    LogsSplit(cfg, c, 0, lo, h + 1);
    LogsInRange(cfg, c, 0, lo);
    forall x | 0 <= x < |low|
      ensures low[x].height < lo && ls[x] == low[x]
    {
      assert low[x] in low;
    }
  }

  /** A range that starts at or below `h` and reaches it meets the vote. */
  lemma {:induction false} RangeMeets(cfg: Config, c: Chain, h: nat, proposal: nat, voter: Address, i: nat, from: nat,
                                      t: nat) returns (j: nat)
    requires from <= h <= t < |c| && UnbackedAt(cfg, c, h, proposal, voter, i)
    ensures Wall(cfg, Logs(cfg, c, from, t + 1), proposal, voter, j) && j < |Logs(cfg, c, from, t + 1)|
  {
    var ls, low, range := Logs(cfg, c, 0, h + 1), Logs(cfg, c, 0, from), Logs(cfg, c, from, t + 1);
    LogsShorter(cfg, c, from, h, i);
    LogsSplit(cfg, c, 0, from, t + 1);
    LogsSplit(cfg, c, 0, h + 1, t + 1);
    j := i - |low|;
    assert (low + range)[i] == ls[i] && (low + range)[..i] == ls[..i];
    assert ls[..i] == low + range[..j];
    FirstConcat(cfg, low, range[..j], ProposalKey(cfg.chainId, proposal));
  }

  /** Logs from the middle of logs that do not create the proposal do not create it. */
  lemma {:induction false} MiddleNone(cfg: Config, a: seq<Located>, b: seq<Located>, c: seq<Located>, k: Key)
    requires First(cfg, a + b + c, k).None?
    ensures First(cfg, b, k).None?
  {
    FirstConcat(cfg, a + b, c, k);
    FirstConcat(cfg, a, b, k);
  }

  /** A range that ends before `h` does not create the proposal. */
  lemma {:induction false} RangeBefore(cfg: Config, c: Chain, h: nat, proposal: nat, voter: Address, from: nat, t: nat)
    requires from <= t < |c| && t < h && Unbacked(cfg, c, h, proposal, voter)
    ensures First(cfg, Logs(cfg, c, from, t + 1), ProposalKey(cfg.chainId, proposal)).None?
  {
    var k, low, range := ProposalKey(cfg.chainId, proposal), Logs(cfg, c, 0, from), Logs(cfg, c, from, t + 1);
    LogsSplit(cfg, c, 0, from, t + 1);
    if h < |c| {
      var i: nat :| UnbackedAt(cfg, c, h, proposal, voter, i);
      var ls := Logs(cfg, c, 0, h + 1);
      LogsShorter(cfg, c, t + 1, h, i);
      LogsSplit(cfg, c, 0, t + 1, h + 1);
      assert ls[..i] == low + range + ls[|low + range|..i];
      MiddleNone(cfg, low, range, ls[|low + range|..i], k);
    } else {
      LogsSplit(cfg, c, 0, t + 1, |c|);
      MiddleNone(cfg, low, range, Logs(cfg, c, t + 1, |c|), k);
    }
  }

  lemma {:induction false} RangeWall(cfg: Config, c: Chain, h: nat, proposal: nat, voter: Address, from: nat, t: nat)
    returns (j: nat)
    requires from <= h && from <= t < |c| && Unbacked(cfg, c, h, proposal, voter)
    ensures Wall(cfg, Logs(cfg, c, from, t + 1), proposal, voter, j)
    ensures h <= t ==> j < |Logs(cfg, c, from, t + 1)|
  {
    if h <= t {
      var i: nat :| UnbackedAt(cfg, c, h, proposal, voter, i);
      j := RangeMeets(cfg, c, h, proposal, voter, i, from, t);
    } else {
      RangeBefore(cfg, c, h, proposal, voter, from, t);
      j := |Logs(cfg, c, from, t + 1)|;
    }
  }

  lemma {:induction false} AbsentDerived(cfg: Config, db: Db, proposal: nat, voter: Address)
    ensures Absent(cfg, Derived(db, cfg.chainId), proposal, voter) <==> Absent(cfg, db, proposal, voter)
  {
  }

  /** Any part of a pass leaves both rows absent, and no pass gets through block `h`. */
  lemma {:induction false} PassWall(cfg: Config, c: Chain, from: nat, t: nat, base: Db, logs: seq<Located>, db': Db,
                                    h: nat, proposal: nat, voter: Address)
    requires Effect(cfg, c, from, t, base, logs, db') && logs <= Logs(cfg, c, from, t + 1) && from <= h
    requires Unbacked(cfg, c, h, proposal, voter) && Absent(cfg, base, proposal, voter)
    ensures Absent(cfg, db', proposal, voter) && (h <= t ==> logs != Logs(cfg, c, from, t + 1))
  {
    var j := RangeWall(cfg, c, h, proposal, voter, from, t);
    AbsentDerived(cfg, base, proposal, voter);
    AbsentDerived(cfg, db', proposal, voter);
    WallHolds(cfg, Derived(base, cfg.chainId), Logs(cfg, c, from, t + 1), logs, proposal, voter, j);
  }

  lemma {:induction false} AdvancesWall(cfg: Config, c: Chain, base: Db, resume: int, db': Db, recorded: int, h: nat,
                                        proposal: nat, voter: Address)
    requires |c| > 0 && -1 <= resume < h && Advances(cfg, c, base, resume, db', recorded)
    requires Unbacked(cfg, c, h, proposal, voter) && Absent(cfg, base, proposal, voter)
    ensures Absent(cfg, db', proposal, voter) && recorded < h
  {
    var target := Target(cfg, resume + 1, |c| - 1);
    if target.Some? {
      var t := target.value;
      FullPassEffect(cfg, c, resume + 1, t, base, db');
      PassWall(cfg, c, resume + 1, t, base, Logs(cfg, c, resume + 1, t + 1), db', h, proposal, voter);
    }
  }

  lemma {:induction false} StopsWall(cfg: Config, c: Chain, base: Db, resume: int, db': Db, h: nat, proposal: nat,
                                     voter: Address)
    requires |c| > 0 && -1 <= resume < h && Stops(cfg, c, base, resume, db')
    requires Unbacked(cfg, c, h, proposal, voter) && Absent(cfg, base, proposal, voter)
    ensures Absent(cfg, db', proposal, voter)
  {
    var target := Target(cfg, resume + 1, |c| - 1);
    if target.Some? {
      var logs := PartPassEffect(cfg, c, resume + 1, target.value, base, db');
      PassWall(cfg, c, resume + 1, target.value, base, logs, db', h, proposal, voter);
    }
  }

  /** The indexer is below block `h` and knows neither the proposal nor the vote. */
  predicate Before(cfg: Config, s: Store, h: nat, proposal: nat, voter: Address) {
    Absent(cfg, s.db, proposal, voter) && Cursor(s.runs, cfg.chainId) < h
  }

  lemma {:induction false} TickBeforeVote(cfg: Config, c: Chain, s: Store, o: Outcome, s': Store, h: nat, proposal: nat,
                                          voter: Address)
    requires Tick(cfg, c, s, o, s') && Unbacked(cfg, c, h, proposal, voter) && Before(cfg, s, h, proposal, voter)
    ensures Before(cfg, s', h, proposal, voter)
  {
    var last := Cursor(s.runs, cfg.chainId);
    var base, resume := Base(cfg, s.db, c, last), Resume(cfg, s.db, c, last);
    TickCursor(cfg, c, s, o, s');
    assert Absent(cfg, base, proposal, voter);
    if o.Done? {
      AdvancesWall(cfg, c, base, resume, s'.db, o.recorded, h, proposal, voter);
    } else if s'.db != s.db {
      StopsWall(cfg, c, base, resume, s'.db, h, proposal, voter);
    }
  }

  /** So does a vote for a proposal that no log before it created: the cursor stays below its block, over every run
      of ticks, rollbacks included, as long as the chains agree on that. */
  lemma {:induction false} NeverPastUnbackedVote(cfg: Config, chains: seq<Chain>, stores: seq<Store>,
                                                 outcomes: seq<Outcome>, n: nat, h: nat, proposal: nat, voter: Address)
    requires Ticks(cfg, chains, stores, outcomes) && n <= |chains|
    requires forall i :: 0 <= i < n ==> Unbacked(cfg, chains[i], h, proposal, voter)
    requires Before(cfg, stores[0], h, proposal, voter)
    ensures Before(cfg, stores[n], h, proposal, voter)
  {
    if n > 0 {
      NeverPastUnbackedVote(cfg, chains, stores, outcomes, n - 1, h, proposal, voter);
      assert StepAt(cfg, chains, stores, outcomes, n - 1);
      TickBeforeVote(cfg, chains[n - 1], stores[n - 1], outcomes[n - 1], stores[n], h, proposal, voter);
    }
  }

  // ---------------------------------------------------------------- vaults without a state

  /** The vault is registered and active, and has no snapshot. */
  ghost predicate Unsnapped(cfg: Config, db: Db, a: Address) {
    var k := VaultKey(cfg.chainId, a);
    && k in db && db[k].cols.VaultCols? && db[k].cols.vaultStatus == 0
    && forall x :: x in db && x.SnapshotKey? && x.cid == cfg.chainId ==> x.contract != a
  }

  /** The chain shows no state of the vault anywhere, and no watched log changes its status. */
  ghost predicate Stateless(cfg: Config, c: Chain, a: Address) {
    && (forall h: nat :: h < |c| ==> a !in c[h].vaults)
    && (forall l :: l in Logs(cfg, c, 0, |c|) ==> !ChangesStatus(l, a))
  }

  predicate ChangesStatus(l: Located, a: Address) {
    l.log.event.VaultStatusChanged? && l.log.event.vault == a
  }

  lemma {:induction false} LogKeepsVault(cfg: Config, d: Db, l: Located, a: Address)
    requires ApplyLog(cfg, d, l).Ok? && VaultKey(cfg.chainId, a) in d && !ChangesStatus(l, a)
    ensures VaultKey(cfg.chainId, a) in ApplyLog(cfg, d, l).value
    ensures ApplyLog(cfg, d, l).value[VaultKey(cfg.chainId, a)] == d[VaultKey(cfg.chainId, a)]
  {
  }

  lemma {:induction false} LogsKeepVault(cfg: Config, d: Db, ls: seq<Located>, a: Address)
    requires ApplyLogs(cfg, d, ls).Ok? && VaultKey(cfg.chainId, a) in d
    requires forall l :: l in ls ==> !ChangesStatus(l, a)
    ensures VaultKey(cfg.chainId, a) in ApplyLogs(cfg, d, ls).value
    ensures ApplyLogs(cfg, d, ls).value[VaultKey(cfg.chainId, a)] == d[VaultKey(cfg.chainId, a)]
  {
    if ls != [] {
      var front, last := ls[..|ls| - 1], ls[|ls| - 1];
      assert last in ls;
      assert forall l :: l in front ==> l in ls;
      LogsKeepVault(cfg, d, front, a);
      LogKeepsVault(cfg, ApplyLogs(cfg, d, front).value, last, a);
    }
  }

  lemma {:induction false} RangeKeepsStatus(cfg: Config, c: Chain, from: nat, t: nat, logs: seq<Located>, a: Address)
    requires from <= t < |c| && logs <= Logs(cfg, c, from, t + 1) && Stateless(cfg, c, a)
    ensures forall l :: l in logs ==> !ChangesStatus(l, a)
  {
    LogsSplit(cfg, c, 0, from, |c|);
    LogsSplit(cfg, c, from, t + 1, |c|);
    assert forall l :: l in logs ==> l in Logs(cfg, c, from, t + 1);
    assert forall l :: l in Logs(cfg, c, from, t + 1) ==> l in Logs(cfg, c, from, |c|);
    assert forall l :: l in Logs(cfg, c, from, |c|) ==> l in Logs(cfg, c, 0, |c|);
  }

  /** No part of a pass gives the vault a snapshot or another status. */
  lemma {:induction false} PassUnsnapped(cfg: Config, c: Chain, from: nat, t: nat, base: Db, logs: seq<Located>,
                                         db': Db,
                                         a: Address)
    requires Effect(cfg, c, from, t, base, logs, db') && logs <= Logs(cfg, c, from, t + 1)
    requires Unsnapped(cfg, base, a) && Stateless(cfg, c, a)
    ensures Unsnapped(cfg, db', a) && (StateKeyed(cfg, base) ==> StateKeyed(cfg, db'))
  {
    var k := VaultKey(cfg.chainId, a);
    RangeKeepsStatus(cfg, c, from, t, logs, a);
    assert k in Derived(base, cfg.chainId);
    LogsKeepVault(cfg, Derived(base, cfg.chainId), logs, a);
    assert k in Derived(db', cfg.chainId) && db'[k] == base[k];
    forall x | x in db' && x.SnapshotKey? && x.cid == cfg.chainId
      ensures x.contract != a
    {
      assert IsStateKey(x);
    }
  }

  lemma {:induction false} NoFullPass(cfg: Config, c: Chain, from: nat, t: nat, base: Db, db': Db, a: Address)
    requires Unsnapped(cfg, base, a) && Stateless(cfg, c, a) && StateKeyed(cfg, base)
    ensures !FullPass(cfg, c, from, t, base, db')
  {
    if FullPass(cfg, c, from, t, base, db') {
      FullPassEffect(cfg, c, from, t, base, db');
      PassUnsnapped(cfg, c, from, t, base, Logs(cfg, c, from, t + 1), db', a);
      ActiveVault(cfg, db', a);
    }
  }

  lemma {:induction false} ActiveVault(cfg: Config, db: Db, a: Address)
    requires Unsnapped(cfg, db, a)
    ensures a in ActiveVaults(db, cfg.chainId)
  {
    var k := VaultKey(cfg.chainId, a);
    assert k in db && k.vault == a;
  }

  /** The indexer is stuck on the vault. */
  ghost predicate Stalled(cfg: Config, db: Db, a: Address) {
    Unsnapped(cfg, db, a) && StateKeyed(cfg, db)
  }

  lemma {:induction false} CutStalled(cfg: Config, db: Db, c: Chain, last: int, a: Address)
    requires -1 <= last && Stalled(cfg, db, a)
    ensures Stalled(cfg, Base(cfg, db, c, last), a)
  {
  }

  lemma {:induction false} AdvancesStalled(cfg: Config, c: Chain, base: Db, resume: int, db': Db, recorded: int,
                                           a: Address)
    requires |c| > 0 && -1 <= resume && Advances(cfg, c, base, resume, db', recorded)
    requires Stalled(cfg, base, a) && Stateless(cfg, c, a)
    ensures db' == base && recorded == resume
  {
    var target := Target(cfg, resume + 1, |c| - 1);
    if target.Some? {
      NoFullPass(cfg, c, resume + 1, target.value, base, db', a);
    }
  }

  lemma {:induction false} StopsStalled(cfg: Config, c: Chain, base: Db, resume: int, db': Db, a: Address)
    requires |c| > 0 && -1 <= resume && Stops(cfg, c, base, resume, db')
    requires Stalled(cfg, base, a) && Stateless(cfg, c, a)
    ensures Stalled(cfg, db', a)
  {
    var target := Target(cfg, resume + 1, |c| - 1);
    if target.Some? {
      var logs := PartPassEffect(cfg, c, resume + 1, target.value, base, db');
      PassUnsnapped(cfg, c, resume + 1, target.value, base, logs, db', a);
    }
  }

  lemma {:induction false} TickStalled(cfg: Config, c: Chain, s: Store, o: Outcome, s': Store, a: Address)
    requires Tick(cfg, c, s, o, s') && Stalled(cfg, s.db, a) && Stateless(cfg, c, a)
    ensures Stalled(cfg, s'.db, a) && Cursor(s'.runs, cfg.chainId) == Cursor(s.runs, cfg.chainId)
  {
    var last := Cursor(s.runs, cfg.chainId);
    var base, resume := Base(cfg, s.db, c, last), Resume(cfg, s.db, c, last);
    TickCursor(cfg, c, s, o, s');
    CutStalled(cfg, s.db, c, last, a);
    if o.Done? {
      AdvancesStalled(cfg, c, base, resume, s'.db, o.recorded, a);
    } else if s'.db != s.db {
      StopsStalled(cfg, c, base, resume, s'.db, a);
    }
  }

  /** An active registered vault without a snapshot whose contract has no state stops the indexer: as long as no chain
      shows a state of it and none of their logs changes its status, the cursor never moves, over every run of ticks,
      rollbacks included. */
  lemma {:induction false} NeverPastStatelessVault(cfg: Config, chains: seq<Chain>, stores: seq<Store>,
                                                   outcomes: seq<Outcome>, n: nat, a: Address)
    requires Ticks(cfg, chains, stores, outcomes) && n <= |chains|
    requires forall i :: 0 <= i < n ==> Stateless(cfg, chains[i], a)
    requires Stalled(cfg, stores[0].db, a)
    ensures Stalled(cfg, stores[n].db, a)
    ensures Cursor(stores[n].runs, cfg.chainId) == Cursor(stores[0].runs, cfg.chainId)
  {
    if n > 0 {
      NeverPastStatelessVault(cfg, chains, stores, outcomes, n - 1, a);
      assert StepAt(cfg, chains, stores, outcomes, n - 1);
      TickStalled(cfg, chains[n - 1], stores[n - 1], outcomes[n - 1], stores[n], a);
    }
  }
}
