/** Concrete histories: each way the index can go wrong does happen, on a handful of blocks. */
module Witness {
  import opened Wrappers
  import opened Ledger
  import opened Tables
  import opened EventFold
  import opened TickPlan
  import opened PlanFacts
  import opened TickContract
  import opened Sync
  import opened Reorg
  import opened PlanRuns
  import opened CrashReplay
  import opened Anchoring
  import opened TickFailure
  import opened Poison
  import T = Tally

  // ---------------------------------------------------------------- ticks exist

  /** The heights a tick adds, on top of the resume level. */
  function Recorded(cfg: Config, db: Db, c: Chain, last: int): int
    requires |c| > 0 && -1 <= last
  {
    var resume := Resume(cfg, db, c, last);
    var target := Target(cfg, resume + 1, |c| - 1);
    if target.None? then resume else target.value
  }

  /** A plan without a failing write has an outcome. */
  lemma {:induction false} PlanRunsThrough(cfg: Config, base: Db, c: Chain, from: nat, t: nat) returns (db': Db)
    requires from <= t < |c| && !PlanFails(cfg, base, c, from, t)
    ensures Runs(cfg, base, c, from, t, db')
  {
    var ws :| Planned(cfg, base, c, from, t, ws) && Exec(cfg, base, ws).Ok?;
    db' := Exec(cfg, base, ws).value;
    forall p | Planned(cfg, base, c, from, t, p)
      ensures p == ws
    {
      PlannedIs(cfg, base, c, from, t, ws);
      PlannedIs(cfg, base, c, from, t, p);
    }
  }

  lemma {:induction false} RangeFinishes(cfg: Config, c: Chain, base: Db, resume: int) returns (db': Db, recorded: int)
    requires |c| > 0 && -1 <= resume && !RangeFails(cfg, c, base, resume)
    ensures Finishes(cfg, c, base, resume, db', recorded)
  {
    var target := Target(cfg, resume + 1, |c| - 1);
    if target.Some? {
      db' := PlanRunsThrough(cfg, base, c, resume + 1, target.value);
      recorded := target.value;
    } else {
      db', recorded := base, resume;
    }
  }

  /** A tick that nothing on the tables or the chain prevents can complete; its end is determined. */
  lemma {:induction false} CanComplete(cfg: Config, c: Chain, s: Store) returns (s': Store)
    requires |c| > 0 && !TickFails(cfg, c, s.db, Cursor(s.runs, cfg.chainId))
    ensures Tick(cfg, c, s, Done(Recorded(cfg, s.db, c, Cursor(s.runs, cfg.chainId))), s')
  {
    var last := Cursor(s.runs, cfg.chainId);
    var base, resume := Base(cfg, s.db, c, last), Resume(cfg, s.db, c, last);
    var db', recorded := RangeFinishes(cfg, c, base, resume);
    FinishesAdvances(cfg, c, base, resume, db', recorded);
    s' := Store(db', s.runs + [Run(cfg.chainId, last + 1, ToOption(recorded), false)]);
  }

  /** It can also do all its work and then fail to record it. */
  lemma {:induction false} CanLoseRecord(cfg: Config, c: Chain, s: Store) returns (s': Store)
    requires |c| > 0 && !TickFails(cfg, c, s.db, Cursor(s.runs, cfg.chainId))
    ensures Tick(cfg, c, s, Stopped, s') && s'.runs == s.runs
    ensures var last := Cursor(s.runs, cfg.chainId);
            Advances(cfg, c, Base(cfg, s.db, c, last), Resume(cfg, s.db, c, last), s'.db, Recorded(cfg, s.db, c, last))
  {
    var last := Cursor(s.runs, cfg.chainId);
    var base, resume := Base(cfg, s.db, c, last), Resume(cfg, s.db, c, last);
    var db', recorded := RangeFinishes(cfg, c, base, resume);
    FinishesAdvances(cfg, c, base, resume, db', recorded);
    FinishesBreaks(cfg, c, base, resume, db', recorded);
    BreaksStops(cfg, c, base, resume, db');
    s' := Store(db', s.runs);
  }

  /** Nothing prevents a tick from `resume` to `t`: its logs can be handled, and every vault it may read has a state. */
  ghost predicate Ready(cfg: Config, c: Chain, db: Db, last: int, resume: int, t: nat, d': Db) {
    && |c| > 0 && -1 <= last && Sound(cfg, db) && WellTyped(Derived(db, cfg.chainId))
    && !RollbackBlocked(cfg, db, c, last) && resume == Resume(cfg, db, c, last)
    && Target(cfg, resume + 1, |c| - 1) == Some(t)
    && ApplyLogs(cfg, Derived(Base(cfg, db, c, last), cfg.chainId), Logs(cfg, c, resume + 1, t + 1)) == Ok(d')
    && (forall h: nat :: h < |c| ==> cfg.vault in c[h].vaults)
    && (forall a, h: nat :: VaultKey(cfg.chainId, a) in d' && h < |c| ==> a in c[h].vaults)
  }

  /** What the tick leaves. */
  ghost predicate Passed(cfg: Config, c: Chain, db: Db, last: int, resume: int, t: nat, d': Db, db': Db) {
    && |c| > 0 && -1 <= last && -1 <= resume
    && FullPass(cfg, c, resume + 1, t, Base(cfg, db, c, last), db') && Derived(db', cfg.chainId) == d'
  }

  lemma {:induction false} ReadyPasses(cfg: Config, c: Chain, db: Db, last: int, resume: int, t: nat, d': Db, db': Db)
    requires Ready(cfg, c, db, last, resume, t, d')
    requires Advances(cfg, c, Base(cfg, db, c, last), resume, db', t)
    ensures Passed(cfg, c, db, last, resume, t, d', db')
  {
    FullPassEffect(cfg, c, resume + 1, t, Base(cfg, db, c, last), db');
  }

  lemma {:induction false} ReadyFeasible(cfg: Config, c: Chain, db: Db, last: int, resume: int, t: nat, d': Db)
    requires Ready(cfg, c, db, last, resume, t, d')
    ensures Regular(cfg, Base(cfg, db, c, last)) && RangeFeasible(cfg, Base(cfg, db, c, last), c, resume + 1, t)
  {
    var base, logs := Base(cfg, db, c, last), Logs(cfg, c, resume + 1, t + 1);
    BaseRegular(cfg, db, c, last);
    HandledIff(cfg, Derived(base, cfg.chainId), logs);
    forall a | Due(cfg, base, c, resume + 1, t, a)
      ensures StateAt(c, t, a).Some?
    {
      ActiveAfterIff(cfg, Derived(base, cfg.chainId), logs, a);
    }
  }

  lemma {:induction false} ReadyNotFails(cfg: Config, c: Chain, db: Db, last: int, resume: int, t: nat, d': Db)
    requires Ready(cfg, c, db, last, resume, t, d')
    ensures !TickFails(cfg, c, db, last) && Recorded(cfg, db, c, last) == t
  {
    ReadyFeasible(cfg, c, db, last, resume, t, d');
    RangeFailsIff(cfg, c, Base(cfg, db, c, last), resume);
  }

  /** Readiness with the rolled-back tables and the range's logs at hand. */
  lemma {:induction false} ReadyWith(cfg: Config, c: Chain, db: Db, last: int, resume: int, t: nat, base: Db,
                                     logs: seq<Located>, d': Db)
    requires |c| > 0 && -1 <= last && Sound(cfg, db) && WellTyped(Derived(db, cfg.chainId))
    requires !RollbackBlocked(cfg, db, c, last)
    requires resume == Resume(cfg, db, c, last) && base == Base(cfg, db, c, last)
    requires Target(cfg, resume + 1, |c| - 1) == Some(t) && logs == Logs(cfg, c, resume + 1, t + 1)
    requires ApplyLogs(cfg, Derived(base, cfg.chainId), logs) == Ok(d')
    requires forall h: nat :: h < |c| ==> cfg.vault in c[h].vaults
    requires forall a, h: nat :: VaultKey(cfg.chainId, a) in d' && h < |c| ==> a in c[h].vaults
    ensures Ready(cfg, c, db, last, resume, t, d')
  {
  }

  lemma {:induction false} Go(cfg: Config, c: Chain, s: Store, last: int, resume: int, t: nat, d': Db)
    returns (s': Store)
    requires last == Cursor(s.runs, cfg.chainId) && Ready(cfg, c, s.db, last, resume, t, d')
    ensures Tick(cfg, c, s, Done(t), s') && Passed(cfg, c, s.db, last, resume, t, d', s'.db)
    ensures Cursor(s'.runs, cfg.chainId) == Max(last, t) && Sound(cfg, s'.db)
  {
    ReadyNotFails(cfg, c, s.db, last, resume, t, d');
    s' := CanComplete(cfg, c, s);
    TickSound(cfg, c, s, Done(t), s');
    ReadyPasses(cfg, c, s.db, last, resume, t, d', s'.db);
    TickCursor(cfg, c, s, Done(t), s');
  }

  lemma {:induction false} GoUnrecorded(cfg: Config, c: Chain, s: Store, last: int, resume: int, t: nat, d': Db)
    returns (s': Store)
    requires last == Cursor(s.runs, cfg.chainId) && Ready(cfg, c, s.db, last, resume, t, d')
    ensures Tick(cfg, c, s, Stopped, s') && Passed(cfg, c, s.db, last, resume, t, d', s'.db) && s'.runs == s.runs
    ensures Sound(cfg, s'.db)
  {
    ReadyNotFails(cfg, c, s.db, last, resume, t, d');
    s' := CanLoseRecord(cfg, c, s);
    TickSound(cfg, c, s, Stopped, s');
    ReadyPasses(cfg, c, s.db, last, resume, t, d', s'.db);
  }

  // ---------------------------------------------------------------- a small world

  /** Gateway 100, vault 200, governance 300, registry 400. */
  const CFG: Config := Config(1, 100, 200, Some(400), Some(300), true, 1000, None)

  const REVOKED: Log := Log(100, 0, 7, AgentRevoked(9))
  const CREATED: Log := Log(300, 0, 7, ProposalCreated(5, 9, 50))
  const CAST: Log := Log(300, 0, 8, VoteCast(5, 9, 1))
  const REGISTERED: Log := Log(400, 0, 9, VaultRegistered(7, "vault"))
  const GARBLED: Log := Log(100, 0, 7, Undecodable)

  const STATES: map<Address, VaultState> := map[200 := VaultState(0, 0)]

  /** `n` blocks from time `time` on, with at most one log each. */
  function Blocks(n: nat, time: nat, logs: map<nat, Log>, states: map<Address, VaultState> := STATES): Chain {
    seq(n, i requires 0 <= i < n => Block(time + i, [], if i in logs then [logs[i]] else [], states))
  }

  lemma {:induction false} BlocksLogs(n: nat, time: nat, logs: map<nat, Log>, states: map<Address, VaultState>, lo: nat,
                                      hi: nat)
    requires lo <= hi < n && (hi in logs ==> CFG.Watches(logs[hi]))
    ensures Logs(CFG, Blocks(n, time, logs, states), lo, hi + 1) ==
            Logs(CFG, Blocks(n, time, logs, states), lo, hi) + if hi in logs then [Located(hi, logs[hi])] else []
  {
    var c := Blocks(n, time, logs, states);
    if hi in logs {
      assert [logs[hi]][..0] == [];
    }
    assert Logs(CFG, c, lo, hi + 1) == Logs(CFG, c, lo, hi) + BlockLogs(CFG, hi, c[hi].logs);
  }

  /** Three blocks from the start. */
  lemma {:induction false} FirstLogs(n: nat, time: nat, logs: map<nat, Log>, states: map<Address, VaultState> := STATES)
    requires n >= 3 && forall h :: h in logs ==> CFG.Watches(logs[h])
    ensures var c := Blocks(n, time, logs, states);
            Logs(CFG, c, 0, 3) == (if 0 in logs then [Located(0, logs[0])] else []) +
                                  (if 1 in logs then [Located(1, logs[1])] else []) +
                                  (if 2 in logs then [Located(2, logs[2])] else [])
  {
    BlocksLogs(n, time, logs, states, 0, 0);
    BlocksLogs(n, time, logs, states, 0, 1);
    BlocksLogs(n, time, logs, states, 0, 2);
  }

  /** Without logs from `lo` on. */
  lemma {:induction false} NoLogs(n: nat, time: nat, logs: map<nat, Log>, lo: nat, hi: nat)
    requires lo <= hi <= n && forall h :: h in logs ==> !(lo <= h < hi)
    ensures Logs(CFG, Blocks(n, time, logs), lo, hi) == []
    decreases hi
  {
    if lo < hi {
      NoLogs(n, time, logs, lo, hi - 1);
      BlocksLogs(n, time, logs, STATES, lo, hi - 1);
    }
  }

  /** Chains that start at different times differ everywhere. */
  lemma {:induction false} OtherTimes(n: nat, time: nat, logs: map<nat, Log>, n': nat, time': nat, logs': map<nat, Log>,
                                      h: nat, states: map<Address, VaultState> := STATES)
    requires h < n && h < n' && time != time'
    ensures BlockHash(Blocks(n, time, logs, states), h) != BlockHash(Blocks(n', time', logs'), h)
  {
    var a, b := Blocks(n, time, logs, states), Blocks(n', time', logs');
    BlockHashDecidesPrefix(a, b, h);
    assert a[..h + 1][0] != b[..h + 1][0];
  }

  /** One tick more. */
  lemma {:induction false} TicksMore(cfg: Config, chains: seq<Chain>, stores: seq<Store>, outcomes: seq<Outcome>,
                                     c: Chain, o: Outcome, s: Store)
    requires Ticks(cfg, chains, stores, outcomes) && Tick(cfg, c, stores[|chains|], o, s)
    ensures Ticks(cfg, chains + [c], stores + [s], outcomes + [o])
  {
    forall i: nat | i < |chains + [c]|
      ensures StepAt(cfg, chains + [c], stores + [s], outcomes + [o], i)
    {
      if i < |chains| {
        assert StepAt(cfg, chains, stores, outcomes, i);
      }
    }
  }

  lemma {:induction false} TwoTicks(cfg: Config, c: Chain, c': Chain, s: Store, s1: Store, s2: Store, o: Outcome,
                                    o': Outcome)
    requires Tick(cfg, c, s, o, s1) && Tick(cfg, c', s1, o', s2)
    ensures Ticks(cfg, [c, c'], [s, s1, s2], [o, o'])
  {
    TicksMore(cfg, [], [s], [], c, o, s1);
    assert [] + [c] == [c] && [s] + [s1] == [s, s1] && [] + [o] == [o];
    TicksMore(cfg, [c], [s, s1], [o], c', o', s2);
    assert [c] + [c'] == [c, c'] && [s, s1] + [s2] == [s, s1, s2] && [o] + [o'] == [o, o'];
  }

  lemma {:induction false} ThreeTicks(cfg: Config, c: Chain, c': Chain, c'': Chain, s: Store, s1: Store, s2: Store,
                                      s3: Store, o: Outcome, o': Outcome, o'': Outcome)
    requires Tick(cfg, c, s, o, s1) && Tick(cfg, c', s1, o', s2) && Tick(cfg, c'', s2, o'', s3)
    ensures Ticks(cfg, [c, c', c''], [s, s1, s2, s3], [o, o', o''])
  {
    TwoTicks(cfg, c, c', s, s1, s2, o, o');
    TicksMore(cfg, [c, c'], [s, s1, s2], [o, o'], c'', o'', s3);
    assert [c, c'] + [c''] == [c, c', c''] && [s, s1, s2] + [s3] == [s, s1, s2, s3] && [o, o'] + [o''] == [o, o', o''];
  }

  lemma {:induction false} NothingStored()
    ensures Derived(map[], 1) == map[] && Cursor(Store(map[], []).runs, 1) == -1 && Events(map[], 1) == map[]
    ensures Sound(CFG, map[])
  {
  }

  lemma {:induction false} NoEvents(db: Db)
    requires Derived(db, 1) == map[]
    ensures forall k :: k in db && k.cid == 1 ==> !IsEventKey(k)
  {
    assert forall k :: k in db && k.cid == 1 && IsEventKey(k) ==> k in Derived(db, 1);
  }

  /** A first pass leaves the index in agreement with its chain. */
  lemma {:induction false} FirstPassSyncs(c: Chain, t: nat, d': Db, db': Db)
    requires Passed(CFG, c, map[], -1, -1, t, d', db')
    ensures Synced(CFG, db', t, c) && forall h: nat :: h <= t && StoresHeader(CFG, c, t, h) ==> BlockKey(1, h) in db'
  {
    EmptySynced(CFG);
    SyncedPrefix(CFG, map[], -1, [], c);
    PassIff(CFG, map[], -1, t, c, db');
  }

  // ---------------------------------------------------------------- lost heights

  /** Eight empty blocks. */
  function Long(): Chain {
    Blocks(8, 0, map[])
  }

  /** Another chain, six blocks long, that revokes an agent at height 1; and the same chain grown by four blocks. */
  function Short(): Chain {
    Blocks(6, 100, map[1 := REVOKED])
  }

  function Grown(): Chain {
    Blocks(10, 100, map[1 := REVOKED])
  }

  lemma {:induction false} LongTick() returns (s: Store)
    ensures Tick(CFG, Long(), Store(map[], []), Done(2), s) && Cursor(s.runs, 1) == 2
    ensures Synced(CFG, s.db, 2, Long()) && Derived(s.db, 1) == map[] && Sound(CFG, s.db)
  {
    NothingStored();
    NoLogs(8, 0, map[], 0, 3);
    s := Go(CFG, Long(), Store(map[], []), -1, -1, 2, map[]);
    FirstPassSyncs(Long(), 2, map[], s.db);
  }

  lemma {:induction false} ShortTick(s: Store) returns (s': Store)
    requires Synced(CFG, s.db, 2, Long()) && Derived(s.db, 1) == map[] && Cursor(s.runs, 1) == 2 && Sound(CFG, s.db)
    ensures Mismatch(CFG, s.db, Short(), 2)
    ensures Tick(CFG, Short(), s, Done(0), s') && Cursor(s'.runs, 1) == 2 && Derived(s'.db, 1) == map[]
    ensures BlockKey(1, 2) !in s'.db && Sound(CFG, s'.db)
  {
    var base, root := Base(CFG, s.db, Short(), 2), Root(CFG, s.db, Short(), 2);
    assert Short()[..3][0] != Long()[..3][0];
    DetectionComplete(CFG, s.db, 2, Long(), Short());
    if root >= 0 {
      var k := BlockKey(1, root);
      assert Mirrors(Long(), k, s.db[k]);
      OtherTimes(8, 0, map[], 6, 100, map[1 := REVOKED], root);
    }
    NoEvents(s.db);
    assert Derived(base, 1) == map[];
    NoLogs(6, 100, map[1 := REVOKED], 0, 1);
    s' := Go(CFG, Short(), s, 2, -1, 0, map[]);
    ShortRollback(CFG, Short(), s, 0, s', Long());
  }

  lemma {:induction false} GrownTick(s: Store) returns (s': Store)
    requires Cursor(s.runs, 1) == 2 && Derived(s.db, 1) == map[] && BlockKey(1, 2) !in s.db && Sound(CFG, s.db)
    ensures Tick(CFG, Grown(), s, Done(4), s') && Cursor(s'.runs, 1) == 4 && Derived(s'.db, 1) == map[]
  {
    NoLogs(10, 100, map[1 := REVOKED], 3, 5);
    s' := Go(CFG, Grown(), s, 2, 2, 4, map[]);
  }

  lemma {:induction false} RevocationLogged(c: Chain)
    requires c == Grown() && |c| == 10
    ensures Located(1, REVOKED) in Logs(CFG, c, 0, 5)
  {
    FirstLogs(10, 100, map[1 := REVOKED]);
    LogsSplit(CFG, c, 0, 3, 5);
    assert Logs(CFG, c, 0, 3)[0] == Located(1, REVOKED);
  }

  /** The chain's own log at height 1 is canonical. */
  lemma {:induction false} RevocationIsCanonical(c: Chain)
    requires c == Grown() && |c| == 10
    ensures PolicyKey(1, 1, 0) in Canonical(CFG, c, 4)
  {
    RevocationLogged(c);
    assert Contributes(CFG, Located(1, REVOKED), PolicyKey(1, 1, 0));
    FirstIff(CFG, Logs(CFG, c, 0, 5), PolicyKey(1, 1, 0));
    CanonicalLookup(CFG, c, 4, PolicyKey(1, 1, 0));
  }

  /** Three completed ticks lose a revocation: a long chain, a shorter one, and its growth.  The last tick leaves the
      cursor at height 4 without the row of the log at height 1. */
  lemma {:induction false} LostHeight() returns (stores: seq<Store>)
    ensures Ticks(CFG, [Long(), Short(), Grown()], stores, [Done(2), Done(0), Done(4)])
    ensures stores[0] == Store(map[], []) && Short() <= Grown() && Cursor(stores[3].runs, 1) == 4
    ensures PolicyKey(1, 1, 0) in Canonical(CFG, Grown(), 4) && PolicyKey(1, 1, 0) !in stores[3].db
  {
    var s1 := LongTick();
    var s2 := ShortTick(s1);
    var s3 := GrownTick(s2);
    ThreeTicks(CFG, Long(), Short(), Grown(), Store(map[], []), s1, s2, s3, Done(2), Done(0), Done(4));
    stores := [Store(map[], []), s1, s2, s3];
    assert Short() <= Grown();
    RevocationIsCanonical(Grown());
    NoEvents(s3.db);
  }

  /** A chain shorter than the cursor is not compared at all: with the index at height 2 of the long chain, two blocks
      of another chain raise no mismatch. */
  lemma {:induction false} ShortChainUnseen() returns (s: Store)
    ensures Tick(CFG, Long(), Store(map[], []), Done(2), s) && Synced(CFG, s.db, Cursor(s.runs, 1), Long())
    ensures var c := Blocks(2, 100, map[]);
            c[..2] != Long()[..2] && !Mismatch(CFG, s.db, c, Cursor(s.runs, 1))
  {
    s := LongTick();
    assert Blocks(2, 100, map[])[..2][0] != Long()[..2][0];
  }

  // ---------------------------------------------------------------- a refused rollback

  /** A chain that creates a proposal at height 2; and one that creates it at height 0 and votes at height 1. */
  function Late(): Chain {
    Blocks(8, 0, map[2 := CREATED])
  }

  function Early(): Chain {
    Blocks(8, 100, map[0 := CREATED, 1 := CAST])
  }

  function CreatedRow(height: nat, votes: nat): Row {
    Row(height, ProposalCols(0, 7, 9, height, 50, 0, None, votes, 0))
  }

  const PROPOSAL: Key := ProposalKey(1, 5)
  const VOTE: Key := VoteKey(1, 5, 9)

  lemma {:induction false} HandleCreated(height: nat)
    ensures ApplyLogs(CFG, map[], [Located(height, CREATED)]) == Ok(map[PROPOSAL := CreatedRow(height, 0)])
  {
    assert [Located(height, CREATED)][..0] == [];
  }

  function VoteCounted(height: nat): Db {
    map[PROPOSAL := CreatedRow(height, 1), VOTE := Row(1, VoteCols(0, 8, true, 1))]
  }

  lemma {:induction false} CountVote(height: nat)
    ensures ApplyLog(CFG, map[PROPOSAL := CreatedRow(height, 0)], Located(1, CAST)) == Ok(VoteCounted(height))
  {
    var mid, row := map[PROPOSAL := CreatedRow(height, 0)], Row(1, VoteCols(0, 8, true, 1));
    var both := mid[VOTE := row];
    assert ApplyLog(CFG, mid, Located(1, CAST)) == Ok(Tally(both, PROPOSAL, true));
    assert Tally(both, PROPOSAL, true) == VoteCounted(height);
  }

  /** Handling the early chain's logs over a proposal row that may be there already. */
  lemma {:induction false} HandleVote(height: nat, d: Db)
    requires d == (if height == 0 then map[] else map[PROPOSAL := CreatedRow(height, 0)])
    ensures ApplyLogs(CFG, d, [Located(0, CREATED), Located(1, CAST)]) == Ok(VoteCounted(height))
  {
    var ls, mid := [Located(0, CREATED), Located(1, CAST)], map[PROPOSAL := CreatedRow(height, 0)];
    assert ls[..1] == [Located(0, CREATED)] && ls[..1][..0] == [];
    assert ApplyLogs(CFG, d, ls[..1]) == Ok(mid);
    CountVote(height);
  }

  lemma {:induction false} LateReady()
    ensures Ready(CFG, Late(), map[], -1, -1, 2, map[PROPOSAL := CreatedRow(2, 0)])
  {
    NothingStored();
    FirstLogs(8, 0, map[2 := CREATED]);
    HandleCreated(2);
  }

  lemma {:induction false} LateTick() returns (s: Store)
    ensures Tick(CFG, Late(), Store(map[], []), Stopped, s) && Cursor(s.runs, 1) == -1 && Sound(CFG, s.db)
    ensures Passed(CFG, Late(), map[], -1, -1, 2, map[PROPOSAL := CreatedRow(2, 0)], s.db)
  {
    LateReady();
    NothingStored();
    var start := Store(map[], []);
    s := GoUnrecorded(CFG, Late(), start, -1, -1, 2, map[PROPOSAL := CreatedRow(2, 0)]);
    assert s.runs == start.runs;
  }

  lemma {:induction false} EarlyReady(db: Db)
    requires Derived(db, 1) == map[PROPOSAL := CreatedRow(2, 0)] && Sound(CFG, db)
    ensures Ready(CFG, Early(), db, -1, -1, 2, VoteCounted(2))
  {
    FirstLogs(8, 100, map[0 := CREATED, 1 := CAST]);
    HandleVote(2, Derived(db, 1));
  }

  lemma {:induction false} EarlyTick(s: Store) returns (s': Store)
    requires Cursor(s.runs, 1) == -1 && Derived(s.db, 1) == map[PROPOSAL := CreatedRow(2, 0)] && Sound(CFG, s.db)
    ensures Tick(CFG, Early(), s, Done(2), s') && Cursor(s'.runs, 1) == 2
    ensures Passed(CFG, Early(), s.db, -1, -1, 2, VoteCounted(2), s'.db)
  {
    EarlyReady(s.db);
    s' := Go(CFG, Early(), s, -1, -1, 2, VoteCounted(2));
  }

  lemma {:induction false} HasOneLog(n: nat, time: nat, logs: map<nat, Log>, h: nat)
    requires h < n && (h in logs ==> CFG.Watches(logs[h]))
    ensures HasLogs(CFG, Blocks(n, time, logs), h) <==> h in logs
  {
    if h in logs {
      assert [logs[h]][..0] == [];
    }
  }

  /** The failed tick stores the header at height 2, and none at height 1. */
  lemma {:induction false} LateHeaders(db: Db)
    requires Passed(CFG, Late(), map[], -1, -1, 2, map[PROPOSAL := CreatedRow(2, 0)], db)
    ensures BlockKey(1, 2) in db && db[BlockKey(1, 2)] == HeaderRow(Late(), 2) && BlockKey(1, 1) !in db
  {
    var top, below := BlockKey(1, 2), BlockKey(1, 1);
    FullPassEffect(CFG, Late(), 0, 2, map[], db);
    assert StoresHeader(CFG, Late(), 2, 2) && IsStateKey(top) && Mirrors(Late(), top, db[top]);
    HasOneLog(8, 0, map[2 := CREATED], 1);
    assert IsStateKey(below);
  }

  /** The next tick keeps it, and stores its own chain's at height 1. */
  lemma {:induction false} MixedHeaders(db: Db, db': Db)
    requires BlockKey(1, 2) in db && db[BlockKey(1, 2)] == HeaderRow(Late(), 2) && BlockKey(1, 1) !in db
    requires Passed(CFG, Early(), db, -1, -1, 2, VoteCounted(2), db')
    ensures BlockKey(1, 2) in db' && db'[BlockKey(1, 2)] == HeaderRow(Late(), 2)
    ensures BlockKey(1, 1) in db' && db'[BlockKey(1, 1)] == HeaderRow(Early(), 1)
  {
    var top, below := BlockKey(1, 2), BlockKey(1, 1);
    FullPassEffect(CFG, Early(), 0, 2, db, db');
    HasOneLog(8, 100, map[0 := CREATED, 1 := CAST], 1);
    assert StoresHeader(CFG, Early(), 2, 1);
    assert IsStateKey(top) && IsStateKey(below) && Mirrors(Early(), below, db'[below]);
  }

  lemma {:induction false} MixedRoot(db: Db)
    requires BlockKey(1, 2) in db && db[BlockKey(1, 2)] == HeaderRow(Late(), 2)
    requires BlockKey(1, 1) in db && db[BlockKey(1, 1)] == HeaderRow(Early(), 1)
    ensures Mismatch(CFG, db, Early(), 2) && Root(CFG, db, Early(), 2) == 1
  {
    OtherTimes(8, 0, map[2 := CREATED], 8, 100, map[0 := CREATED, 1 := CAST], 2);
    assert !Matches(CFG, db, Early(), 2) && Matches(CFG, db, Early(), 1);
  }

  lemma {:induction false} VoteDangles(db: Db)
    requires Derived(db, 1) == VoteCounted(2)
    ensures Dangles(db, 1, 1)
  {
    var d := Derived(db, 1);
    assert PROPOSAL in d && VOTE in d;
    assert db[VOTE].block == 1 && db[PROPOSAL].block == 2;
  }

  /** A tick that fails only in its last statement, on a chain that is then replaced, and one completed tick on its
      replacement: the vote now lies below its proposal, the header at the cursor is not the chain's, and the rollback
      that needs is refused on that very chain. */
  lemma {:induction false} RefusedRollback() returns (stores: seq<Store>)
    ensures Ticks(CFG, [Late(), Early()], stores, [Stopped, Done(2)])
    ensures stores[0] == Store(map[], []) && RollbackBlocked(CFG, stores[2].db, Early(), Cursor(stores[2].runs, 1))
  {
    var s1 := LateTick();
    var s2 := EarlyTick(s1);
    TwoTicks(CFG, Late(), Early(), Store(map[], []), s1, s2, Stopped, Done(2));
    stores := [Store(map[], []), s1, s2];
    LateHeaders(s1.db);
    MixedHeaders(s1.db, s2.db);
    MixedRoot(s2.db);
    VoteDangles(s2.db);
  }

  // ---------------------------------------------------------------- a counter that overshoots

  /** A chain with a proposal and a vote; and one that keeps the proposal's block and drops the vote's. */
  function Voted(): Chain {
    Blocks(8, 0, map[0 := CREATED, 1 := CAST])
  }

  function Unvoted(): Chain {
    Blocks(8, 0, map[0 := CREATED])
  }

  lemma {:induction false} VotedReady()
    ensures Ready(CFG, Voted(), map[], -1, -1, 2, VoteCounted(0))
  {
    NothingStored();
    FirstLogs(8, 0, map[0 := CREATED, 1 := CAST]);
    HandleVote(0, map[]);
  }

  lemma {:induction false} VotedTick() returns (s: Store)
    ensures Tick(CFG, Voted(), Store(map[], []), Done(2), s) && Cursor(s.runs, 1) == 2
    ensures Synced(CFG, s.db, 2, Voted()) && Derived(s.db, 1) == VoteCounted(0) && BlockKey(1, 0) in s.db
    ensures Sound(CFG, s.db)
  {
    VotedReady();
    NothingStored();
    s := Go(CFG, Voted(), Store(map[], []), -1, -1, 2, VoteCounted(0));
    FirstPassSyncs(Voted(), 2, VoteCounted(0), s.db);
    HasOneLog(8, 0, map[0 := CREATED, 1 := CAST], 0);
    assert StoresHeader(CFG, Voted(), 2, 0);
  }

  /** The two chains part at height 1. */
  lemma {:induction false} PartingAt(db: Db)
    requires Synced(CFG, db, 2, Voted()) && BlockKey(1, 0) in db
    ensures Mismatch(CFG, db, Unvoted(), 2) && Root(CFG, db, Unvoted(), 2) == 0
  {
    var v, c := Voted(), Unvoted();
    assert v[..3][1] != c[..3][1] && v[..2][1] != c[..2][1] && v[..1] == c[..1];
    DetectionComplete(CFG, db, 2, v, c);
    BlockHashDecidesPrefix(v, c, 0);
    BlockHashDecidesPrefix(v, c, 1);
    assert Mirrors(v, BlockKey(1, 0), db[BlockKey(1, 0)]);
    assert BlockKey(1, 1) in db ==> Mirrors(v, BlockKey(1, 1), db[BlockKey(1, 1)]);
    assert Matches(CFG, db, c, 0) && !Matches(CFG, db, c, 1);
  }

  /** The rollback takes the vote and leaves the proposal with its counter. */
  lemma {:induction false} CutVote(db: Db)
    requires Derived(db, 1) == VoteCounted(0)
    ensures Derived(DeleteAbove(db, 1, 0), 1) == map[PROPOSAL := CreatedRow(0, 1)] && !Dangles(db, 1, 0)
  {
    var d, cut := Derived(db, 1), DeleteAbove(db, 1, 0);
    assert d[PROPOSAL].block == 0 && d[VOTE].block == 1;
    forall k | k in db && k.cid == 1 && IsDerivedKey(k)
      ensures k in d && db[k] == d[k]
    {
    }
    assert PROPOSAL in db && PROPOSAL in cut;
    assert Derived(cut, 1) == map[PROPOSAL := CreatedRow(0, 1)];
  }

  lemma {:induction false} UnvotedCut(db: Db)
    requires Synced(CFG, db, 2, Voted()) && Derived(db, 1) == VoteCounted(0) && BlockKey(1, 0) in db
    ensures !RollbackBlocked(CFG, db, Unvoted(), 2) && Resume(CFG, db, Unvoted(), 2) == 0
    ensures Base(CFG, db, Unvoted(), 2) == DeleteAbove(db, 1, 0)
    ensures Derived(DeleteAbove(db, 1, 0), 1) == map[PROPOSAL := CreatedRow(0, 1)]
  {
    PartingAt(db);
    CutVote(db);
  }

  lemma {:induction false} VoteTyped(height: nat)
    ensures WellTyped(VoteCounted(height))
  {
  }

  lemma {:induction false} UnvotedReady(db: Db, base: Db, c: Chain)
    requires Sound(CFG, db) && WellTyped(Derived(db, 1)) && !RollbackBlocked(CFG, db, c, 2)
    requires Resume(CFG, db, c, 2) == 0 && Base(CFG, db, c, 2) == base && c == Unvoted()
    requires Derived(base, 1) == map[PROPOSAL := CreatedRow(0, 1)]
    ensures Ready(CFG, c, db, 2, 0, 2, map[PROPOSAL := CreatedRow(0, 1)])
  {
    NoLogs(8, 0, map[0 := CREATED], 1, 3);
    ReadyWith(CFG, c, db, 2, 0, 2, base, [], map[PROPOSAL := CreatedRow(0, 1)]);
  }

  lemma {:induction false} UnvotedTick(s: Store) returns (s': Store)
    requires Synced(CFG, s.db, 2, Voted()) && Derived(s.db, 1) == VoteCounted(0) && BlockKey(1, 0) in s.db
    requires Cursor(s.runs, 1) == 2 && Sound(CFG, s.db)
    ensures Tick(CFG, Unvoted(), s, Done(2), s') && Derived(s'.db, 1) == map[PROPOSAL := CreatedRow(0, 1)]
  {
    UnvotedCut(s.db);
    VoteTyped(0);
    UnvotedReady(s.db, DeleteAbove(s.db, 1, 0), Unvoted());
    s' := Go(CFG, Unvoted(), s, 2, 0, 2, map[PROPOSAL := CreatedRow(0, 1)]);
  }

  lemma {:induction false} CountedWithoutVote(db: Db)
    requires Derived(db, 1) == map[PROPOSAL := CreatedRow(0, 1)]
    ensures PROPOSAL in db && T.Counter(db[PROPOSAL], true) == 1 && T.Votes(db, 1, 5, true) == {}
  {
    var d := Derived(db, 1);
    assert PROPOSAL in d && db[PROPOSAL] == d[PROPOSAL];
    assert forall k :: k in db && k.cid == 1 && k.VoteKey? ==> k in d;
  }

  /** Two completed ticks leave a proposal whose counter says one vote while no vote is stored. */
  lemma {:induction false} CounterOvershoots() returns (stores: seq<Store>)
    ensures Ticks(CFG, [Voted(), Unvoted()], stores, [Done(2), Done(2)]) && stores[0] == Store(map[], [])
    ensures PROPOSAL in stores[2].db && T.Counter(stores[2].db[PROPOSAL], true) == 1
    ensures T.Votes(stores[2].db, 1, 5, true) == {}
  {
    var s1 := VotedTick();
    var s2 := UnvotedTick(s1);
    TwoTicks(CFG, Voted(), Unvoted(), Store(map[], []), s1, s2, Done(2), Done(2));
    stores := [Store(map[], []), s1, s2];
    CountedWithoutVote(s2.db);
  }

  // ---------------------------------------------------------------- three ways to stall

  /** A log that does not decode at height 1: already the first tick fails, though every call is answered. */
  lemma {:induction false} GarbledStalls()
    ensures var c := Blocks(8, 0, map[1 := GARBLED]); Undecoded(CFG, c, 1) && TickFails(CFG, c, map[], -1)
  {
    var c := Blocks(8, 0, map[1 := GARBLED]);
    assert [GARBLED][..0] == [];
    assert BlockLogs(CFG, 1, c[1].logs) == [Located(1, GARBLED)];
    assert Located(1, GARBLED) in BlockLogs(CFG, 1, c[1].logs);
    UndecodedTickFails(CFG, c, map[], -1, 1);
  }

  /** A vote at height 1 for a proposal nobody created. */
  lemma {:induction false} UnbackedVoteStalls()
    ensures var c := Blocks(8, 0, map[1 := CAST]); Unbacked(CFG, c, 1, 5, 9) && TickFails(CFG, c, map[], -1)
  {
    var c, ls := Blocks(8, 0, map[1 := CAST]), Logs(CFG, Blocks(8, 0, map[1 := CAST]), 0, 3);
    BlocksLogs(8, 0, map[1 := CAST], STATES, 0, 0);
    BlocksLogs(8, 0, map[1 := CAST], STATES, 0, 1);
    FirstLogs(8, 0, map[1 := CAST]);
    assert Logs(CFG, c, 0, 2) == [Located(1, CAST)] && [Located(1, CAST)][..0] == [];
    assert UnbackedAt(CFG, c, 1, 5, 9, 0);
    assert ls == [Located(1, CAST)] && !CanHandle(CFG, map[], ls, 0);
    NothingStored();
    TickFeasibleIff(CFG, c, map[], -1);
  }

  /** A chain on which vault 7 is registered and has a state; and another one without it. */
  function Registered(): Chain {
    Blocks(8, 0, map[1 := REGISTERED], STATES[7 := VaultState(0, 0)])
  }

  function Unregistered(): Chain {
    Blocks(8, 100, map[])
  }

  function OneVault(): Db {
    map[VaultKey(1, 7) := Row(1, VaultCols("vault", 9, 0, None))]
  }

  lemma {:induction false} RegisteredReady()
    ensures Ready(CFG, Registered(), map[], -1, -1, 2, OneVault())
  {
    var ls := [Located(1, REGISTERED)];
    NothingStored();
    FirstLogs(8, 0, map[1 := REGISTERED], STATES[7 := VaultState(0, 0)]);
    assert ls[..0] == [];
    assert ApplyLogs(CFG, map[], ls) == Ok(OneVault());
  }

  lemma {:induction false} RegisteredTick() returns (s: Store)
    ensures Tick(CFG, Registered(), Store(map[], []), Done(2), s) && Cursor(s.runs, 1) == 2
    ensures Synced(CFG, s.db, 2, Registered()) && Derived(s.db, 1) == OneVault()
  {
    RegisteredReady();
    NothingStored();
    s := Go(CFG, Registered(), Store(map[], []), -1, -1, 2, OneVault());
    FirstPassSyncs(Registered(), 2, OneVault(), s.db);
  }

  /** The whole index is rolled back, except for the vault. */
  lemma {:induction false} UnregisteredCut(db: Db)
    requires Synced(CFG, db, 2, Registered()) && Derived(db, 1) == OneVault()
    ensures Mismatch(CFG, db, Unregistered(), 2) && Root(CFG, db, Unregistered(), 2) == -1
    ensures !RollbackBlocked(CFG, db, Unregistered(), 2) && Stalled(CFG, DeleteAbove(db, 1, -1), 7)
  {
    var v, c, base := Registered(), Unregistered(), DeleteAbove(db, 1, -1);
    var root, k := Root(CFG, db, c, 2), VaultKey(1, 7);
    assert c[..3][0] != v[..3][0];
    DetectionComplete(CFG, db, 2, v, c);
    if root >= 0 {
      assert Mirrors(v, BlockKey(1, root), db[BlockKey(1, root)]);
      OtherTimes(8, 0, map[1 := REGISTERED], 8, 100, map[], root, STATES[7 := VaultState(0, 0)]);
    }
    assert forall k :: k in db && k.cid == 1 && k.VoteKey? ==> k in Derived(db, 1);
    assert k in Derived(db, 1) && db[k] == OneVault()[k] && k in base;
  }

  lemma {:induction false} NoState(c: Chain)
    requires c == Unregistered()
    ensures Stateless(CFG, c, 7)
  {
    NoLogs(8, 100, map[], 0, 8);
  }

  /** A tick may roll back and then fail at once. */
  lemma {:induction false} CanStopAfterRollback(cfg: Config, c: Chain, s: Store) returns (s': Store)
    requires |c| > 0 && !RollbackBlocked(cfg, s.db, c, Cursor(s.runs, cfg.chainId))
    ensures Tick(cfg, c, s, Stopped, s')
    ensures s' == Store(Base(cfg, s.db, c, Cursor(s.runs, cfg.chainId)), s.runs)
  {
    var last := Cursor(s.runs, cfg.chainId);
    var base, resume := Base(cfg, s.db, c, last), Resume(cfg, s.db, c, last);
    BreaksAtOnce(cfg, c, base, resume);
    BreaksStops(cfg, c, base, resume, base);
    s' := Store(base, s.runs);
  }

  /** A registration orphaned by a reorg: the rollback takes the vault's snapshots and keeps its row, and the new chain
      has no such contract, so no later tick completes as long as it stays that way. */
  lemma {:induction false} OrphanedVaultStalls() returns (stores: seq<Store>)
    ensures Ticks(CFG, [Registered(), Unregistered()], stores, [Done(2), Stopped]) && stores[0] == Store(map[], [])
    ensures Stalled(CFG, stores[2].db, 7) && Stateless(CFG, Unregistered(), 7)
  {
    var s1 := RegisteredTick();
    UnregisteredCut(s1.db);
    var s2 := CanStopAfterRollback(CFG, Unregistered(), s1);
    TwoTicks(CFG, Registered(), Unregistered(), Store(map[], []), s1, s2, Done(2), Stopped);
    stores := [Store(map[], []), s1, s2];
    NoState(Unregistered());
  }
}
