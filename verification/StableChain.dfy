/** Indexing a chain that only grows, through any number of crashes and any cut into ticks: the event tables are the
    fold of its logs; without crashes, or with the logs in order, every column is the plain replay, statuses,
    executions and tallies included. */
module StableChain {
  import opened Wrappers
  import opened Ledger
  import opened Tables
  import opened EventFold
  import opened TickPlan
  import opened PlanFacts
  import opened TickContract
  import opened Sync
  import opened CrashReplay

  /** Every status change follows its registration, every execution its creation. */
  ghost predicate InOrder(cfg: Config, ls: seq<Located>) {
    forall k :: !PhaseOf(cfg, ls, k).early
  }

  lemma {:induction false} PhaseStarts(cfg: Config, a: seq<Located>, b: seq<Located>, k: Key)
    requires PhaseOf(cfg, a, k) == Missing(false)
    ensures PhaseOf(cfg, a + b, k) == PhaseOf(cfg, b, k)
    decreases |b|
  {
    if b == [] {
      assert a + b == a;
    } else {
      PhaseStarts(cfg, a, b[..|b| - 1], k);
      assert (a + b)[..|a + b| - 1] == a + b[..|b| - 1];
    }
  }

  lemma {:induction false} EarlyStays(cfg: Config, a: seq<Located>, b: seq<Located>, k: Key)
    requires PhaseOf(cfg, a, k).early
    ensures PhaseOf(cfg, a + b, k).early
    decreases |b|
  {
    if b == [] {
      assert a + b == a;
    } else {
      EarlyStays(cfg, a, b[..|b| - 1], k);
      assert (a + b)[..|a + b| - 1] == a + b[..|b| - 1];
    }
  }

  lemma {:induction false} InOrderPrefix(cfg: Config, a: seq<Located>, b: seq<Located>)
    requires InOrder(cfg, a + b)
    ensures InOrder(cfg, a)
  {
    forall k
      ensures !PhaseOf(cfg, a, k).early
    {
      if PhaseOf(cfg, a, k).early {
        EarlyStays(cfg, a, b, k);
      }
    }
  }

  /** Every row some log of `ls` created is present. */
  ghost predicate Covers(cfg: Config, d: Db, ls: seq<Located>) {
    forall k :: PhaseOf(cfg, ls, k).Made? ==> k in d
  }

  /** Over tables that hold everything `below` created, a later stretch of an in-order log creates no row late. */
  lemma {:induction false} OrderedStretch(cfg: Config, d: Db, below: seq<Located>, stretch: seq<Located>)
    requires Covers(cfg, d, below) && InOrder(cfg, below + stretch)
    ensures NoLateCreation(cfg, d, stretch)
  {
    InOrderPrefix(cfg, below, stretch);
    forall k | k !in d
      ensures !PhaseOf(cfg, stretch, k).early
    {
      assert PhaseOf(cfg, below, k) == Missing(false);
      PhaseStarts(cfg, below, stretch, k);
    }
  }

  lemma {:induction false} OrderedPrefix(cfg: Config, d: Db, below: seq<Located>, stretch: seq<Located>,
                                         rest: seq<Located>)
    requires Covers(cfg, d, below) && InOrder(cfg, below + (stretch + rest))
    ensures NoLateCreation(cfg, d, stretch)
  {
    assert below + (stretch + rest) == (below + stretch) + rest;
    InOrderPrefix(cfg, below + stretch, rest);
    OrderedStretch(cfg, d, below, stretch);
  }

  lemma {:induction false} ApplyLogsKeep(cfg: Config, db: Db, ls: seq<Located>, k: Key)
    requires ApplyLogs(cfg, db, ls).Ok? && k in db
    ensures k in ApplyLogs(cfg, db, ls).value
  {
    if ls != [] {
      ApplyLogsKeep(cfg, db, ls[..|ls| - 1], k);
      ApplyLogKeeps(cfg, ApplyLogs(cfg, db, ls[..|ls| - 1]).value, ls[|ls| - 1], k);
    }
  }

  // ---------------------------------------------------------------- derived tables

  /** Finishing the logs up to `hi` from derived tables `d` at cursor `cur` gives what replaying everything gives. */
  ghost predicate Replayable(cfg: Config, d: Db, cur: int, hi: int, c: Chain) {
    && -1 <= cur <= hi < |c|
    && WellTyped(d)
    && Covers(cfg, d, Logs(cfg, c, 0, cur + 1))
    && ApplyLogs(cfg, d, Logs(cfg, c, cur + 1, hi + 1)) == ApplyLogs(cfg, map[], Logs(cfg, c, 0, hi + 1))
  }

  lemma {:induction false} ReplaysFurther(cfg: Config, d: Db, a: seq<Located>, z: seq<Located>, more: seq<Located>)
    requires ApplyLogs(cfg, d, a) == ApplyLogs(cfg, map[], z)
    ensures ApplyLogs(cfg, d, a + more) == ApplyLogs(cfg, map[], z + more)
  {
    ApplyLogsConcat(cfg, d, a, more);
    ApplyLogsConcat(cfg, map[], z, more);
  }

  lemma {:induction false} ReplaysFurtherOn(cfg: Config, d: Db, cur: int, hi: int, t: int, c: Chain)
    requires -1 <= cur <= hi <= t < |c|
    requires ApplyLogs(cfg, d, Logs(cfg, c, cur + 1, hi + 1)) == ApplyLogs(cfg, map[], Logs(cfg, c, 0, hi + 1))
    ensures ApplyLogs(cfg, d, Logs(cfg, c, cur + 1, t + 1)) == ApplyLogs(cfg, map[], Logs(cfg, c, 0, t + 1))
  {
    var a, z, more := Logs(cfg, c, cur + 1, hi + 1), Logs(cfg, c, 0, hi + 1), Logs(cfg, c, hi + 1, t + 1);
    ReplaysFurther(cfg, d, a, z, more);
    assert Logs(cfg, c, cur + 1, t + 1) == a + more by {
      LogsSplit(cfg, c, cur + 1, hi + 1, t + 1);
    }
    assert Logs(cfg, c, 0, t + 1) == z + more by {
      LogsSplit(cfg, c, 0, hi + 1, t + 1);
    }
  }

  lemma {:induction false} ReplayableFurther(cfg: Config, d: Db, cur: int, hi: int, t: int, c: Chain)
    requires Replayable(cfg, d, cur, hi, c) && hi <= t < |c|
    ensures Replayable(cfg, d, cur, t, c)
  {
    ReplaysFurtherOn(cfg, d, cur, hi, t, c);
  }

  lemma {:induction false} ReplayableGrown(cfg: Config, d: Db, cur: int, hi: int, c: Chain, c': Chain)
    requires Replayable(cfg, d, cur, hi, c) && c <= c'
    ensures Replayable(cfg, d, cur, hi, c')
  {
    assert c'[..cur + 1] == c[..cur + 1] && c'[..hi + 1] == c[..hi + 1];
    LogsPrefix(cfg, c, c', 0, cur + 1);
    LogsPrefix(cfg, c, c', cur + 1, hi + 1);
    LogsPrefix(cfg, c, c', 0, hi + 1);
  }

  /** A crash after any prefix of the range, seen from the logs alone. */
  lemma {:induction false} CrashReplays(cfg: Config, d: Db, below: seq<Located>, logs: seq<Located>, rest: seq<Located>,
                                        d': Db)
    requires WellTyped(d) && Covers(cfg, d, below) && InOrder(cfg, below + (logs + rest))
    requires ApplyLogs(cfg, d, logs) == Ok(d')
    ensures WellTyped(d') && Covers(cfg, d', below)
    ensures ApplyLogs(cfg, d', logs + rest) == ApplyLogs(cfg, d, logs + rest)
  {
    OrderedPrefix(cfg, d, below, logs, rest);
    CrashThenReplay(cfg, d, logs, rest);
    ApplyLogsTyped(cfg, d, logs);
    forall k | PhaseOf(cfg, below, k).Made?
      ensures k in d'
    {
      ApplyLogsKeep(cfg, d, logs, k);
    }
  }

  /** A crash after any prefix of the range keeps the tables replayable. */
  lemma {:induction false} CrashKeepsReplayable(cfg: Config, d: Db, cur: int, t: int, c: Chain, logs: seq<Located>,
                                                d': Db)
    requires Replayable(cfg, d, cur, t, c) && InOrder(cfg, Logs(cfg, c, 0, t + 1))
    requires logs <= Logs(cfg, c, cur + 1, t + 1) && ApplyLogs(cfg, d, logs) == Ok(d')
    ensures Replayable(cfg, d', cur, t, c)
  {
    var below, all := Logs(cfg, c, 0, cur + 1), Logs(cfg, c, cur + 1, t + 1);
    var rest := all[|logs|..];
    assert all == logs + rest;
    LogsSplit(cfg, c, 0, cur + 1, t + 1);
    CrashReplays(cfg, d, below, logs, rest, d');
  }

  /** A completed pass leaves exactly the replay of everything up to its end. */
  lemma {:induction false} PassReplays(cfg: Config, d: Db, cur: int, t: int, c: Chain, d': Db)
    requires Replayable(cfg, d, cur, t, c) && ApplyLogs(cfg, d, Logs(cfg, c, cur + 1, t + 1)) == Ok(d')
    ensures ApplyLogs(cfg, map[], Logs(cfg, c, 0, t + 1)) == Ok(d')
    ensures Replayable(cfg, d', t, t, c)
  {
    var all := Logs(cfg, c, 0, t + 1);
    assert Logs(cfg, c, t + 1, t + 1) == [];
    ApplyLogsTyped(cfg, map[], all);
    forall k | PhaseOf(cfg, all, k).Made?
      ensures k in d'
    {
      MadeIsPresent(cfg, map[], all, k);
    }
  }

  // ---------------------------------------------------------------- event and state rows

  /** Every stored header and snapshot is the chain's. */
  ghost predicate AllMirror(cfg: Config, db: Db, c: Chain) {
    forall k :: k in db && k.cid == cfg.chainId && IsStateKey(k) ==> Mirrors(c, k, db[k])
  }

  lemma {:induction false} MirrorsGrown(c: Chain, c': Chain, k: Key, r: Row)
    requires IsStateKey(k) && Mirrors(c, k, r) && c <= c'
    ensures Mirrors(c', k, r)
  {
    assert c'[..k.height + 1] == c[..k.height + 1] && c'[..k.height] == c[..k.height];
  }

  lemma {:induction false} EventsWithinFurther(cfg: Config, e: Db, hi: int, t: int, c: Chain)
    requires EventsWithin(cfg, e, hi, c) && hi <= t < |c|
    ensures EventsWithin(cfg, e, t, c)
  {
    forall k | k in e
      ensures First(cfg, Logs(cfg, c, 0, t + 1), k) == Some(e[k])
    {
      FirstSplit(cfg, c, hi, t, k);
    }
  }

  lemma {:induction false} EventsWithinGrown(cfg: Config, e: Db, hi: int, c: Chain, c': Chain)
    requires EventsWithin(cfg, e, hi, c) && c <= c'
    ensures EventsWithin(cfg, e, hi, c')
  {
    assert c'[..hi + 1] == c[..hi + 1];
    LogsPrefix(cfg, c, c', 0, hi + 1);
  }

  /** Such rows cannot disturb a pass. */
  lemma {:induction false} WithinAgrees(cfg: Config, db: Db, cur: int, t: nat, c: Chain)
    requires t < |c| && EventsWithin(cfg, Events(db, cfg.chainId), t, c) && AllMirror(cfg, db, c)
    ensures LeftoversAgree(cfg, db, cur, t, c)
  {
    forall k | k in Events(db, cfg.chainId)
      ensures k in Canonical(cfg, c, t) && Canonical(cfg, c, t)[k] == Events(db, cfg.chainId)[k]
    {
      CanonicalLookup(cfg, c, t, k);
    }
  }

  // ---------------------------------------------------------------- ticks

  /** The tables between ticks on a growing chain; rows up to `hi` may have been left by interrupted ticks. */
  ghost predicate Steady(cfg: Config, db: Db, cur: int, hi: int, c: Chain) {
    && Synced(cfg, db, cur, c)
    && AllMirror(cfg, db, c)
    && EventsWithin(cfg, Events(db, cfg.chainId), hi, c)
  }

  lemma {:induction false} SteadyGrown(cfg: Config, db: Db, cur: int, hi: int, c: Chain, c': Chain)
    requires Steady(cfg, db, cur, hi, c) && c <= c'
    ensures Steady(cfg, db, cur, hi, c')
  {
    assert c'[..cur + 1] == c[..cur + 1];
    SyncedPrefix(cfg, db, cur, c, c');
    EventsWithinGrown(cfg, Events(db, cfg.chainId), hi, c, c');
    forall k | k in db && k.cid == cfg.chainId && IsStateKey(k)
      ensures Mirrors(c', k, db[k])
    {
      MirrorsGrown(c, c', k, db[k]);
    }
  }

  lemma {:induction false} EffectMirrors(cfg: Config, c: Chain, from: nat, t: nat, db: Db, db': Db)
    requires StateEffect(cfg, c, from, t, db, db') && AllMirror(cfg, db, c)
    ensures AllMirror(cfg, db', c)
  {
  }

  lemma {:induction false} CrashKeepsSteady(cfg: Config, db: Db, cur: int, t: nat, c: Chain, logs: seq<Located>,
                                            db': Db)
    requires Steady(cfg, db, cur, t, c) && cur < t
    requires logs <= Logs(cfg, c, cur + 1, t + 1) && Effect(cfg, c, cur + 1, t, db, logs, db')
    ensures Steady(cfg, db', cur, t, c)
  {
    PartPassKeepsSync(cfg, db, cur, c, c, t, logs, db');
    EffectMirrors(cfg, c, cur + 1, t, db, db');
    FoldWithin(cfg, Events(db, cfg.chainId), cur, t, c, logs);
  }

  lemma {:induction false} PassKeepsSteady(cfg: Config, db: Db, cur: int, t: nat, c: Chain, db': Db)
    requires Steady(cfg, db, cur, t, c) && cur < t && FullPass(cfg, c, cur + 1, t, db, db')
    ensures Steady(cfg, db', t, t, c)
  {
    FullPassEffect(cfg, c, cur + 1, t, db, db');
    WithinAgrees(cfg, db, cur, t, c);
    PassIff(cfg, db, cur, t, c, db');
    EffectMirrors(cfg, c, cur + 1, t, db, db');
    FoldWithin(cfg, Events(db, cfg.chainId), cur, t, c, Logs(cfg, c, cur + 1, t + 1));
  }

  /** The tick of a growing chain would reach at least `hi`. */
  predicate Reaches(cfg: Config, cur: int, hi: int, c: Chain)
    requires -1 <= cur
  {
    hi <= cur || (|c| > 0 && var t := Target(cfg, cur + 1, |c| - 1); t.Some? && hi <= t.value)
  }

  /** The end of a tick's range only moves up as the chain grows. */
  lemma {:induction false} ReachesGrown(cfg: Config, cur: int, hi: int, c: Chain, c': Chain)
    requires -1 <= cur && Reaches(cfg, cur, hi, c) && c <= c'
    ensures Reaches(cfg, cur, hi, c')
  {
  }

  lemma {:induction false} SteadyNoMismatch(cfg: Config, db: Db, cur: int, c: Chain)
    requires AllMirror(cfg, db, c)
    ensures !Mismatch(cfg, db, c, cur)
  {
    if cur >= 0 && BlockKey(cfg.chainId, cur) in db {
      assert Mirrors(c, BlockKey(cfg.chainId, cur), db[BlockKey(cfg.chainId, cur)]);
    }
  }

  /** Before any tick: whatever was left above the cursor belongs to the chain. */
  lemma {:induction false} SteadySane(cfg: Config, c: Chain, s: Store, cur: int, hi: int)
    requires |c| > 0 && cur == Cursor(s.runs, cfg.chainId)
    requires Steady(cfg, s.db, cur, hi, c) && Reaches(cfg, cur, hi, c)
    ensures Sane(cfg, c, s)
  {
    SteadyNoMismatch(cfg, s.db, cur, c);
    var target := Target(cfg, cur + 1, |c| - 1);
    if target.Some? {
      EventsWithinFurther(cfg, Events(s.db, cfg.chainId), hi, target.value, c);
      WithinAgrees(cfg, s.db, cur, target.value, c);
    }
  }

  lemma {:induction false} CompletedPass(cfg: Config, c: Chain, db: Db, cur: int, hi: int, db': Db, recorded: int)
    requires |c| > 0 && Steady(cfg, db, cur, hi, c) && Reaches(cfg, cur, hi, c)
    requires Advances(cfg, c, db, cur, db', recorded)
    ensures cur <= recorded < |c| && Steady(cfg, db', recorded, recorded, c)
  {
    var target := Target(cfg, cur + 1, |c| - 1);
    if target.Some? {
      EventsWithinFurther(cfg, Events(db, cfg.chainId), hi, recorded, c);
      PassKeepsSteady(cfg, db, cur, recorded, c, db');
    } else {
      EventsWithinFurther(cfg, Events(db, cfg.chainId), hi, cur, c);
    }
  }

  lemma {:induction false} StoppedPass(cfg: Config, c: Chain, db: Db, cur: int, hi: int, db': Db)
    requires |c| > 0 && Steady(cfg, db, cur, hi, c) && Reaches(cfg, cur, hi, c)
    requires Stops(cfg, c, db, cur, db')
    ensures exists hi' :: Steady(cfg, db', cur, hi', c) && Reaches(cfg, cur, hi', c)
  {
    var target := Target(cfg, cur + 1, |c| - 1);
    if target.Some? {
      var t := target.value;
      EventsWithinFurther(cfg, Events(db, cfg.chainId), hi, t, c);
      var logs := PartPassEffect(cfg, c, cur + 1, t, db, db');
      CrashKeepsSteady(cfg, db, cur, t, c, logs, db');
      assert Steady(cfg, db', cur, t, c) && Reaches(cfg, cur, t, c);
    } else {
      assert Steady(cfg, db', cur, hi, c) && Reaches(cfg, cur, hi, c);
    }
  }

  /** The store between two ticks of a growing chain. */
  ghost predicate Stable(cfg: Config, s: Store, c: Chain) {
    forall cur :: AtCursor(cfg, s, cur) ==> exists hi :: Steady(cfg, s.db, cur, hi, c) && Reaches(cfg, cur, hi, c)
  }

  predicate AtCursor(cfg: Config, s: Store, cur: int) {
    cur == Cursor(s.runs, cfg.chainId)
  }

  /** The event tables are the fold of the logs up to the cursor, with nothing above. */
  ghost predicate Indexed(cfg: Config, s: Store, c: Chain) {
    var cur := Cursor(s.runs, cfg.chainId);
    cur < |c| && Events(s.db, cfg.chainId) == Canonical(cfg, c, cur)
  }

  /** Rows that all come from logs up to `n` are the canonical ones. */
  lemma {:induction false} NothingFurther(cfg: Config, db: Db, n: int, c: Chain)
    requires Steady(cfg, db, n, n, c)
    ensures Events(db, cfg.chainId) == Canonical(cfg, c, n)
  {
    var e := Events(db, cfg.chainId);
    forall k | k in e
      ensures e[k].block <= n
    {
      RangeFirst(cfg, c, 0, n + 1, k);
    }
    assert UpTo(e, n) == e;
  }

  /** On a growing chain every tick is healthy, whatever its logs and whatever failed before. */
  lemma {:induction false} StableTick(cfg: Config, c: Chain, s: Store, o: Outcome, s': Store, c0: Chain)
    requires Stable(cfg, s, c0) && c0 <= c && Tick(cfg, c, s, o, s')
    ensures Stable(cfg, s', c) && Healthy(cfg, c, s, o, s') && !Mismatch(cfg, s.db, c, Cursor(s.runs, cfg.chainId))
    ensures o.Done? ==> Indexed(cfg, s', c)
  {
    var cur := Cursor(s.runs, cfg.chainId);
    assert AtCursor(cfg, s, cur);
    var hi :| Steady(cfg, s.db, cur, hi, c0) && Reaches(cfg, cur, hi, c0);
    SteadyGrown(cfg, s.db, cur, hi, c0, c);
    ReachesGrown(cfg, cur, hi, c0, c);
    SteadySane(cfg, c, s, cur, hi);
    SteadyNoMismatch(cfg, s.db, cur, c);
    TickCursor(cfg, c, s, o, s');
    if o.Done? {
      CompletedPass(cfg, c, s.db, cur, hi, s'.db, o.recorded);
      NothingFurther(cfg, s'.db, o.recorded, c);
      assert Reaches(cfg, o.recorded, o.recorded, c);
    } else if s'.db != s.db {
      StoppedPass(cfg, c, s.db, cur, hi, s'.db);
    }
  }

  lemma {:induction false} EmptyStable(cfg: Config)
    ensures Stable(cfg, Store(map[], []), []) && Indexed(cfg, Store(map[], []), [])
  {
    EmptySynced(cfg);
    assert Logs(cfg, [], 0, 0) == [];
    assert Events(map[], cfg.chainId) == map[];
    var s := Store(map[], []);
    assert Cursor(s.runs, cfg.chainId) == -1;
    assert Steady(cfg, s.db, -1, -1, []) && Reaches(cfg, -1, -1, []);
  }

  /** Each chain extends the ones before. */
  predicate Growing(chains: seq<Chain>) {
    forall i, j :: 0 <= i <= j < |chains| ==> chains[i] <= chains[j]
  }

  function LastChain(chains: seq<Chain>, n: nat): Chain
    requires n <= |chains|
  {
    if n == 0 then [] else chains[n - 1]
  }

  lemma {:induction false} StableAlways(cfg: Config, stores: seq<Store>, chains: seq<Chain>,
                                        outcomes: seq<Outcome>, views: seq<Chain>, n: nat)
    requires History(cfg, stores, chains, outcomes, views) && n <= |chains| && Growing(chains)
    ensures Stable(cfg, stores[n], LastChain(chains, n))
  {
    if n == 0 {
      EmptyStable(cfg);
    } else {
      StableAlways(cfg, stores, chains, outcomes, views, n - 1);
      assert LastChain(chains, n - 1) <= chains[n - 1];
      assert TickAt(cfg, stores, chains, outcomes, views, n - 1);
      StableTick(cfg, chains[n - 1], stores[n - 1], outcomes[n - 1], stores[n], LastChain(chains, n - 1));
    }
  }

  lemma {:induction false} StableSynced(cfg: Config, s: Store, c: Chain)
    requires Stable(cfg, s, c)
    ensures Synced(cfg, s.db, Cursor(s.runs, cfg.chainId), c)
  {
    var cur := Cursor(s.runs, cfg.chainId);
    assert AtCursor(cfg, s, cur);
    var hi :| Steady(cfg, s.db, cur, hi, c) && Reaches(cfg, cur, hi, c);
  }

  /** On a growing chain, whatever the order of its logs, every tick of every history is healthy, whatever crashed and
      however the range was cut into ticks; and every completed tick leaves the event tables equal to the fold of the
      logs up to the cursor, with nothing above. */
  lemma {:induction false} StableHistory(cfg: Config, stores: seq<Store>, chains: seq<Chain>,
                                         outcomes: seq<Outcome>, views: seq<Chain>, n: nat)
    requires History(cfg, stores, chains, outcomes, views) && n < |chains| && Growing(chains)
    ensures Healthy(cfg, chains[n], stores[n], outcomes[n], stores[n + 1])
    ensures outcomes[n].Done? ==> Indexed(cfg, stores[n + 1], chains[n])
  {
    StableAlways(cfg, stores, chains, outcomes, views, n);
    assert LastChain(chains, n) <= chains[n];
    assert TickAt(cfg, stores, chains, outcomes, views, n);
    StableTick(cfg, chains[n], stores[n], outcomes[n], stores[n + 1], LastChain(chains, n));
  }

  // ---------------------------------------------------------------- every column

  /** The event, proposal and vault tables are, in every column, the replay of the logs up to the cursor. */
  ghost predicate Replayed(cfg: Config, s: Store, c: Chain) {
    var cur := Cursor(s.runs, cfg.chainId);
    cur < |c| && ApplyLogs(cfg, map[], Logs(cfg, c, 0, cur + 1)) == Ok(Derived(s.db, cfg.chainId))
  }

  lemma {:induction false} ReplayedGrown(cfg: Config, s: Store, c: Chain, c': Chain)
    requires Replayed(cfg, s, c) && c <= c'
    ensures Replayed(cfg, s, c')
  {
    var n := Cursor(s.runs, cfg.chainId) + 1;
    assert c'[..n] == c[..n];
    LogsPrefix(cfg, c, c', 0, n);
  }

  lemma {:induction false} ReplayOn(cfg: Config, below: seq<Located>, logs: seq<Located>, d: Db, d': Db)
    requires ApplyLogs(cfg, map[], below) == Ok(d) && ApplyLogs(cfg, d, logs) == Ok(d')
    ensures ApplyLogs(cfg, map[], below + logs) == Ok(d')
  {
    ApplyLogsConcat(cfg, map[], below, logs);
  }

  lemma {:induction false} FullPassDerived(cfg: Config, c: Chain, from: nat, t: nat, db: Db, db': Db)
    requires FullPass(cfg, c, from, t, db, db')
    ensures ApplyLogs(cfg, Derived(db, cfg.chainId), Logs(cfg, c, from, t + 1)) == Ok(Derived(db', cfg.chainId))
  {
    FullPassEffect(cfg, c, from, t, db, db');
  }

  lemma {:induction false} PassOnReplay(cfg: Config, c: Chain, db: Db, cur: int, t: nat, db': Db)
    requires -1 <= cur < t && FullPass(cfg, c, cur + 1, t, db, db')
    requires ApplyLogs(cfg, map[], Logs(cfg, c, 0, cur + 1)) == Ok(Derived(db, cfg.chainId))
    ensures ApplyLogs(cfg, map[], Logs(cfg, c, 0, t + 1)) == Ok(Derived(db', cfg.chainId))
  {
    FullPassDerived(cfg, c, cur + 1, t, db, db');
    LogsSplit(cfg, c, 0, cur + 1, t + 1);
    ReplayOn(cfg, Logs(cfg, c, 0, cur + 1), Logs(cfg, c, cur + 1, t + 1), Derived(db, cfg.chainId),
             Derived(db', cfg.chainId));
  }

  /** A completed pass handles the range's logs on top of those below, in any order. */
  lemma {:induction false} PassExtendsReplay(cfg: Config, c: Chain, db: Db, cur: int, db': Db, recorded: int)
    requires |c| > 0 && -1 <= cur < |c| && Advances(cfg, c, db, cur, db', recorded)
    requires ApplyLogs(cfg, map[], Logs(cfg, c, 0, cur + 1)) == Ok(Derived(db, cfg.chainId))
    ensures cur <= recorded < |c|
    ensures ApplyLogs(cfg, map[], Logs(cfg, c, 0, recorded + 1)) == Ok(Derived(db', cfg.chainId))
  {
    var target := Target(cfg, cur + 1, |c| - 1);
    if target.Some? {
      PassOnReplay(cfg, c, db, cur, recorded, db');
    }
  }

  /** Completed ticks, one after another, replay everything, in whatever order the logs come. */
  lemma {:induction false} FaultlessTick(cfg: Config, c: Chain, s: Store, o: Outcome, s': Store, c0: Chain)
    requires Replayed(cfg, s, c0) && c0 <= c && Tick(cfg, c, s, o, s') && o.Done?
    requires !Mismatch(cfg, s.db, c, Cursor(s.runs, cfg.chainId))
    ensures Replayed(cfg, s', c)
  {
    ReplayedGrown(cfg, s, c0, c);
    TickCursor(cfg, c, s, o, s');
    PassExtendsReplay(cfg, c, s.db, Cursor(s.runs, cfg.chainId), s'.db, o.recorded);
  }

  /** No tick before `n` was interrupted. */
  predicate Faultless(outcomes: seq<Outcome>, n: nat) {
    forall i :: 0 <= i < n && i < |outcomes| ==> outcomes[i].Done?
  }

  lemma {:induction false} EmptyReplayed(cfg: Config)
    ensures Replayed(cfg, Store(map[], []), []) && Replays(cfg, Store(map[], []), [])
  {
    assert Logs(cfg, [], 0, 0) == [] && Derived(map[], cfg.chainId) == map[];
    var s := Store(map[], []);
    assert Cursor(s.runs, cfg.chainId) == -1;
    assert Replayable(cfg, Derived(s.db, cfg.chainId), -1, -1, []) && Reaches(cfg, -1, -1, []);
  }

  lemma {:induction false} FaultlessHistory(cfg: Config, stores: seq<Store>, chains: seq<Chain>,
                                            outcomes: seq<Outcome>, views: seq<Chain>, n: nat)
    requires History(cfg, stores, chains, outcomes, views) && n <= |chains| && Growing(chains)
    requires Faultless(outcomes, n)
    ensures Replayed(cfg, stores[n], LastChain(chains, n))
  {
    if n == 0 {
      EmptyReplayed(cfg);
    } else {
      FaultlessHistory(cfg, stores, chains, outcomes, views, n - 1);
      StableAlways(cfg, stores, chains, outcomes, views, n - 1);
      assert LastChain(chains, n - 1) <= chains[n - 1];
      assert TickAt(cfg, stores, chains, outcomes, views, n - 1);
      StableTick(cfg, chains[n - 1], stores[n - 1], outcomes[n - 1], stores[n], LastChain(chains, n - 1));
      FaultlessTick(cfg, chains[n - 1], stores[n - 1], outcomes[n - 1], stores[n], LastChain(chains, n - 1));
    }
  }

  /** The chain's watched logs are in order. */
  ghost predicate Orderly(cfg: Config, c: Chain) {
    InOrder(cfg, Logs(cfg, c, 0, |c|))
  }

  lemma {:induction false} OrderlyBelow(cfg: Config, c: Chain, t: nat)
    requires Orderly(cfg, c) && t < |c|
    ensures InOrder(cfg, Logs(cfg, c, 0, t + 1))
  {
    LogsSplit(cfg, c, 0, t + 1, |c|);
    InOrderPrefix(cfg, Logs(cfg, c, 0, t + 1), Logs(cfg, c, t + 1, |c|));
  }

  /** Finishing the range from the cursor gives the full replay. */
  ghost predicate Replays(cfg: Config, s: Store, c: Chain) {
    forall cur :: AtCursor(cfg, s, cur) ==>
      exists hi :: Replayable(cfg, Derived(s.db, cfg.chainId), cur, hi, c) && Reaches(cfg, cur, hi, c)
  }

  lemma {:induction false} CompletedReplay(cfg: Config, c: Chain, db: Db, cur: int, hi: int, db': Db, recorded: int)
    requires |c| > 0 && Replayable(cfg, Derived(db, cfg.chainId), cur, hi, c) && Reaches(cfg, cur, hi, c)
    requires Advances(cfg, c, db, cur, db', recorded)
    ensures cur <= recorded < |c| && Replayable(cfg, Derived(db', cfg.chainId), recorded, recorded, c)
    ensures ApplyLogs(cfg, map[], Logs(cfg, c, 0, recorded + 1)) == Ok(Derived(db', cfg.chainId))
  {
    var target := Target(cfg, cur + 1, |c| - 1);
    ReplayableFurther(cfg, Derived(db, cfg.chainId), cur, hi, recorded, c);
    if target.Some? {
      FullPassEffect(cfg, c, cur + 1, recorded, db, db');
    } else {
      assert Logs(cfg, c, cur + 1, cur + 1) == [];
    }
    PassReplays(cfg, Derived(db, cfg.chainId), cur, recorded, c, Derived(db', cfg.chainId));
  }

  lemma {:induction false} StoppedReplay(cfg: Config, c: Chain, db: Db, cur: int, hi: int, db': Db)
    requires |c| > 0 && Replayable(cfg, Derived(db, cfg.chainId), cur, hi, c) && Reaches(cfg, cur, hi, c)
    requires Stops(cfg, c, db, cur, db') && Orderly(cfg, c)
    ensures exists hi' :: Replayable(cfg, Derived(db', cfg.chainId), cur, hi', c) && Reaches(cfg, cur, hi', c)
  {
    var target := Target(cfg, cur + 1, |c| - 1);
    if target.Some? {
      var t := target.value;
      ReplayableFurther(cfg, Derived(db, cfg.chainId), cur, hi, t, c);
      OrderlyBelow(cfg, c, t);
      var logs := PartPassEffect(cfg, c, cur + 1, t, db, db');
      CrashKeepsReplayable(cfg, Derived(db, cfg.chainId), cur, t, c, logs, Derived(db', cfg.chainId));
      assert Reaches(cfg, cur, t, c);
    }
  }

  /** With the logs in order a crash does no harm to any column. */
  lemma {:induction false} ReplayTick(cfg: Config, c: Chain, s: Store, o: Outcome, s': Store, c0: Chain)
    requires Replays(cfg, s, c0) && c0 <= c && Tick(cfg, c, s, o, s') && Orderly(cfg, c)
    requires !Mismatch(cfg, s.db, c, Cursor(s.runs, cfg.chainId))
    ensures Replays(cfg, s', c)
    ensures o.Done? ==> Replayed(cfg, s', c)
  {
    var cur := Cursor(s.runs, cfg.chainId);
    assert AtCursor(cfg, s, cur);
    var hi :| Replayable(cfg, Derived(s.db, cfg.chainId), cur, hi, c0) && Reaches(cfg, cur, hi, c0);
    ReplayableGrown(cfg, Derived(s.db, cfg.chainId), cur, hi, c0, c);
    ReachesGrown(cfg, cur, hi, c0, c);
    TickCursor(cfg, c, s, o, s');
    if o.Done? {
      CompletedReplay(cfg, c, s.db, cur, hi, s'.db, o.recorded);
      assert Reaches(cfg, o.recorded, o.recorded, c);
    } else if s'.db != s.db {
      StoppedReplay(cfg, c, s.db, cur, hi, s'.db);
    }
  }

  lemma {:induction false} ReplaysAlways(cfg: Config, stores: seq<Store>, chains: seq<Chain>,
                                         outcomes: seq<Outcome>, views: seq<Chain>, n: nat)
    requires History(cfg, stores, chains, outcomes, views) && n <= |chains| && Growing(chains)
    requires forall i :: 0 <= i < n ==> Orderly(cfg, chains[i])
    ensures Replays(cfg, stores[n], LastChain(chains, n))
    ensures n == 0 || outcomes[n - 1].Done? ==> Replayed(cfg, stores[n], LastChain(chains, n))
  {
    if n == 0 {
      EmptyReplayed(cfg);
    } else {
      ReplaysAlways(cfg, stores, chains, outcomes, views, n - 1);
      StableAlways(cfg, stores, chains, outcomes, views, n - 1);
      assert LastChain(chains, n - 1) <= chains[n - 1];
      assert TickAt(cfg, stores, chains, outcomes, views, n - 1);
      StableTick(cfg, chains[n - 1], stores[n - 1], outcomes[n - 1], stores[n], LastChain(chains, n - 1));
      ReplayTick(cfg, chains[n - 1], stores[n - 1], outcomes[n - 1], stores[n], LastChain(chains, n - 1));
    }
  }

  /** No tick was interrupted, or the logs of all chains are in order. */
  ghost predicate Untroubled(cfg: Config, chains: seq<Chain>, outcomes: seq<Outcome>, n: nat)
    requires n <= |chains|
  {
    Faultless(outcomes, n) || forall i :: 0 <= i < n ==> Orderly(cfg, chains[i])
  }

  /** Between ticks, after none or a completed one. */
  predicate AtRest(outcomes: seq<Outcome>, n: nat)
    requires n <= |outcomes|
  {
    n == 0 || outcomes[n - 1].Done?
  }

  /** If no tick was interrupted, or else if the logs are in order, a completed tick leaves every column of the event,
      proposal and vault tables as the plain replay does. */
  lemma {:induction false} ReplayedHistory(cfg: Config, stores: seq<Store>, chains: seq<Chain>,
                                           outcomes: seq<Outcome>, views: seq<Chain>, n: nat)
    requires History(cfg, stores, chains, outcomes, views) && n <= |chains| && Growing(chains)
    requires Untroubled(cfg, chains, outcomes, n) && AtRest(outcomes, n)
    ensures Replayed(cfg, stores[n], LastChain(chains, n))
  {
    if Faultless(outcomes, n) {
      FaultlessHistory(cfg, stores, chains, outcomes, views, n);
    } else {
      ReplaysAlways(cfg, stores, chains, outcomes, views, n);
    }
  }

  // ---------------------------------------------------------------- independence of the cut

  /** Same chain, same contracts, any pacing. */
  predicate SameSource(a: Config, b: Config) {
    b == a.(maxBlocks := b.maxBlocks, endBlock := b.endBlock)
  }

  lemma {:induction false} SameBlockLogs(a: Config, b: Config, h: nat, logs: seq<Log>)
    requires SameSource(a, b)
    ensures BlockLogs(a, h, logs) == BlockLogs(b, h, logs)
  {
    if logs != [] {
      SameBlockLogs(a, b, h, logs[..|logs| - 1]);
    }
  }

  lemma {:induction false} SameLogs(a: Config, b: Config, c: Chain, hi: nat)
    requires SameSource(a, b) && hi <= |c|
    ensures Logs(a, c, 0, hi) == Logs(b, c, 0, hi)
  {
    if hi > 0 {
      SameLogs(a, b, c, hi - 1);
      SameBlockLogs(a, b, hi - 1, c[hi - 1].logs);
    }
  }

  lemma {:induction false} SameReplay(a: Config, b: Config, ls: seq<Located>)
    requires SameSource(a, b)
    ensures ApplyLogs(a, map[], ls) == ApplyLogs(b, map[], ls) && FoldEvents(a, map[], ls) == FoldEvents(b, map[], ls)
  {
    if ls != [] {
      SameReplay(a, b, ls[..|ls| - 1]);
      assert EntryOf(a, ls[|ls| - 1]) == EntryOf(b, ls[|ls| - 1]);
    }
  }

  /** Two chains, one of which extends the other, have the same logs up to a level of both. */
  lemma {:induction false} SameLogsUpTo(a: Config, c: Chain, b: Config, d: Chain, cur: int)
    requires SameSource(a, b) && (c <= d || d <= c) && -1 <= cur < |c| && cur < |d|
    ensures Logs(a, c, 0, cur + 1) == Logs(b, d, 0, cur + 1) && Canonical(a, c, cur) == Canonical(b, d, cur)
  {
    assert c[..cur + 1] == d[..cur + 1];
    LogsPrefix(a, c, d, 0, cur + 1);
    SameLogs(a, b, d, cur + 1);
    SameReplay(a, b, Logs(b, d, 0, cur + 1));
  }

  /** What a history on a growing chain has reached. */
  lemma {:induction false} HistoryReached(cfg: Config, stores: seq<Store>, chains: seq<Chain>,
                                          outcomes: seq<Outcome>, views: seq<Chain>, n: nat)
    requires History(cfg, stores, chains, outcomes, views) && n <= |chains| && Growing(chains)
    ensures var cur, e := Cursor(stores[n].runs, cfg.chainId), Events(stores[n].db, cfg.chainId);
            && cur < |LastChain(chains, n)| && UpTo(e, cur) == Canonical(cfg, LastChain(chains, n), cur)
            && (AtRest(outcomes, n) ==> e == Canonical(cfg, LastChain(chains, n), cur))
  {
    StableAlways(cfg, stores, chains, outcomes, views, n);
    StableSynced(cfg, stores[n], LastChain(chains, n));
    if n == 0 {
      EmptyStable(cfg);
    } else {
      StableHistory(cfg, stores, chains, outcomes, views, n - 1);
    }
  }

  /** Tick-cut independence: two histories on the same growing chain, with any range per tick, any schedule of tips and
      any crashes of either indexer.  At the same cursor they hold the same event rows up to it; after completed ticks
      the whole event tables are equal; and so is every column of the event, proposal and vault tables, if each indexer
      either was never interrupted or saw its logs in order. */
  lemma {:induction false} CutIndependence(a: Config, stores: seq<Store>, chains: seq<Chain>, outcomes: seq<Outcome>,
                                           views: seq<Chain>, n: nat, b: Config, stores': seq<Store>,
                                           chains': seq<Chain>, outcomes': seq<Outcome>, views': seq<Chain>, m: nat)
    requires History(a, stores, chains, outcomes, views) && n <= |chains| && Growing(chains)
    requires History(b, stores', chains', outcomes', views') && m <= |chains'| && Growing(chains')
    requires SameSource(a, b) && Cursor(stores[n].runs, a.chainId) == Cursor(stores'[m].runs, b.chainId)
    requires LastChain(chains, n) <= LastChain(chains', m) || LastChain(chains', m) <= LastChain(chains, n)
    ensures UpTo(Events(stores[n].db, a.chainId), Cursor(stores[n].runs, a.chainId)) ==
            UpTo(Events(stores'[m].db, b.chainId), Cursor(stores'[m].runs, b.chainId))
    ensures AtRest(outcomes, n) && AtRest(outcomes', m) ==>
              Events(stores[n].db, a.chainId) == Events(stores'[m].db, b.chainId)
    ensures AtRest(outcomes, n) && AtRest(outcomes', m) &&
            Untroubled(a, chains, outcomes, n) && Untroubled(b, chains', outcomes', m) ==>
              Derived(stores[n].db, a.chainId) == Derived(stores'[m].db, b.chainId)
  {
    HistoryReached(a, stores, chains, outcomes, views, n);
    HistoryReached(b, stores', chains', outcomes', views', m);
    var cur := Cursor(stores[n].runs, a.chainId);
    SameLogsUpTo(a, LastChain(chains, n), b, LastChain(chains', m), cur);
    if AtRest(outcomes, n) && AtRest(outcomes', m) &&
       Untroubled(a, chains, outcomes, n) && Untroubled(b, chains', outcomes', m) {
      ReplayedHistory(a, stores, chains, outcomes, views, n);
      ReplayedHistory(b, stores', chains', outcomes', views', m);
      SameReplay(a, b, Logs(a, LastChain(chains, n), 0, cur + 1));
    }
  }

  /** The `blocks` table holds every block with watched logs up to the cursor, and besides blocks with watched
      logs only the last blocks of ticks. */
  ghost predicate HeadersBetween(cfg: Config, db: Db, cur: int, c: Chain, ends: set<nat>) {
    forall h: nat ::
      && (h <= cur && h < |c| && HasLogs(cfg, c, h) ==> BlockKey(cfg.chainId, h) in db)
      && (BlockKey(cfg.chainId, h) in db ==> h < |c| && (HasLogs(cfg, c, h) || h in ends))
  }

  /** The height at which a tick from `cur` would end. */
  function EndOf(cfg: Config, cur: int, c: Chain): set<nat>
    requires -1 <= cur
  {
    if |c| > 0 && Target(cfg, cur + 1, |c| - 1).Some? then {Target(cfg, cur + 1, |c| - 1).value} else {}
  }

  function Ends(cfg: Config, stores: seq<Store>, chains: seq<Chain>): set<nat>
    requires |stores| > |chains|
    decreases |chains|
  {
    if chains == [] then
      {}
    else
      var n := |chains| - 1;
      Ends(cfg, stores, chains[..n]) + EndOf(cfg, Cursor(stores[n].runs, cfg.chainId), chains[n])
  }

  lemma {:induction false} HeadersBetweenGrown(cfg: Config, db: Db, cur: int, c: Chain, c': Chain, ends: set<nat>)
    requires HeadersBetween(cfg, db, cur, c, ends) && c <= c' && cur < |c|
    ensures HeadersBetween(cfg, db, cur, c', ends)
  {
  }

  lemma {:induction false} StateEffectHeaders(cfg: Config, c: Chain, cur: int, t: nat, db: Db, db': Db, ends: set<nat>)
    requires -1 <= cur < t < |c| && HeadersBetween(cfg, db, cur, c, ends) && StateEffect(cfg, c, cur + 1, t, db, db')
    ensures HeadersBetween(cfg, db', cur, c, ends + {t})
  {
    forall h: nat
      ensures h <= cur && h < |c| && HasLogs(cfg, c, h) ==> BlockKey(cfg.chainId, h) in db'
      ensures BlockKey(cfg.chainId, h) in db' ==> h < |c| && (HasLogs(cfg, c, h) || h in ends + {t})
    {
      assert IsStateKey(BlockKey(cfg.chainId, h));
    }
  }

  lemma {:induction false} PassHeaders(cfg: Config, c: Chain, cur: int, t: nat, db: Db, db': Db, ends: set<nat>)
    requires -1 <= cur < t && FullPass(cfg, c, cur + 1, t, db, db') && HeadersBetween(cfg, db, cur, c, ends)
    ensures HeadersBetween(cfg, db', t, c, ends + {t})
  {
    FullPassEffect(cfg, c, cur + 1, t, db, db');
    StateEffectHeaders(cfg, c, cur, t, db, db', ends);
    forall h: nat | cur < h <= t && HasLogs(cfg, c, h)
      ensures BlockKey(cfg.chainId, h) in db'
    {
      assert StoresHeader(cfg, c, t, h);
    }
  }

  /** A completed tick without a rollback. */
  lemma {:induction false} HeadersAfterDone(cfg: Config, c: Chain, db: Db, cur: int, db': Db, recorded: int,
                                            ends: set<nat>)
    requires |c| > 0 && -1 <= cur && Advances(cfg, c, db, cur, db', recorded)
    requires HeadersBetween(cfg, db, cur, c, ends)
    ensures HeadersBetween(cfg, db', recorded, c, ends + EndOf(cfg, cur, c)) && cur <= recorded
  {
    var target := Target(cfg, cur + 1, |c| - 1);
    if target.Some? {
      PassHeaders(cfg, c, cur, target.value, db, db', ends);
    }
  }

  /** An interrupted one. */
  lemma {:induction false} HeadersAfterStop(cfg: Config, c: Chain, db: Db, cur: int, db': Db, ends: set<nat>)
    requires |c| > 0 && -1 <= cur && (db' == db || Stops(cfg, c, db, cur, db'))
    requires HeadersBetween(cfg, db, cur, c, ends)
    ensures HeadersBetween(cfg, db', cur, c, ends + EndOf(cfg, cur, c))
  {
    var target := Target(cfg, cur + 1, |c| - 1);
    if target.Some? && db' != db {
      var logs := PartPassEffect(cfg, c, cur + 1, target.value, db, db');
      StateEffectHeaders(cfg, c, cur, target.value, db, db', ends);
    }
  }

  lemma {:induction false} HeadersAfterTick(cfg: Config, c: Chain, s: Store, o: Outcome, s': Store, ends: set<nat>)
    requires Tick(cfg, c, s, o, s') && !Mismatch(cfg, s.db, c, Cursor(s.runs, cfg.chainId))
    requires HeadersBetween(cfg, s.db, Cursor(s.runs, cfg.chainId), c, ends)
    ensures HeadersBetween(cfg, s'.db, Cursor(s'.runs, cfg.chainId), c,
                           ends + EndOf(cfg, Cursor(s.runs, cfg.chainId), c))
  {
    var cur := Cursor(s.runs, cfg.chainId);
    TickCursor(cfg, c, s, o, s');
    if o.Done? {
      HeadersAfterDone(cfg, c, s.db, cur, s'.db, o.recorded, ends);
    } else {
      HeadersAfterStop(cfg, c, s.db, cur, s'.db, ends);
    }
  }

  predicate IsEnds(cfg: Config, stores: seq<Store>, chains: seq<Chain>, n: nat, ends: set<nat>) {
    |stores| > |chains| >= n && ends == Ends(cfg, stores, chains[..n])
  }

  /** After `n` ticks the `blocks` table lies between the event heights and those plus the ticks' last blocks. */
  ghost predicate HeadersAt(cfg: Config, stores: seq<Store>, chains: seq<Chain>, n: nat)
    requires |stores| > |chains| >= n
  {
    forall ends :: IsEnds(cfg, stores, chains, n, ends) ==>
      HeadersBetween(cfg, stores[n].db, Cursor(stores[n].runs, cfg.chainId), LastChain(chains, n), ends)
  }

  lemma {:induction false} EndsStep(cfg: Config, stores: seq<Store>, chains: seq<Chain>, n: nat)
    requires |stores| > |chains| >= n > 0
    ensures Ends(cfg, stores, chains[..n]) ==
            Ends(cfg, stores, chains[..n - 1]) + EndOf(cfg, Cursor(stores[n - 1].runs, cfg.chainId), chains[n - 1])
  {
    assert chains[..n][..n - 1] == chains[..n - 1];
  }

  lemma {:induction false} HeadersNext(cfg: Config, stores: seq<Store>, chains: seq<Chain>, o: Outcome, n: nat)
    requires |stores| > |chains| >= n > 0 && HeadersAt(cfg, stores, chains, n - 1)
    requires LastChain(chains, n - 1) <= chains[n - 1]
    requires Cursor(stores[n - 1].runs, cfg.chainId) < |LastChain(chains, n - 1)|
    requires !Mismatch(cfg, stores[n - 1].db, chains[n - 1], Cursor(stores[n - 1].runs, cfg.chainId))
    requires Tick(cfg, chains[n - 1], stores[n - 1], o, stores[n])
    ensures HeadersAt(cfg, stores, chains, n)
  {
    var ends, cur := Ends(cfg, stores, chains[..n - 1]), Cursor(stores[n - 1].runs, cfg.chainId);
    assert IsEnds(cfg, stores, chains, n - 1, ends);
    HeadersBetweenGrown(cfg, stores[n - 1].db, cur, LastChain(chains, n - 1), chains[n - 1], ends);
    HeadersAfterTick(cfg, chains[n - 1], stores[n - 1], o, stores[n], ends);
    forall ends' | IsEnds(cfg, stores, chains, n, ends')
      ensures ends' == ends + EndOf(cfg, cur, chains[n - 1])
    {
      EndsStep(cfg, stores, chains, n);
    }
  }

  lemma {:induction false} NoHeaders(cfg: Config, stores: seq<Store>, chains: seq<Chain>)
    requires |stores| > |chains| && stores[0] == Store(map[], [])
    ensures HeadersAt(cfg, stores, chains, 0)
  {
  }

  /** Over every history on a growing chain, whatever crashed and whatever the order of its logs. */
  lemma {:induction false} StableHeaders(cfg: Config, stores: seq<Store>, chains: seq<Chain>,
                                         outcomes: seq<Outcome>, views: seq<Chain>, n: nat)
    requires History(cfg, stores, chains, outcomes, views) && n <= |chains| && Growing(chains)
    ensures HeadersAt(cfg, stores, chains, n)
  {
    if n == 0 {
      NoHeaders(cfg, stores, chains);
    } else {
      StableHeaders(cfg, stores, chains, outcomes, views, n - 1);
      StableAlways(cfg, stores, chains, outcomes, views, n - 1);
      StableSynced(cfg, stores[n - 1], LastChain(chains, n - 1));
      assert LastChain(chains, n - 1) <= chains[n - 1];
      assert TickAt(cfg, stores, chains, outcomes, views, n - 1);
      StableTick(cfg, chains[n - 1], stores[n - 1], outcomes[n - 1], stores[n], LastChain(chains, n - 1));
      HeadersNext(cfg, stores, chains, outcomes[n - 1], n);
    }
  }
}
