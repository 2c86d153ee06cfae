/** Rollbacks: what they remove, and what a rollback that falls short of the old cursor costs. */
module Reorg {
  import opened Wrappers
  import opened Ledger
  import opened Tables
  import opened EventFold
  import opened TickPlan
  import opened PlanFacts
  import opened TickContract
  import opened Sync
  import opened Anchoring

  /** Block `h` of the indexed view is no longer on the chain. */
  predicate Replaced(v: Chain, c: Chain, h: nat)
    requires h < |v|
  {
    h >= |c| || c[..h + 1] != v[..h + 1]
  }

  /** Rollback is exact: of the rows at or below the cursor, it removes every one whose block left the chain and
      none whose block is still on it, although most heights have no stored header to compare. */
  lemma {:induction false} RollbackExact(cfg: Config, db: Db, last: int, v: Chain, c: Chain, k: Key)
    requires Synced(cfg, db, last, v) && Sound(cfg, db) && Mismatch(cfg, db, c, last)
    requires k in db && k.cid == cfg.chainId && !k.VaultKey? && !k.PositionKey? && db[k].block <= last
    ensures k !in DeleteAbove(db, cfg.chainId, Root(cfg, db, c, last)) <==> Replaced(v, c, db[k].block)
  {
    var root, h := Root(cfg, db, c, last), db[k].block;
    var header := BlockKey(cfg.chainId, h);
    assert header in db && Mirrors(v, header, db[header]);
    if h <= root {
      var top := BlockKey(cfg.chainId, root);
      assert Mirrors(v, top, db[top]);
      BlockHashDecidesPrefix(v, c, root);
      assert c[..h + 1] == c[..root + 1][..h + 1] && v[..h + 1] == v[..root + 1][..h + 1];
    } else {
      RootMaximal(cfg, db, c, last, h);
      if h < |c| {
        BlockHashDecidesPrefix(v, c, h);
      }
    }
  }

  /** Wallet positions go with their block too, whoever wrote them. */
  lemma {:induction false} PositionsRolledBack(db: Db, cid: nat, root: int, k: Key)
    requires k in db && k.cid == cid && k.PositionKey?
    ensures k in DeleteAbove(db, cid, root) <==> db[k].block <= root
    ensures k in DeleteAbove(db, cid, root) ==> DeleteAbove(db, cid, root)[k] == db[k]
  {
  }

  /** Rows of other chains and registered vaults are never removed. */
  lemma {:induction false} RollbackFrame(db: Db, cid: nat, root: int, k: Key)
    requires k in db && (k.cid != cid || k.VaultKey?)
    ensures k in DeleteAbove(db, cid, root) && DeleteAbove(db, cid, root)[k] == db[k]
  {
  }

  lemma {:induction false} AdvancesFrame(cfg: Config, c: Chain, base: Db, resume: int, db': Db, recorded: int)
    requires |c| > 0 && -1 <= resume && Advances(cfg, c, base, resume, db', recorded)
    ensures SameElsewhere(cfg, base, db')
  {
    var target := Target(cfg, resume + 1, |c| - 1);
    if target.Some? {
      FullPassEffect(cfg, c, resume + 1, target.value, base, db');
    }
  }

  lemma {:induction false} StopsFrame(cfg: Config, c: Chain, base: Db, resume: int, db': Db)
    requires |c| > 0 && -1 <= resume && Stops(cfg, c, base, resume, db')
    ensures SameElsewhere(cfg, base, db')
  {
    var target := Target(cfg, resume + 1, |c| - 1);
    if target.Some? {
      var logs := PartPassEffect(cfg, c, resume + 1, target.value, base, db');
    }
  }

  /** A tick of one chain's indexer leaves every other chain's rows alone. */
  lemma {:induction false} TickFrame(cfg: Config, c: Chain, s: Store, o: Outcome, s': Store, k: Key)
    requires Tick(cfg, c, s, o, s') && k.cid != cfg.chainId
    ensures k in s.db <==> k in s'.db
    ensures k in s.db ==> s'.db[k] == s.db[k]
  {
    var last := Cursor(s.runs, cfg.chainId);
    var base, resume := Base(cfg, s.db, c, last), Resume(cfg, s.db, c, last);
    if k in s.db {
      RollbackFrame(s.db, cfg.chainId, Root(cfg, s.db, c, last), k);
    }
    if o.Done? {
      AdvancesFrame(cfg, c, base, resume, s'.db, o.recorded);
    } else if s'.db != s.db {
      StopsFrame(cfg, c, base, resume, s'.db);
    }
  }

  // ---------------------------------------------------------------- the gap

  lemma {:induction false} FoldOnward(cfg: Config, c: Chain, e: Db, root: int, t: nat)
    requires -1 <= root < t < |c| && e == Canonical(cfg, c, root)
    ensures FoldEvents(cfg, e, Logs(cfg, c, root + 1, t + 1)) == Canonical(cfg, c, t)
  {
    LogsSplit(cfg, c, 0, root + 1, t + 1);
    FoldConcat(cfg, map[], Logs(cfg, c, 0, root + 1), Logs(cfg, c, root + 1, t + 1));
  }

  /** A pass over tables without rows above its start leaves none above its end. */
  lemma {:induction false} PassEvents(cfg: Config, c: Chain, db: Db, root: int, t: nat, db': Db)
    requires -1 <= root < t < |c| && FullPass(cfg, c, root + 1, t, db, db')
    requires Events(db, cfg.chainId) == Canonical(cfg, c, root)
    ensures Events(db', cfg.chainId) == Canonical(cfg, c, t)
  {
    FullPassEffect(cfg, c, root + 1, t, db, db');
    FoldOnward(cfg, c, Events(db, cfg.chainId), root, t);
  }

  /** A completed tick that rolled back but recorded a level `reach` below the old cursor: the tables hold the
      new chain up to `reach` and nothing above, and no header is stored at the cursor. */
  lemma {:induction false} ShortRollback(cfg: Config, c: Chain, s: Store, reach: int, s': Store, v: Chain)
    requires Tick(cfg, c, s, Done(reach), s')
    requires Synced(cfg, s.db, Cursor(s.runs, cfg.chainId), v)
    requires Mismatch(cfg, s.db, c, Cursor(s.runs, cfg.chainId)) && reach < Cursor(s.runs, cfg.chainId)
    ensures -1 <= reach < |c| && Events(s'.db, cfg.chainId) == Canonical(cfg, c, reach)
    ensures BlockKey(cfg.chainId, Cursor(s.runs, cfg.chainId)) !in s'.db
    ensures Synced(cfg, s'.db, reach, c)
    ensures Cursor(s'.runs, cfg.chainId) == Cursor(s.runs, cfg.chainId)
  {
    var last := Cursor(s.runs, cfg.chainId);
    var root, base := Root(cfg, s.db, c, last), Base(cfg, s.db, c, last);
    TickCursor(cfg, c, s, Done(reach), s');
    RollbackSyncs(cfg, s.db, last, v, c);
    RolledBackEvents(cfg, s.db, last, v, c);
    if root < reach {
      PassEvents(cfg, c, base, root, reach, s'.db);
      RollbackPass(cfg, c, s.db, last, root, s'.db, reach);
    }
  }

  /** Without a stored header at the cursor the reorg check cannot fire, on any chain. */
  lemma {:induction false} NoHeaderNoCheck(cfg: Config, db: Db, last: int, c: Chain)
    requires last >= 0 && BlockKey(cfg.chainId, last) !in db
    ensures !Mismatch(cfg, db, c, last)
  {
  }

  /** A tick that does not roll back folds the logs above the cursor onto the tables. */
  lemma {:induction false} ForwardEvents(cfg: Config, c: Chain, s: Store, t: int, s': Store)
    requires Tick(cfg, c, s, Done(t), s')
    requires !Mismatch(cfg, s.db, c, Cursor(s.runs, cfg.chainId)) && Cursor(s.runs, cfg.chainId) < t
    ensures t < |c|
    ensures Events(s'.db, cfg.chainId) ==
            FoldEvents(cfg, Events(s.db, cfg.chainId), Logs(cfg, c, Cursor(s.runs, cfg.chainId) + 1, t + 1))
  {
    FullPassEffect(cfg, c, Cursor(s.runs, cfg.chainId) + 1, t, s.db, s'.db);
  }

  /** The next advancing tick starts above the cursor and never returns to what lies below. */
  lemma {:induction false} SkipsUnchecked(cfg: Config, low: seq<Located>, last: int, s1: Store, c2: Chain, t: int,
                                          s2: Store)
    requires Events(s1.db, cfg.chainId) == FoldEvents(cfg, map[], low)
    requires Cursor(s1.runs, cfg.chainId) == last && !Mismatch(cfg, s1.db, c2, last)
    requires Tick(cfg, c2, s1, Done(t), s2) && last < t
    ensures t < |c2|
    ensures Events(s2.db, cfg.chainId) == FoldEvents(cfg, map[], low + Logs(cfg, c2, last + 1, t + 1))
  {
    ForwardEvents(cfg, c2, s1, t, s2);
    FoldConcat(cfg, map[], low, Logs(cfg, c2, last + 1, t + 1));
  }

  /** The cost of a short rollback is exact: after the next advancing tick the index is the fold of the logs up
      to `reach` and of those above the old cursor, whatever that tick's chain holds between. */
  lemma {:induction false} ShortRollbackSkips(cfg: Config, c1: Chain, s0: Store, reach: int, s1: Store, v: Chain,
                                              c2: Chain, t: int, s2: Store, last: int)
    requires last == Cursor(s0.runs, cfg.chainId) && Synced(cfg, s0.db, last, v)
    requires Mismatch(cfg, s0.db, c1, last) && reach < last < t
    requires Tick(cfg, c1, s0, Done(reach), s1) && Tick(cfg, c2, s1, Done(t), s2)
    ensures -1 <= reach < |c1| && t < |c2|
    ensures Events(s2.db, cfg.chainId) ==
            FoldEvents(cfg, map[], Logs(cfg, c1, 0, reach + 1) + Logs(cfg, c2, last + 1, t + 1))
  {
    ShortRollback(cfg, c1, s0, reach, s1, v);
    NoHeaderNoCheck(cfg, s1.db, last, c2);
    SkipsUnchecked(cfg, Logs(cfg, c1, 0, reach + 1), last, s1, c2, t, s2);
  }

  // ---------------------------------------------------------------- for how long

  lemma {:induction false} AdvancesEffect(cfg: Config, c: Chain, base: Db, resume: int, db': Db, recorded: int)
    returns (t: nat, logs: seq<Located>)
    requires |c| > 0 && -1 <= resume && Advances(cfg, c, base, resume, db', recorded) && db' != base
    ensures resume < t < |c| && logs <= Logs(cfg, c, resume + 1, t + 1)
    ensures Effect(cfg, c, resume + 1, t, base, logs, db')
  {
    t := Target(cfg, resume + 1, |c| - 1).value;
    FullPassEffect(cfg, c, resume + 1, t, base, db');
    logs := Logs(cfg, c, resume + 1, t + 1);
  }

  lemma {:induction false} StopsEffect(cfg: Config, c: Chain, base: Db, resume: int, db': Db)
    returns (t: nat, logs: seq<Located>)
    requires |c| > 0 && -1 <= resume && Stops(cfg, c, base, resume, db') && db' != base
    ensures resume < t < |c| && logs <= Logs(cfg, c, resume + 1, t + 1)
    ensures Effect(cfg, c, resume + 1, t, base, logs, db')
  {
    t := Target(cfg, resume + 1, |c| - 1).value;
    logs := PartPassEffect(cfg, c, resume + 1, t, base, db');
  }

  lemma {:induction false} IngestEffect(cfg: Config, c: Chain, base: Db, resume: int, o: Outcome, db': Db)
    returns (t: nat, logs: seq<Located>)
    requires |c| > 0 && -1 <= resume && db' != base
    requires if o.Done? then Advances(cfg, c, base, resume, db', o.recorded) else Stops(cfg, c, base, resume, db')
    ensures resume < t < |c| && logs <= Logs(cfg, c, resume + 1, t + 1)
    ensures Effect(cfg, c, resume + 1, t, base, logs, db')
  {
    if o.Done? {
      t, logs := AdvancesEffect(cfg, c, base, resume, db', o.recorded);
    } else {
      t, logs := StopsEffect(cfg, c, base, resume, db');
    }
  }

  lemma {:induction false} EffectAbove(cfg: Config, c: Chain, db: Db, db': Db, last: int, t: nat, logs: seq<Located>,
                                       level: int)
    requires -1 <= last < t < |c| && logs <= Logs(cfg, c, last + 1, t + 1) && level <= last
    requires Effect(cfg, c, last + 1, t, db, logs, db')
    ensures UpTo(Events(db', cfg.chainId), level) == UpTo(Events(db, cfg.chainId), level)
  {
    var e, e' := Events(db, cfg.chainId), Events(db', cfg.chainId);
    LogsInRange(cfg, c, last + 1, t + 1);
    assert forall l :: l in logs ==> l in Logs(cfg, c, last + 1, t + 1);
    FoldAboveKeeps(cfg, e, last, t, logs);
    UpToUpTo(e, level, last);
    UpToUpTo(e', level, last);
  }

  /** The ingest phase, completed or not, changes no event row at or below the level it resumes from. */
  lemma {:induction false} IngestKeepsBelow(cfg: Config, c: Chain, base: Db, resume: int, o: Outcome, db': Db,
                                            level: int)
    requires |c| > 0 && -1 <= resume && level <= resume
    requires if o.Done? then Advances(cfg, c, base, resume, db', o.recorded) else Stops(cfg, c, base, resume, db')
    ensures UpTo(Events(db', cfg.chainId), level) == UpTo(Events(base, cfg.chainId), level)
  {
    if db' != base {
      var t, logs := IngestEffect(cfg, c, base, resume, o, db');
      EffectAbove(cfg, c, base, db', resume, t, logs, level);
    }
  }

  /** The tick does not roll back below `level`. */
  predicate Spares(cfg: Config, c: Chain, s: Store, level: int) {
    var last := Cursor(s.runs, cfg.chainId);
    level <= last && (Mismatch(cfg, s.db, c, last) ==> level <= Root(cfg, s.db, c, last))
  }

  lemma {:induction false} CutKeepsBelow(cfg: Config, db: Db, c: Chain, last: int, level: int)
    requires -1 <= last && level <= Resume(cfg, db, c, last)
    ensures UpTo(Events(Base(cfg, db, c, last), cfg.chainId), level) == UpTo(Events(db, cfg.chainId), level)
  {
    if Mismatch(cfg, db, c, last) {
      var root := Root(cfg, db, c, last);
      DeleteEvents(db, cfg.chainId, root);
      UpToUpTo(Events(db, cfg.chainId), level, root);
    }
  }

  /** A tick changes no event row at or below the cursor, or the root of its rollback. */
  lemma {:induction false} TickKeepsBelow(cfg: Config, c: Chain, s: Store, o: Outcome, s': Store, level: int)
    requires Tick(cfg, c, s, o, s') && Spares(cfg, c, s, level)
    ensures UpTo(Events(s'.db, cfg.chainId), level) == UpTo(Events(s.db, cfg.chainId), level)
  {
    var last := Cursor(s.runs, cfg.chainId);
    if o.Done? || s'.db != s.db {
      CutKeepsBelow(cfg, s.db, c, last, level);
      IngestKeepsBelow(cfg, c, Base(cfg, s.db, c, last), Resume(cfg, s.db, c, last), o, s'.db, level);
    }
  }

  /** Over any run of ticks none of which rolls back below a level at or below the first cursor, the event rows up to
      that level never change. */
  lemma {:induction false} BelowNeverChanges(cfg: Config, chains: seq<Chain>, stores: seq<Store>,
                                             outcomes: seq<Outcome>, n: nat, level: int)
    requires Ticks(cfg, chains, stores, outcomes) && n <= |chains| && level <= Cursor(stores[0].runs, cfg.chainId)
    requires forall i :: 0 <= i < n ==> Spares(cfg, chains[i], stores[i], level)
    ensures level <= Cursor(stores[n].runs, cfg.chainId)
    ensures UpTo(Events(stores[n].db, cfg.chainId), level) == UpTo(Events(stores[0].db, cfg.chainId), level)
  {
    if n > 0 {
      BelowNeverChanges(cfg, chains, stores, outcomes, n - 1, level);
      assert StepAt(cfg, chains, stores, outcomes, n - 1);
      TickCursor(cfg, chains[n - 1], stores[n - 1], outcomes[n - 1], stores[n]);
      TickKeepsBelow(cfg, chains[n - 1], stores[n - 1], outcomes[n - 1], stores[n], level);
    }
  }

  /** After a short rollback the tables hold nothing between `reach` and the old cursor, after every later run of
      ticks, as long as none of them rolls back below the old cursor. */
  lemma {:induction false} ShortRollbackLoses(cfg: Config, c1: Chain, s0: Store, reach: int, v: Chain,
                                              chains: seq<Chain>, stores: seq<Store>, outcomes: seq<Outcome>, n: nat)
    requires Synced(cfg, s0.db, Cursor(s0.runs, cfg.chainId), v)
    requires Mismatch(cfg, s0.db, c1, Cursor(s0.runs, cfg.chainId)) && reach < Cursor(s0.runs, cfg.chainId)
    requires Ticks(cfg, chains, stores, outcomes) && n <= |chains| && Tick(cfg, c1, s0, Done(reach), stores[0])
    requires forall i :: 0 <= i < n ==> Spares(cfg, chains[i], stores[i], Cursor(s0.runs, cfg.chainId))
    ensures -1 <= reach < |c1|
    ensures UpTo(Events(stores[n].db, cfg.chainId), Cursor(s0.runs, cfg.chainId)) == Canonical(cfg, c1, reach)
    ensures forall k :: k in Events(stores[n].db, cfg.chainId) ==>
              !(reach < Events(stores[n].db, cfg.chainId)[k].block <= Cursor(s0.runs, cfg.chainId))
  {
    var last := Cursor(s0.runs, cfg.chainId);
    var e, e' := Events(stores[0].db, cfg.chainId), Events(stores[n].db, cfg.chainId);
    ShortRollback(cfg, c1, s0, reach, stores[0], v);
    forall k | k in e
      ensures e[k].block <= reach
    {
      CanonicalLookup(cfg, c1, reach, k);
    }
    assert UpTo(e, last) == e;
    BelowNeverChanges(cfg, chains, stores, outcomes, n, last);
    forall k | k in e' && e'[k].block <= last
      ensures e'[k].block <= reach
    {
      assert k in UpTo(e', last);
    }
  }

  /** A rollback to a root at or above `level` keeps the agreement up to `level`. */
  lemma {:induction false} CutKeepsSync(cfg: Config, db: Db, c: Chain, last: int, level: int, v: Chain)
    requires -1 <= last && Synced(cfg, db, level, v) && level <= Resume(cfg, db, c, last)
    ensures Synced(cfg, Base(cfg, db, c, last), level, v)
  {
    CutKeepsBelow(cfg, db, c, last, level);
  }

  lemma {:induction false} IngestKeepsSync(cfg: Config, c: Chain, base: Db, resume: int, o: Outcome, db': Db,
                                           level: int,
                                           v: Chain)
    requires |c| > 0 && -1 <= resume && level <= resume && Synced(cfg, base, level, v)
    requires if o.Done? then Advances(cfg, c, base, resume, db', o.recorded) else Stops(cfg, c, base, resume, db')
    ensures Synced(cfg, db', level, v)
  {
    if db' != base {
      var t, logs := IngestEffect(cfg, c, base, resume, o, db');
      EffectAbove(cfg, c, base, db', resume, t, logs, level);
    }
  }

  /** A tick that does not roll back below a level keeps the agreement with a chain up to it. */
  lemma {:induction false} TickKeepsSync(cfg: Config, c: Chain, s: Store, o: Outcome, s': Store, level: int, v: Chain)
    requires Tick(cfg, c, s, o, s') && Spares(cfg, c, s, level) && Synced(cfg, s.db, level, v)
    ensures Synced(cfg, s'.db, level, v)
  {
    var last := Cursor(s.runs, cfg.chainId);
    if o.Done? || s'.db != s.db {
      CutKeepsSync(cfg, s.db, c, last, level, v);
      IngestKeepsSync(cfg, c, Base(cfg, s.db, c, last), Resume(cfg, s.db, c, last), o, s'.db, level, v);
    }
  }

  lemma {:induction false} RunKeepsSync(cfg: Config, chains: seq<Chain>, stores: seq<Store>, outcomes: seq<Outcome>,
                                        n: nat, level: int, v: Chain)
    requires Ticks(cfg, chains, stores, outcomes) && n <= |chains|
    requires forall i :: 0 <= i < n ==> Spares(cfg, chains[i], stores[i], level)
    requires Synced(cfg, stores[0].db, level, v) && level <= Cursor(stores[0].runs, cfg.chainId)
    ensures Synced(cfg, stores[n].db, level, v) && level <= Cursor(stores[n].runs, cfg.chainId)
  {
    if n > 0 {
      RunKeepsSync(cfg, chains, stores, outcomes, n - 1, level, v);
      assert StepAt(cfg, chains, stores, outcomes, n - 1);
      TickCursor(cfg, chains[n - 1], stores[n - 1], outcomes[n - 1], stores[n]);
      TickKeepsSync(cfg, chains[n - 1], stores[n - 1], outcomes[n - 1], stores[n], level, v);
    }
  }

  /** Cut at a root at or below a level up to which the index agrees with some chain, it agrees with the new chain. */
  lemma {:induction false} DeepCutSyncs(cfg: Config, db: Db, c: Chain, last: int, level: int, v: Chain)
    requires Mismatch(cfg, db, c, last) && Synced(cfg, db, level, v) && Root(cfg, db, c, last) <= level
    ensures Synced(cfg, Base(cfg, db, c, last), Root(cfg, db, c, last), c)
  {
    var root := Root(cfg, db, c, last);
    RollbackKeepsSync(cfg, db, level, v, root);
    if root >= 0 {
      var k := BlockKey(cfg.chainId, root);
      assert Mirrors(v, k, db[k]);
      BlockHashDecidesPrefix(v, c, root);
    }
    SyncedPrefix(cfg, Base(cfg, db, c, last), root, v, c);
  }

  lemma {:induction false} DeepPassSyncs(cfg: Config, db: Db, c: Chain, root: int, db': Db, recorded: int)
    requires |c| > 0 && -1 <= root < recorded && Synced(cfg, DeleteAbove(db, cfg.chainId, root), root, c)
    requires Advances(cfg, c, DeleteAbove(db, cfg.chainId, root), root, db', recorded)
    ensures Synced(cfg, db', recorded, c)
  {
    NothingAbove(cfg, db, root, recorded, c);
    PassIff(cfg, DeleteAbove(db, cfg.chainId, root), root, recorded, c, db');
  }

  /** A rollback to such a level, completed up to the cursor, leaves the whole index in agreement with the new chain. */
  lemma {:induction false} DeepRollbackSyncs(cfg: Config, c: Chain, s: Store, o: Outcome, s': Store, level: int,
                                             v: Chain)
    requires Tick(cfg, c, s, o, s') && o.Done? && o.recorded >= Cursor(s.runs, cfg.chainId)
    requires Mismatch(cfg, s.db, c, Cursor(s.runs, cfg.chainId))
    requires Synced(cfg, s.db, level, v) && Root(cfg, s.db, c, Cursor(s.runs, cfg.chainId)) <= level
    ensures Synced(cfg, s'.db, Cursor(s'.runs, cfg.chainId), c)
  {
    var last := Cursor(s.runs, cfg.chainId);
    TickCursor(cfg, c, s, o, s');
    DeepCutSyncs(cfg, s.db, c, last, level, v);
    DeepPassSyncs(cfg, s.db, c, Root(cfg, s.db, c, last), s'.db, o.recorded);
  }

  /** The last of some ticks rolls back to a root at or below `level`, the first of them to do so, and completes up to
      the cursor. */
  ghost predicate RollsDeeper(cfg: Config, chains: seq<Chain>, stores: seq<Store>, outcomes: seq<Outcome>, n: nat,
                              level: int)
  {
    && Ticks(cfg, chains, stores, outcomes) && n < |chains|
    && (forall i :: 0 <= i < n ==> Spares(cfg, chains[i], stores[i], level))
    && var last := Cursor(stores[n].runs, cfg.chainId);
       && Mismatch(cfg, stores[n].db, chains[n], last) && Root(cfg, stores[n].db, chains[n], last) <= level
       && outcomes[n].Done? && outcomes[n].recorded >= last
  }

  lemma {:induction false} DeepRollback(cfg: Config, chains: seq<Chain>, stores: seq<Store>, outcomes: seq<Outcome>,
                                        n: nat, level: int, v: Chain)
    requires RollsDeeper(cfg, chains, stores, outcomes, n, level)
    requires Synced(cfg, stores[0].db, level, v) && level <= Cursor(stores[0].runs, cfg.chainId)
    ensures Synced(cfg, stores[n + 1].db, Cursor(stores[n + 1].runs, cfg.chainId), chains[n])
  {
    RunKeepsSync(cfg, chains, stores, outcomes, n, level, v);
    assert StepAt(cfg, chains, stores, outcomes, n);
    DeepRollbackSyncs(cfg, chains[n], stores[n], outcomes[n], stores[n + 1], level, v);
  }

  /** A deeper rollback repairs the loss: whatever ran since, a later tick whose root is at or below `reach` and that
      completes up to the cursor indexes the lost heights again. */
  lemma {:induction false} DeepRollbackRepairs(cfg: Config, c1: Chain, s0: Store, reach: int, v: Chain,
                                               chains: seq<Chain>, stores: seq<Store>, outcomes: seq<Outcome>, n: nat)
    requires Synced(cfg, s0.db, Cursor(s0.runs, cfg.chainId), v)
    requires Mismatch(cfg, s0.db, c1, Cursor(s0.runs, cfg.chainId)) && reach < Cursor(s0.runs, cfg.chainId)
    requires |stores| > 0 && Tick(cfg, c1, s0, Done(reach), stores[0])
    requires RollsDeeper(cfg, chains, stores, outcomes, n, reach)
    ensures Synced(cfg, stores[n + 1].db, Cursor(stores[n + 1].runs, cfg.chainId), chains[n])
  {
    ShortRollback(cfg, c1, s0, reach, stores[0], v);
    DeepRollback(cfg, chains, stores, outcomes, n, reach, c1);
  }

  /** So does one to a root at or below that of a rollback whose tick failed. */
  lemma {:induction false} DeepRollbackRepairsBroken(cfg: Config, c1: Chain, s0: Store, v: Chain, chains: seq<Chain>,
                                                     stores: seq<Store>, outcomes: seq<Outcome>, n: nat)
    requires Synced(cfg, s0.db, Cursor(s0.runs, cfg.chainId), v)
    requires Mismatch(cfg, s0.db, c1, Cursor(s0.runs, cfg.chainId))
    requires |stores| > 0 && Tick(cfg, c1, s0, Stopped, stores[0]) && stores[0].db != s0.db
    requires RollsDeeper(cfg, chains, stores, outcomes, n, Root(cfg, s0.db, c1, Cursor(s0.runs, cfg.chainId)))
    ensures Synced(cfg, stores[n + 1].db, Cursor(stores[n + 1].runs, cfg.chainId), chains[n])
  {
    var last := Cursor(s0.runs, cfg.chainId);
    var root := Root(cfg, s0.db, c1, last);
    TickCursor(cfg, c1, s0, Stopped, stores[0]);
    RollbackSyncs(cfg, s0.db, last, v, c1);
    StopsKeepsSync(cfg, c1, Base(cfg, s0.db, c1, last), root, stores[0].db, c1);
    DeepRollback(cfg, chains, stores, outcomes, n, root, c1);
  }

  lemma {:induction false} BrokenEvents(cfg: Config, c: Chain, db: Db, last: int, v: Chain, db': Db)
    returns (logs: seq<Located>)
    requires |c| > 0 && Synced(cfg, db, last, v) && Mismatch(cfg, db, c, last)
    requires Stops(cfg, c, Base(cfg, db, c, last), Root(cfg, db, c, last), db')
    ensures Root(cfg, db, c, last) + 1 <= |c| && logs <= Logs(cfg, c, Root(cfg, db, c, last) + 1, |c|)
    ensures Events(db', cfg.chainId) == FoldEvents(cfg, map[], Logs(cfg, c, 0, Root(cfg, db, c, last) + 1) + logs)
  {
    var root := Root(cfg, db, c, last);
    RolledBackEvents(cfg, db, last, v, c);
    logs := StoppedLogs(cfg, c, Base(cfg, db, c, last), root, db');
    FoldConcat(cfg, map[], Logs(cfg, c, 0, root + 1), logs);
  }

  /** A tick that rolled back and then failed leaves the new chain up to the root and some first logs after it. */
  lemma {:induction false} BrokenRollback(cfg: Config, c: Chain, s: Store, s': Store, v: Chain)
    returns (logs: seq<Located>)
    requires Tick(cfg, c, s, Stopped, s') && s'.db != s.db
    requires Synced(cfg, s.db, Cursor(s.runs, cfg.chainId), v) && Mismatch(cfg, s.db, c, Cursor(s.runs, cfg.chainId))
    ensures var root := Root(cfg, s.db, c, Cursor(s.runs, cfg.chainId));
            root + 1 <= |c| && logs <= Logs(cfg, c, root + 1, |c|) &&
            Events(s'.db, cfg.chainId) == FoldEvents(cfg, map[], Logs(cfg, c, 0, root + 1) + logs)
    ensures Cursor(s'.runs, cfg.chainId) == Cursor(s.runs, cfg.chainId)
  {
    TickCursor(cfg, c, s, Stopped, s');
    logs := BrokenEvents(cfg, c, s.db, Cursor(s.runs, cfg.chainId), v, s'.db);
  }

  lemma {:induction false} RangeGrows(cfg: Config, c: Chain, lo: nat, mid: nat, hi: nat, logs: seq<Located>)
    requires lo <= mid <= hi <= |c| && logs <= Logs(cfg, c, lo, mid)
    ensures logs <= Logs(cfg, c, lo, hi)
  {
    LogsSplit(cfg, c, lo, mid, hi);
  }

  lemma {:induction false} StoppedLogs(cfg: Config, c: Chain, base: Db, resume: int, db': Db)
    returns (logs: seq<Located>)
    requires |c| > 0 && -1 <= resume < |c| && Stops(cfg, c, base, resume, db')
    ensures logs <= Logs(cfg, c, resume + 1, |c|)
    ensures Events(db', cfg.chainId) == FoldEvents(cfg, Events(base, cfg.chainId), logs)
  {
    var target := Target(cfg, resume + 1, |c| - 1);
    if target.Some? {
      logs := PartPassEffect(cfg, c, resume + 1, target.value, base, db');
      RangeGrows(cfg, c, resume + 1, target.value + 1, |c|, logs);
    } else {
      logs := [];
    }
  }

  /** So a failed rolling-back tick costs the same.  Headers are written before any log is handled, so the cursor's
      header may be in place with its logs missing; whenever the next tick sees no mismatch, it skips everything
      between the last log handled and the old cursor. */
  lemma {:induction false} BrokenRollbackSkips(cfg: Config, c1: Chain, s0: Store, s1: Store, v: Chain, c2: Chain,
                                               t: int,
                                               s2: Store, last: int) returns (logs: seq<Located>)
    requires last == Cursor(s0.runs, cfg.chainId) && Synced(cfg, s0.db, last, v) && Mismatch(cfg, s0.db, c1, last)
    requires Tick(cfg, c1, s0, Stopped, s1) && s1.db != s0.db && !Mismatch(cfg, s1.db, c2, last)
    requires Tick(cfg, c2, s1, Done(t), s2) && last < t
    ensures var root := Root(cfg, s0.db, c1, last);
            root + 1 <= |c1| && t < |c2| && logs <= Logs(cfg, c1, root + 1, |c1|) &&
            Events(s2.db, cfg.chainId) ==
              FoldEvents(cfg, map[], Logs(cfg, c1, 0, root + 1) + logs + Logs(cfg, c2, last + 1, t + 1))
  {
    logs := BrokenRollback(cfg, c1, s0, s1, v);
    SkipsUnchecked(cfg, Logs(cfg, c1, 0, Root(cfg, s0.db, c1, last) + 1) + logs, last, s1, c2, t, s2);
  }

  /** And for as long: every later run of ticks that does not roll back below the old cursor leaves the rows up to it
      as the failed tick left them. */
  lemma {:induction false} BrokenRollbackLoses(cfg: Config, c1: Chain, s0: Store, v: Chain, chains: seq<Chain>,
                                               stores: seq<Store>, outcomes: seq<Outcome>, n: nat, last: int)
    returns (logs: seq<Located>)
    requires last == Cursor(s0.runs, cfg.chainId) && Synced(cfg, s0.db, last, v) && Mismatch(cfg, s0.db, c1, last)
    requires Ticks(cfg, chains, stores, outcomes) && n <= |chains|
    requires Tick(cfg, c1, s0, Stopped, stores[0]) && stores[0].db != s0.db
    requires forall i :: 0 <= i < n ==> Spares(cfg, chains[i], stores[i], last)
    ensures var root := Root(cfg, s0.db, c1, last);
            root + 1 <= |c1| && logs <= Logs(cfg, c1, root + 1, |c1|) &&
            UpTo(Events(stores[n].db, cfg.chainId), last) ==
              UpTo(FoldEvents(cfg, map[], Logs(cfg, c1, 0, root + 1) + logs), last)
  {
    logs := BrokenRollback(cfg, c1, s0, stores[0], v);
    BelowNeverChanges(cfg, chains, stores, outcomes, n, last);
  }

  /** No row lies at a skipped height. */
  lemma {:induction false} SkippedHeightEmpty(cfg: Config, low: seq<Located>, reach: int, last: int, c2: Chain, t: int,
                                              db: Db, k: Key)
    requires -1 <= reach < last < t < |c2| && forall l :: l in low ==> l.height <= reach
    requires Events(db, cfg.chainId) == FoldEvents(cfg, map[], low + Logs(cfg, c2, last + 1, t + 1))
    requires k in Events(db, cfg.chainId)
    ensures !(reach < Events(db, cfg.chainId)[k].block <= last)
  {
    var high := Logs(cfg, c2, last + 1, t + 1);
    FoldLookup(cfg, map[], low + high, k);
    FirstConcat(cfg, low, high, k);
    FirstHeight(cfg, low, k, 0, reach + 1);
    RangeFirst(cfg, c2, last + 1, t + 1, k);
  }

  // ---------------------------------------------------------------- refused rollbacks

  /** A vote stored at a lower height than its proposal. */
  ghost predicate VoteBelowProposal(db: Db, cid: nat, k: Key) {
    && k in db && k.VoteKey? && k.cid == cid && ProposalKey(cid, k.proposal) in db
    && db[k].block < db[ProposalKey(cid, k.proposal)].block
  }

  /** Some rollback would be refused if and only if some vote lies below its proposal. */
  lemma {:induction false} BlockableIff(db: Db, cid: nat)
    ensures (exists root :: Dangles(db, cid, root)) <==> exists k :: VoteBelowProposal(db, cid, k)
  {
    if root :| Dangles(db, cid, root) {
      var k :| k in db && k.VoteKey? && k.cid == cid && db[k].block <= root &&
               ProposalKey(cid, k.proposal) in db && db[ProposalKey(cid, k.proposal)].block > root;
      assert VoteBelowProposal(db, cid, k);
    }
    if k :| VoteBelowProposal(db, cid, k) {
      assert Dangles(db, cid, db[k].block);
    }
  }

  /** The root of a walk depends only on the blocks up to its start. */
  lemma {:induction false} RootGrown(cfg: Config, db: Db, c: Chain, c': Chain, start: int)
    requires -1 <= start < |c| && c <= c'
    ensures Root(cfg, db, c', start) == Root(cfg, db, c, start)
    ensures Mismatch(cfg, db, c', start) <==> Mismatch(cfg, db, c, start)
    decreases start
  {
    if start >= 0 {
      assert c'[..start + 1] == c[..start + 1];
      RootGrown(cfg, db, c, c', start - 1);
    }
  }

  /** A refused rollback is refused again by every later tick as long as the chain only grows: the indexer is stuck,
      with tables and cursor unchanged. */
  lemma {:induction false} BlockedForever(cfg: Config, c: Chain, chains: seq<Chain>, stores: seq<Store>,
                                          outcomes: seq<Outcome>, n: nat)
    requires Ticks(cfg, chains, stores, outcomes) && n <= |chains|
    requires forall i :: 0 <= i < n ==> c <= chains[i]
    requires RollbackBlocked(cfg, stores[0].db, c, Cursor(stores[0].runs, cfg.chainId))
    ensures stores[n].db == stores[0].db
    ensures Cursor(stores[n].runs, cfg.chainId) == Cursor(stores[0].runs, cfg.chainId)
  {
    if n > 0 {
      BlockedForever(cfg, c, chains, stores, outcomes, n - 1);
      assert StepAt(cfg, chains, stores, outcomes, n - 1);
      RootGrown(cfg, stores[0].db, c, chains[n - 1], Cursor(stores[0].runs, cfg.chainId));
      TickCursor(cfg, chains[n - 1], stores[n - 1], outcomes[n - 1], stores[n]);
    }
  }

  function ParentOf(cfg: Config, l: Located): Key
    requires l.log.event.VoteCast?
  {
    ProposalKey(cfg.chainId, ClampI64(l.log.event.proposalId))
  }

  /** Every vote comes after the creation of its proposal. */
  ghost predicate VotesFollow(cfg: Config, ls: seq<Located>) {
    forall i :: 0 <= i < |ls| && ls[i].log.event.VoteCast? ==> First(cfg, ls[..i], ParentOf(cfg, ls[i])).Some?
  }

  ghost predicate ByHeight(ls: seq<Located>) {
    forall i, j :: 0 <= i <= j < |ls| ==> ls[i].height <= ls[j].height
  }

  lemma {:induction false} LogsByHeight(cfg: Config, c: Chain, hi: nat)
    requires hi <= |c|
    ensures ByHeight(Logs(cfg, c, 0, hi))
  {
    if hi > 0 {
      var low, block := Logs(cfg, c, 0, hi - 1), BlockLogs(cfg, hi - 1, c[hi - 1].logs);
      LogsByHeight(cfg, c, hi - 1);
      LogsInRange(cfg, c, 0, hi - 1);
      BlockLogsWatched(cfg, hi - 1, c[hi - 1].logs);
      forall i | 0 <= i < |low + block|
        ensures i < |low| ==> (low + block)[i] == low[i] && low[i].height < hi - 1
        ensures i >= |low| ==> (low + block)[i].height == hi - 1
      {
        assert i < |low| ==> low[i] in low;
        assert i >= |low| ==> block[i - |low|] in block;
      }
    }
  }

  lemma {:induction false} VotesFollowPrefix(cfg: Config, ls: seq<Located>, n: nat)
    requires VotesFollow(cfg, ls) && n <= |ls|
    ensures VotesFollow(cfg, ls[..n])
  {
    forall i | 0 <= i < n && ls[i].log.event.VoteCast?
      ensures First(cfg, ls[..n][..i], ParentOf(cfg, ls[i])).Some?
    {
      assert ls[..n][..i] == ls[..i];
    }
  }

  lemma {:induction false} FirstUpToLast(cfg: Config, ls: seq<Located>, n: nat, k: Key)
    requires ByHeight(ls) && n < |ls| && First(cfg, ls[..n], k).Some?
    ensures First(cfg, ls[..n], k).value.block <= ls[n].height
  {
    forall l | l in ls[..n]
      ensures 0 <= l.height < ls[n].height + 1
    {
      var i :| 0 <= i < n && ls[i] == l;
    }
    FirstHeight(cfg, ls[..n], k, 0, ls[n].height + 1);
  }

  /** Then a voted proposal has a row, at or below its first vote. */
  lemma {:induction false} VoteHasParent(cfg: Config, ls: seq<Located>, k: Key)
    requires VotesFollow(cfg, ls) && ByHeight(ls) && k.VoteKey? && First(cfg, ls, k).Some?
    ensures var parent := First(cfg, ls, ProposalKey(cfg.chainId, k.proposal));
            parent.Some? && parent.value.block <= First(cfg, ls, k).value.block
  {
    var n, parent := |ls| - 1, ProposalKey(cfg.chainId, k.proposal);
    if First(cfg, ls[..n], k).Some? {
      VotesFollowPrefix(cfg, ls, n);
      VoteHasParent(cfg, ls[..n], k);
    } else {
      assert ls[n].log.event.VoteCast? && parent == ParentOf(cfg, ls[n]);
      FirstUpToLast(cfg, ls, n, parent);
    }
  }

  /** Over an index in agreement with a chain whose votes follow their proposals, no vote at or below the cursor lies
      below its proposal. */
  lemma {:induction false} VoteAboveProposal(cfg: Config, db: Db, last: int, v: Chain, k: Key)
    requires Synced(cfg, db, last, v) && VotesFollow(cfg, Logs(cfg, v, 0, last + 1))
    requires k in db && k.VoteKey? && k.cid == cfg.chainId && db[k].block <= last
    ensures var parent := ProposalKey(cfg.chainId, k.proposal); parent in db && db[parent].block <= db[k].block
  {
    var e, parent := UpTo(Events(db, cfg.chainId), last), ProposalKey(cfg.chainId, k.proposal);
    assert k in e && e[k].block == db[k].block;
    CanonicalLookup(cfg, v, last, k);
    CanonicalLookup(cfg, v, last, parent);
    LogsByHeight(cfg, v, last + 1);
    VoteHasParent(cfg, Logs(cfg, v, 0, last + 1), k);
    assert parent in e && e[parent].block == db[parent].block;
  }

  /** So no rollback is refused, whatever chain asks for it. */
  lemma {:induction false} NeverBlocked(cfg: Config, db: Db, last: int, v: Chain, c: Chain)
    requires Synced(cfg, db, last, v) && VotesFollow(cfg, Logs(cfg, v, 0, last + 1))
    ensures !RollbackBlocked(cfg, db, c, last)
  {
    var root := Root(cfg, db, c, last);
    forall k | k in db && k.VoteKey? && k.cid == cfg.chainId && db[k].block <= root
      ensures ProposalKey(cfg.chainId, k.proposal) in db
      ensures db[ProposalKey(cfg.chainId, k.proposal)].block <= root
    {
      VoteAboveProposal(cfg, db, last, v, k);
    }
  }

  /** So the indexer never gets stuck on a rollback, over healthy histories of such chains. */
  lemma {:induction false} NeverStuck(cfg: Config, stores: seq<Store>, chains: seq<Chain>, outcomes: seq<Outcome>,
                                      views: seq<Chain>, n: nat, c: Chain)
    requires History(cfg, stores, chains, outcomes, views) && n <= |chains|
    requires forall i :: 0 <= i < n ==> Healthy(cfg, chains[i], stores[i], outcomes[i], stores[i + 1])
    requires VotesFollow(cfg, Logs(cfg, views[n], 0, |views[n]|))
    ensures !RollbackBlocked(cfg, stores[n].db, c, Cursor(stores[n].runs, cfg.chainId))
  {
    var last, v := Cursor(stores[n].runs, cfg.chainId), views[n];
    IndexRefinesChain(cfg, stores, chains, outcomes, views, n);
    var low, all := Logs(cfg, v, 0, last + 1), Logs(cfg, v, 0, |v|);
    LogsSplit(cfg, v, 0, last + 1, |v|);
    VotesFollowPrefix(cfg, all, |low|);
    assert all[..|low|] == low;
    NeverBlocked(cfg, stores[n].db, last, v, c);
  }
}
