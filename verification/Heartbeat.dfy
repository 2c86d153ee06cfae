/** The rhythm of vault snapshots, through any crashes. */
module Heartbeat {
  import opened Wrappers
  import opened Ledger
  import opened Tables
  import opened TickPlan
  import opened PlanFacts
  import opened TickContract
  import opened Sync
  import opened Anchoring

  /** The configured vault has a snapshot at height `h`. */
  predicate Snapped(cfg: Config, db: Db, h: nat) {
    SnapshotKey(cfg.chainId, cfg.vault, h) in db
  }

  /** The longest distance between a snapshot and the next. */
  function Gap(cfg: Config): nat {
    HEARTBEAT_BLOCKS - 1 + cfg.maxBlocks
  }

  /** `g` is a snapshot shortly before `h`. */
  predicate Precedes(cfg: Config, db: Db, g: nat, h: nat) {
    Snapped(cfg, db, g) && g < h <= g + Gap(cfg)
  }

  /** `h` lies in the first tick's range, or has a snapshot shortly before it. */
  ghost predicate Preceded(cfg: Config, db: Db, h: nat) {
    h < cfg.maxBlocks || exists g: nat :: Precedes(cfg, db, g, h)
  }

  ghost predicate Spaced(cfg: Config, db: Db) {
    forall h: nat :: Snapped(cfg, db, h) ==> Preceded(cfg, db, h)
  }

  /** Some snapshot is fewer than the heartbeat interval behind the cursor, or ahead of it: an interrupted tick may
      have left it there. */
  predicate Near(cfg: Config, db: Db, cur: int, g: nat) {
    Snapped(cfg, db, g) && cur - HEARTBEAT_BLOCKS < g
  }

  ghost predicate Beating(cfg: Config, db: Db, cur: int) {
    cur >= 0 ==> exists g: nat :: Near(cfg, db, cur, g)
  }

  ghost predicate Rhythm(cfg: Config, db: Db, cur: int) {
    Spaced(cfg, db) && Beating(cfg, db, cur)
  }

  /** The lowest snapshot from `h` on. */
  lemma {:induction false} LowestFrom(cfg: Config, db: Db, h: nat, g: nat) returns (m: nat)
    requires h <= g && Snapped(cfg, db, g)
    ensures h <= m && Snapped(cfg, db, m) && forall x: nat :: h <= x < m ==> !Snapped(cfg, db, x)
    decreases g
  {
    if x: nat :| h <= x < g && Snapped(cfg, db, x) {
      m := LowestFrom(cfg, db, h, x);
    } else {
      m := g;
    }
  }

  /** A height that the next tick may snapshot is close enough behind some snapshot: the one near the cursor, or the
      one before the lowest snapshot above that height. */
  lemma {:induction false} NewPreceded(cfg: Config, db: Db, cur: int, h: nat)
    requires Rhythm(cfg, db, cur) && cur < h <= cur + cfg.maxBlocks && !Snapped(cfg, db, h)
    ensures Preceded(cfg, db, h)
  {
    if cur >= 0 {
      var g: nat :| Near(cfg, db, cur, g);
      if g < h {
        assert Precedes(cfg, db, g, h);
      } else {
        var m := LowestFrom(cfg, db, h, g);
        assert Preceded(cfg, db, m);
        if m >= cfg.maxBlocks {
          var before: nat :| Precedes(cfg, db, before, m);
          assert Precedes(cfg, db, before, h);
        }
      }
    }
  }

  lemma {:induction false} PrecededKept(cfg: Config, db: Db, db': Db, h: nat)
    requires Preceded(cfg, db, h) && forall g: nat :: Snapped(cfg, db, g) ==> Snapped(cfg, db', g)
    ensures Preceded(cfg, db', h)
  {
    if h >= cfg.maxBlocks {
      var g: nat :| Precedes(cfg, db, g, h);
      assert Precedes(cfg, db', g, h);
    }
  }

  /** Any part of a pass keeps the rhythm. */
  lemma {:induction false} PassRhythm(cfg: Config, c: Chain, db: Db, cur: int, t: nat, db': Db)
    requires Rhythm(cfg, db, cur) && -1 <= cur < t <= cur + cfg.maxBlocks
    requires StateEffect(cfg, c, cur + 1, t, db, db')
    ensures Rhythm(cfg, db', cur)
  {
    forall h: nat
      ensures Snapped(cfg, db, h) ==> Snapped(cfg, db', h)
      ensures Snapped(cfg, db', h) && !Snapped(cfg, db, h) ==> cur < h <= t
    {
      assert IsStateKey(SnapshotKey(cfg.chainId, cfg.vault, h));
    }
    forall h: nat | Snapped(cfg, db', h)
      ensures Preceded(cfg, db', h)
    {
      if !Snapped(cfg, db, h) {
        NewPreceded(cfg, db, cur, h);
      }
      PrecededKept(cfg, db, db', h);
    }
    if cur >= 0 {
      var g: nat :| Near(cfg, db, cur, g);
      assert Near(cfg, db', cur, g);
    }
  }

  /** A completed pass moves the beat to its end. */
  lemma {:induction false} PassBeats(cfg: Config, c: Chain, db: Db, cur: int, t: nat, db': Db)
    requires Rhythm(cfg, db, cur) && -1 <= cur < t <= cur + cfg.maxBlocks
    requires FullPass(cfg, c, cur + 1, t, db, db') && StateKeyed(cfg, db) && StateKeyed(cfg, db')
    ensures Rhythm(cfg, db', t)
  {
    FullPassEffect(cfg, c, cur + 1, t, db, db');
    PassRhythm(cfg, c, db, cur, t, db');
    assert !NeedsBeat(db', cfg.chainId, cfg.vault, t);
    var k :| k in db' && k.SnapshotKey? && k.cid == cfg.chainId && k.contract == cfg.vault &&
             t - db'[k].block < HEARTBEAT_BLOCKS;
    assert k == SnapshotKey(cfg.chainId, cfg.vault, k.height) && Near(cfg, db', t, k.height);
  }

  /** A tick that does not roll back keeps the rhythm. */
  lemma {:induction false} RhythmTick(cfg: Config, c: Chain, s: Store, o: Outcome, s': Store, cur: int)
    requires Tick(cfg, c, s, o, s') && cur == Cursor(s.runs, cfg.chainId) && !Mismatch(cfg, s.db, c, cur)
    requires Rhythm(cfg, s.db, cur) && Sound(cfg, s.db)
    ensures Rhythm(cfg, s'.db, Cursor(s'.runs, cfg.chainId))
  {
    TickCursor(cfg, c, s, o, s');
    TickSound(cfg, c, s, o, s');
    var target := Target(cfg, cur + 1, |c| - 1);
    if target.Some? {
      if o.Done? {
        PassBeats(cfg, c, s.db, cur, target.value, s'.db);
      } else if s'.db != s.db {
        var logs := PartPassEffect(cfg, c, cur + 1, target.value, s.db, s'.db);
        PassRhythm(cfg, c, s.db, cur, target.value, s'.db);
      }
    }
  }

  lemma {:induction false} RhythmAlways(cfg: Config, stores: seq<Store>, chains: seq<Chain>, outcomes: seq<Outcome>,
                                        views: seq<Chain>, n: nat)
    requires History(cfg, stores, chains, outcomes, views) && n <= |chains|
    requires forall i :: 0 <= i < n ==> !Mismatch(cfg, stores[i].db, chains[i], Cursor(stores[i].runs, cfg.chainId))
    ensures Rhythm(cfg, stores[n].db, Cursor(stores[n].runs, cfg.chainId))
  {
    if n > 0 {
      RhythmAlways(cfg, stores, chains, outcomes, views, n - 1);
      AlwaysAnchored(cfg, stores, chains, outcomes, views, n - 1);
      assert TickAt(cfg, stores, chains, outcomes, views, n - 1);
      RhythmTick(cfg, chains[n - 1], stores[n - 1], outcomes[n - 1], stores[n],
                 Cursor(stores[n - 1].runs, cfg.chainId));
    }
  }

  /** Over every history in which no tick rolled back, whatever failed and whatever chains the ticks saw: consecutive
      snapshots of the configured vault lie at most 7199 blocks plus one tick's range apart. */
  lemma {:induction false} SnapshotSpacing(cfg: Config, stores: seq<Store>, chains: seq<Chain>,
                                           outcomes: seq<Outcome>, views: seq<Chain>, n: nat, g: nat, h: nat)
    requires History(cfg, stores, chains, outcomes, views) && n <= |chains|
    requires forall i :: 0 <= i < n ==> !Mismatch(cfg, stores[i].db, chains[i], Cursor(stores[i].runs, cfg.chainId))
    requires Snapped(cfg, stores[n].db, g) && Snapped(cfg, stores[n].db, h) && g < h
    requires forall m: nat :: g < m < h ==> !Snapped(cfg, stores[n].db, m)
    ensures h - g <= 7199 + cfg.maxBlocks
  {
    RhythmAlways(cfg, stores, chains, outcomes, views, n);
    assert Preceded(cfg, stores[n].db, h);
    if h >= cfg.maxBlocks {
      var before: nat :| Precedes(cfg, stores[n].db, before, h);
      assert !(g < before < h);
    }
  }
}
