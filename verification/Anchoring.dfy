/** Invariants of every history, healthy or not: each row sits at a height with a stored header, state rows
    carry the height of their key, and heartbeat snapshots stay recent. */
module Anchoring {
  import opened Wrappers
  import opened Ledger
  import opened Tables
  import opened EventFold
  import opened TickPlan
  import opened PlanFacts
  import opened TickContract
  import opened Sync

  lemma {:induction false} DeleteKeepsSound(cfg: Config, db: Db, root: int)
    requires Sound(cfg, db)
    ensures Sound(cfg, DeleteAbove(db, cfg.chainId, root))
  {
  }

  lemma {:induction false} BaseSound(cfg: Config, db: Db, c: Chain, last: int)
    requires -1 <= last && Sound(cfg, db)
    ensures Sound(cfg, Base(cfg, db, c, last))
  {
    if Mismatch(cfg, db, c, last) {
      DeleteKeepsSound(cfg, db, Root(cfg, db, c, last));
    }
  }

  lemma {:induction false} AdvancesSound(cfg: Config, c: Chain, base: Db, resume: int, db': Db, recorded: int)
    requires |c| > 0 && -1 <= resume && Sound(cfg, base) && Advances(cfg, c, base, resume, db', recorded)
    ensures Sound(cfg, db') && (recorded > resume ==> Fresh(cfg, db', recorded))
  {
    var target := Target(cfg, resume + 1, |c| - 1);
    if target.Some? {
      FullPassEffect(cfg, c, resume + 1, target.value, base, db');
    }
  }

  lemma {:induction false} StopsSound(cfg: Config, c: Chain, base: Db, resume: int, db': Db)
    requires |c| > 0 && -1 <= resume && Sound(cfg, base) && Stops(cfg, c, base, resume, db')
    ensures Sound(cfg, db')
  {
    var target := Target(cfg, resume + 1, |c| - 1);
    if target.Some? {
      var logs := PartPassEffect(cfg, c, resume + 1, target.value, base, db');
    }
  }

  lemma {:induction false} TickSound(cfg: Config, c: Chain, s: Store, o: Outcome, s': Store)
    requires Tick(cfg, c, s, o, s') && Sound(cfg, s.db)
    ensures Sound(cfg, s'.db)
    ensures o.Done? && o.recorded > Resume(cfg, s.db, c, Cursor(s.runs, cfg.chainId)) ==> Fresh(cfg, s'.db, o.recorded)
  {
    var last := Cursor(s.runs, cfg.chainId);
    var base, resume := Base(cfg, s.db, c, last), Resume(cfg, s.db, c, last);
    BaseSound(cfg, s.db, c, last);
    if o.Done? {
      AdvancesSound(cfg, c, base, resume, s'.db, o.recorded);
    } else if s'.db != s.db {
      StopsSound(cfg, c, base, resume, s'.db);
    }
  }

  /** Vault `a` has a snapshot fewer than 7200 blocks behind `t`, or ahead of it. */
  ghost predicate Recent(db: Db, cid: nat, a: Address, t: nat) {
    exists k :: k in db && k.SnapshotKey? && k.cid == cid && k.contract == a && t - db[k].block < 7200
  }

  /** Vault `a` is registered with status 0. */
  predicate Registered(db: Db, cid: nat, a: Address) {
    var k := VaultKey(cid, a);
    k in db && db[k].cols.VaultCols? && db[k].cols.vaultStatus == 0
  }

  /** The configured vault and every vault of status 0 have a recent snapshot. */
  ghost predicate AllRecent(cfg: Config, db: Db, t: nat) {
    forall a :: a == cfg.vault || Registered(db, cfg.chainId, a) ==> Recent(db, cfg.chainId, a, t)
  }

  lemma {:induction false} FreshRecent(cfg: Config, db: Db, t: nat)
    requires Fresh(cfg, db, t)
    ensures AllRecent(cfg, db, t)
  {
    forall a | a == cfg.vault || Registered(db, cfg.chainId, a)
      ensures Recent(db, cfg.chainId, a, t)
    {
      var k := VaultKey(cfg.chainId, a);
      assert Registered(db, cfg.chainId, a) ==> k in db && a in ActiveVaults(db, cfg.chainId);
      assert !NeedsBeat(db, cfg.chainId, a, t);
    }
  }

  /** Over every history, whatever failed and whatever reorganised: every transaction, deposit, policy, vote,
      proposal, weight, leg and snapshot row sits at a height whose header is stored, and a tick that advanced
      leaves each heartbeat vault with a snapshot fewer than 7200 blocks behind. */
  lemma {:induction false} AlwaysAnchored(cfg: Config, stores: seq<Store>, chains: seq<Chain>,
                                          outcomes: seq<Outcome>, views: seq<Chain>, n: nat)
    requires History(cfg, stores, chains, outcomes, views) && n <= |chains|
    ensures Sound(cfg, stores[n].db)
    ensures n > 0 && outcomes[n - 1].Done? &&
            outcomes[n - 1].recorded > Resume(cfg, stores[n - 1].db, chains[n - 1], Cursor(stores[n - 1].runs, cfg.chainId))
            ==> Fresh(cfg, stores[n].db, outcomes[n - 1].recorded) &&
                AllRecent(cfg, stores[n].db, outcomes[n - 1].recorded)
  {
    if n > 0 {
      AlwaysAnchored(cfg, stores, chains, outcomes, views, n - 1);
      assert TickAt(cfg, stores, chains, outcomes, views, n - 1);
      TickSound(cfg, chains[n - 1], stores[n - 1], outcomes[n - 1], stores[n]);
      if outcomes[n - 1].Done? && Fresh(cfg, stores[n].db, outcomes[n - 1].recorded) {
        FreshRecent(cfg, stores[n].db, outcomes[n - 1].recorded);
      }
    }
  }
}
