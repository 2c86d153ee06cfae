/** Which snapshots a completed tick takes, exactly. */
module SnapshotRule {
  import opened Wrappers
  import opened Ledger
  import opened Tables
  import opened EventFold
  import opened TickPlan
  import opened PlanFacts
  import opened TickContract
  import opened Sync
  import opened Anchoring
  import opened PlanRuns
  import opened TickFailure
  import T = Tally

  /** The configured vault emitted a subscribed log in block `h`. */
  ghost predicate VaultLog(cfg: Config, c: Chain, h: nat)
    requires h < |c|
  {
    exists i: nat :: i < |c[h].logs| && Subscribed(cfg, c[h].logs[i]) && c[h].logs[i].address == cfg.vault
  }

  lemma {:induction false} TouchedIff(cfg: Config, c: Chain, h: nat)
    requires h < |c|
    ensures VaultTouched(cfg, c, h) <==> VaultLog(cfg, c, h)
  {
    if l :| l in BlockLogs(cfg, h, c[h].logs) && l.log.address == cfg.vault {
      BlockWatchedIff(cfg, c, h, l);
    }
    if i: nat :| i < |c[h].logs| && Subscribed(cfg, c[h].logs[i]) && c[h].logs[i].address == cfg.vault {
      BlockWatchedIff(cfg, c, h, Located(h, c[h].logs[i]));
      assert Located(h, c[h].logs[i]) in BlockLogs(cfg, h, c[h].logs);
    }
  }

  /** The configured vault emitted a log fewer than 7200 blocks behind `t`, within the range. */
  ghost predicate RecentLog(cfg: Config, c: Chain, from: nat, t: nat)
    requires from <= t < |c|
  {
    exists h :: from <= h <= t && t - h < 7200 && VaultLog(cfg, c, h)
  }

  /** The heartbeat at `t` snapshots vault `a`: it is the configured vault or active by then, and has no snapshot fewer
      than 7200 blocks old, neither from before the tick nor from one of its logs in the range. */
  ghost predicate Beaten(cfg: Config, c: Chain, base: Db, from: nat, t: nat, db': Db, a: Address)
    requires from <= t < |c|
  {
    && (a == cfg.vault || Registered(db', cfg.chainId, a))
    && !Recent(base, cfg.chainId, a, t) && !(a == cfg.vault && RecentLog(cfg, c, from, t))
  }

  lemma {:induction false} BeatsSnap(cfg: Config, db: Db, c: Chain, t: nat, vaults: seq<Address>, a: Address, h: nat)
    requires t < |c|
    ensures Snaps(cfg, Beats(cfg, db, c, t, vaults), SnapshotKey(cfg.chainId, a, h)) <==>
            h == t && a in vaults && NeedsBeat(db, cfg.chainId, a, t)
  {
    var k := SnapshotKey(cfg.chainId, a, h);
    if vaults != [] {
      var front, last := vaults[..|vaults| - 1], vaults[|vaults| - 1];
      var ws := Beats(cfg, db, c, t, vaults);
      BeatsSnap(cfg, db, c, t, front, a, h);
      assert forall x :: x in vaults <==> x in front || x == last;
      if NeedsBeat(db, cfg.chainId, last, t) {
        SnapsLast(cfg, ws, k);
        assert ws[..|ws| - 1] == Beats(cfg, db, c, t, front);
        SnapsOne(cfg, Snap(last, t, StateAt(c, t, last)), k);
      } else {
        assert ws == Beats(cfg, db, c, t, front);
      }
    }
  }

  lemma {:induction false} SnapsOne(cfg: Config, w: Write, k: Key)
    ensures Snaps(cfg, [w], k) <==> w.Snap? && k == SnapshotKey(cfg.chainId, w.contract, w.height)
  {
    assert forall x :: x in [w] <==> x == w;
  }

  lemma {:induction false} IngestSnapsIff(cfg: Config, c: Chain, from: nat, t: nat, a: Address, h: nat)
    requires from <= t < |c|
    ensures Snaps(cfg, Ingest(cfg, c, from, t), SnapshotKey(cfg.chainId, a, h)) <==>
            a == cfg.vault && from <= h <= t && VaultTouched(cfg, c, h)
  {
    var ws, k := Ingest(cfg, c, from, t), SnapshotKey(cfg.chainId, a, h);
    if Snaps(cfg, ws, k) {
      var w :| w in ws && w.Snap? && k == SnapshotKey(cfg.chainId, w.contract, w.height);
      IngestSnaps(cfg, c, from, t, w);
    }
    if a == cfg.vault && from <= h <= t && VaultTouched(cfg, c, h) {
      IngestSnaps(cfg, c, from, t, Snap(cfg.vault, h, StateAt(c, h, cfg.vault)));
    }
  }

  lemma {:induction false} NeedsBeatIff(cfg: Config, c: Chain, base: Db, from: nat, t: nat, a: Address)
    requires from <= t < |c|
    ensures NeedsBeat(base, cfg.chainId, a, t) <==> !Recent(base, cfg.chainId, a, t)
    ensures TouchedLately(cfg, c, from, t) <==> RecentLog(cfg, c, from, t)
  {
    forall h | from <= h <= t
      ensures VaultTouched(cfg, c, h) <==> VaultLog(cfg, c, h)
    {
      TouchedIff(cfg, c, h);
    }
  }

  lemma {:induction false} RegisteredIff(cfg: Config, mid: Db, ws: seq<Write>, db': Db, a: Address)
    requires (forall w :: w in ws ==> w.Snap?) && Exec(cfg, mid, ws) == Ok(db')
    ensures a in ActiveVaults(mid, cfg.chainId) <==> Registered(db', cfg.chainId, a)
  {
    SnapsKeep(cfg, mid, ws, VaultKey(cfg.chainId, a));
  }

  /** What the heartbeat adds to the tables after the ingest writes. */
  lemma {:induction false} HeartbeatAdds(cfg: Config, c: Chain, base: Db, from: nat, t: nat, mid: Db, db': Db,
                                         a: Address, h: nat)
    requires from <= t < |c| && Regular(cfg, base) && Exec(cfg, base, Ingest(cfg, c, from, t)) == Ok(mid)
    requires Exec(cfg, mid, Beats(cfg, mid, c, t, HeartbeatVaults(cfg, mid))) == Ok(db')
    ensures SnapshotKey(cfg.chainId, a, h) in db' <==>
            SnapshotKey(cfg.chainId, a, h) in mid || (h == t && Beaten(cfg, c, base, from, t, db', a))
  {
    var vaults := HeartbeatVaults(cfg, mid);
    var ws := Beats(cfg, mid, c, t, vaults);
    BeatsOnlySnap(cfg, mid, c, t, vaults);
    ExecSnaps(cfg, mid, ws, SnapshotKey(cfg.chainId, a, h));
    BeatsSnap(cfg, mid, c, t, vaults, a, h);
    HeartbeatVaultsListed(cfg, mid);
    RegisteredIff(cfg, mid, ws, db', a);
    NeedsBeatAfter(cfg, base, c, from, t, mid, a);
    NeedsBeatIff(cfg, c, base, from, t, a);
  }

  lemma {:induction false} IngestAdds(cfg: Config, c: Chain, base: Db, from: nat, t: nat, mid: Db, a: Address, h: nat)
    requires from <= t < |c| && Exec(cfg, base, Ingest(cfg, c, from, t)) == Ok(mid)
    ensures SnapshotKey(cfg.chainId, a, h) in mid <==>
            SnapshotKey(cfg.chainId, a, h) in base || (a == cfg.vault && from <= h <= t && VaultLog(cfg, c, h))
  {
    IngestInserts(cfg, c, from, t);
    ExecSnaps(cfg, base, Ingest(cfg, c, from, t), SnapshotKey(cfg.chainId, a, h));
    IngestSnapsIff(cfg, c, from, t, a, h);
    if from <= h <= t {
      TouchedIff(cfg, c, h);
    }
  }

  /** The snapshots of `db'` are those of `base`, one at each block of the range in which the configured vault emitted a
      watched log, and the heartbeat's at the end of the range. */
  ghost predicate SnapshotsAt(cfg: Config, c: Chain, base: Db, resume: int, t: nat, db': Db, a: Address, h: nat)
    requires -1 <= resume < t < |c|
  {
    SnapshotKey(cfg.chainId, a, h) in db' <==>
      || SnapshotKey(cfg.chainId, a, h) in base
      || (a == cfg.vault && resume < h <= t && VaultLog(cfg, c, h))
      || (h == t && Beaten(cfg, c, base, resume + 1, t, db', a))
  }

  lemma {:induction false} PlanSnapshots(cfg: Config, c: Chain, base: Db, resume: int, from: nat, t: nat, db': Db,
                                         a: Address, h: nat)
    requires from == resume + 1 && from <= t < |c| && Regular(cfg, base) && Runs(cfg, base, c, from, t, db')
    ensures SnapshotsAt(cfg, c, base, resume, t, db', a, h)
  {
    PlannedIs(cfg, base, c, from, t, TickWrites(cfg, base, c, from, t));
    var ingest := Ingest(cfg, c, from, t);
    if Exec(cfg, base, ingest).Ok? {
      var mid := Exec(cfg, base, ingest).value;
      ExecConcat(cfg, base, ingest, Beats(cfg, mid, c, t, HeartbeatVaults(cfg, mid)));
      IngestAdds(cfg, c, base, from, t, mid, a, h);
      HeartbeatAdds(cfg, c, base, from, t, mid, db', a, h);
    }
  }

  lemma {:induction false} FinishSnapshots(cfg: Config, c: Chain, base: Db, resume: int, db': Db, recorded: int,
                                           a: Address, h: nat)
    requires |c| > 0 && -1 <= resume && Regular(cfg, base)
    requires Finishes(cfg, c, base, resume, db', recorded) && recorded > resume
    ensures recorded < |c| && SnapshotsAt(cfg, c, base, resume, recorded, db', a, h)
  {
    var from: nat, t: nat := resume + 1, recorded;
    PlanSnapshots(cfg, c, base, resume, from, t, db', a, h);
  }

  lemma {:induction false} HistoryRegular(cfg: Config, stores: seq<Store>, chains: seq<Chain>,
                                          outcomes: seq<Outcome>, views: seq<Chain>, n: nat, c: Chain)
    requires History(cfg, stores, chains, outcomes, views) && n <= |chains|
    ensures Regular(cfg, Base(cfg, stores[n].db, c, Cursor(stores[n].runs, cfg.chainId)))
  {
    T.HistoryExcess(cfg, stores, chains, outcomes, views, n, 0, true);
    AlwaysAnchored(cfg, stores, chains, outcomes, views, n);
    BaseRegular(cfg, stores[n].db, c, Cursor(stores[n].runs, cfg.chainId));
  }

  /** After every history, on every chain: the snapshots after a tick that advances are those before it, one at each
      block of the range in which the configured vault emitted a watched log, and one at the end of the range for the
      configured vault and each vault of status 0 without a snapshot fewer than 7200 blocks old. */
  lemma {:induction false} SnapshotsExactly(cfg: Config, stores: seq<Store>, chains: seq<Chain>,
                                            outcomes: seq<Outcome>, views: seq<Chain>, n: nat, c: Chain,
                                            resume: int, base: Db, db': Db, recorded: int, a: Address, h: nat)
    requires History(cfg, stores, chains, outcomes, views) && n <= |chains| && |c| > 0
    requires resume == Resume(cfg, stores[n].db, c, Cursor(stores[n].runs, cfg.chainId))
    requires base == Base(cfg, stores[n].db, c, Cursor(stores[n].runs, cfg.chainId))
    requires Finishes(cfg, c, base, resume, db', recorded) && recorded > resume
    ensures recorded < |c| && SnapshotsAt(cfg, c, base, resume, recorded, db', a, h)
  {
    HistoryRegular(cfg, stores, chains, outcomes, views, n, c);
    FinishSnapshots(cfg, c, base, resume, db', recorded, a, h);
  }
}
