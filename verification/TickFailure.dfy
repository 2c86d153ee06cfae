/** Exactly when a tick fails although every call is answered: what a caller can read off the tables and the chain
    before it. */
module TickFailure {
  import opened Wrappers
  import opened Ledger
  import opened Tables
  import opened EventFold
  import opened TickPlan
  import opened PlanFacts
  import opened TickContract
  import opened Sync
  import opened CrashReplay
  import opened PlanRuns
  import opened Anchoring
  import T = Tally

  // ---------------------------------------------------------------- logs

  /** Log `i` decodes, and if it is a vote, the vote has a row, or its proposal has one or an earlier log created it. */
  predicate CanHandle(cfg: Config, d: Db, ls: seq<Located>, i: nat)
    requires i < |ls|
  {
    var event := ls[i].log.event;
    && !event.Undecodable?
    && (event.VoteCast? ==>
          var proposal := ProposalKey(cfg.chainId, ClampI64(event.proposalId));
          || VoteKey(cfg.chainId, ClampI64(event.proposalId), event.voter) in d
          || proposal in d
          || First(cfg, ls[..i], proposal).Some?)
  }

  ghost predicate CanHandleAll(cfg: Config, d: Db, ls: seq<Located>) {
    forall i :: 0 <= i < |ls| ==> CanHandle(cfg, d, ls, i)
  }

  lemma {:induction false} CanHandleFront(cfg: Config, d: Db, ls: seq<Located>)
    requires ls != []
    ensures CanHandleAll(cfg, d, ls) <==>
            CanHandleAll(cfg, d, ls[..|ls| - 1]) && CanHandle(cfg, d, ls, |ls| - 1)
  {
    var front := ls[..|ls| - 1];
    forall i | 0 <= i < |front|
      ensures CanHandle(cfg, d, front, i) <==> CanHandle(cfg, d, ls, i)
    {
      assert front[..i] == ls[..i];
    }
  }

  /** The event rows after some logs: those before, and those the logs contribute. */
  lemma {:induction false} EventKeysAfter(cfg: Config, d: Db, ls: seq<Located>, k: Key)
    requires ApplyLogs(cfg, d, ls).Ok? && IsEventKey(k) && k.cid == cfg.chainId
    ensures k in ApplyLogs(cfg, d, ls).value <==> k in d || First(cfg, ls, k).Some?
  {
    var d' := ApplyLogs(cfg, d, ls).value;
    ApplyLogsEvents(cfg, d, ls);
    FoldLookup(cfg, Events(d, cfg.chainId), ls, k);
    assert k in Events(d', cfg.chainId) <==> k in d';
    assert k in Events(d, cfg.chainId) <==> k in d;
  }

  /** A vote that logs brought has its proposal. */
  lemma {:induction false} NewVoteHasProposal(cfg: Config, d: Db, ls: seq<Located>, proposal: nat, voter: Address)
    requires ApplyLogs(cfg, d, ls).Ok? && VoteKey(cfg.chainId, proposal, voter) !in d
    requires VoteKey(cfg.chainId, proposal, voter) in ApplyLogs(cfg, d, ls).value
    ensures ProposalKey(cfg.chainId, proposal) in ApplyLogs(cfg, d, ls).value
  {
    var front := ls[..|ls| - 1];
    var mid := ApplyLogs(cfg, d, front).value;
    if VoteKey(cfg.chainId, proposal, voter) in mid {
      NewVoteHasProposal(cfg, d, front, proposal, voter);
      ApplyLogKeeps(cfg, mid, ls[|ls| - 1], ProposalKey(cfg.chainId, proposal));
    }
  }

  lemma {:induction false} LastHandledIff(cfg: Config, d: Db, ls: seq<Located>)
    requires ls != [] && ApplyLogs(cfg, d, ls[..|ls| - 1]).Ok?
    ensures ApplyLogs(cfg, d, ls).Ok? <==> CanHandle(cfg, d, ls, |ls| - 1)
  {
    var front, event := ls[..|ls| - 1], ls[|ls| - 1].log.event;
    if event.VoteCast? {
      var p := ClampI64(event.proposalId);
      var vote, mid := VoteKey(cfg.chainId, p, event.voter), ApplyLogs(cfg, d, front).value;
      EventKeysAfter(cfg, d, front, vote);
      EventKeysAfter(cfg, d, front, ProposalKey(cfg.chainId, p));
      if vote in mid && vote !in d {
        NewVoteHasProposal(cfg, d, front, p, event.voter);
      }
    }
  }

  /** Logs can be handled if and only if each of them can. */
  lemma {:induction false} HandledIff(cfg: Config, d: Db, ls: seq<Located>)
    ensures ApplyLogs(cfg, d, ls).Ok? <==> CanHandleAll(cfg, d, ls)
  {
    if ls != [] {
      HandledIff(cfg, d, ls[..|ls| - 1]);
      CanHandleFront(cfg, d, ls);
      if ApplyLogs(cfg, d, ls[..|ls| - 1]).Ok? {
        LastHandledIff(cfg, d, ls);
      }
    }
  }

  // ---------------------------------------------------------------- vault states

  /** The vault states read because of events. */
  ghost predicate TouchedReadable(cfg: Config, c: Chain, from: nat, t: nat)
    requires from <= t < |c|
  {
    forall h :: from <= h <= t && VaultTouched(cfg, c, h) ==> StateAt(c, h, cfg.vault).Some?
  }

  lemma {:induction false} SnapsAre(cfg: Config, c: Chain, lo: nat, hi: nat, w: Write)
    requires lo <= hi <= |c|
    ensures w in SnapWrites(cfg, c, lo, hi) <==>
            w.Snap? && lo <= w.height < hi && VaultTouched(cfg, c, w.height) &&
            w == Snap(cfg.vault, w.height, StateAt(c, w.height, cfg.vault))
    decreases hi
  {
    if lo < hi {
      SnapsAre(cfg, c, lo, hi - 1, w);
    }
  }

  lemma {:induction false} OneBlockInserts(cfg: Config, c: Chain, h: nat)
    requires h < |c|
    ensures forall w :: w in OneBlock(cfg, c, h) ==> w.Insert?
  {
    TxWritesEach(cfg, h, c[h].txs);
  }

  lemma {:induction false} BlocksInsert(cfg: Config, c: Chain, lo: nat, hi: nat)
    requires lo <= hi <= |c|
    ensures forall w :: w in BlockWrites(cfg, c, lo, hi) ==> w.Insert?
    decreases hi
  {
    if lo < hi {
      var front, block := BlockWrites(cfg, c, lo, hi - 1), OneBlock(cfg, c, hi - 1);
      BlocksInsert(cfg, c, lo, hi - 1);
      OneBlockInserts(cfg, c, hi - 1);
      assert forall w :: w in front + block ==> w in front || w in block;
    }
  }

  lemma {:induction false} InParts(a: seq<Write>, b: seq<Write>, c: seq<Write>, d: seq<Write>, w: Write)
    requires (forall x :: x in a ==> x.Insert?) && (forall x :: x in b ==> x.Insert?)
    requires (forall x :: x in c ==> x.Handle?) && w.Snap?
    ensures w in a + b + c + d <==> w in d
  {
  }

  /** The snapshots among the ingest writes are those of the blocks that touch the configured vault. */
  lemma {:induction false} IngestSnaps(cfg: Config, c: Chain, from: nat, t: nat, w: Write)
    requires from <= t < |c| && w.Snap?
    ensures w in Ingest(cfg, c, from, t) <==>
            from <= w.height <= t && VaultTouched(cfg, c, w.height) &&
            w == Snap(cfg.vault, w.height, StateAt(c, w.height, cfg.vault))
  {
    BlocksInsert(cfg, c, from, t + 1);
    LogWritesHeights(Logs(cfg, c, from, t + 1));
    InParts(BlockWrites(cfg, c, from, t + 1), CursorWrites(cfg, c, t), LogWrites(Logs(cfg, c, from, t + 1)),
            SnapWrites(cfg, c, from, t + 1), w);
    SnapsAre(cfg, c, from, t + 1, w);
  }

  lemma {:induction false} IngestReadableIff(cfg: Config, c: Chain, from: nat, t: nat)
    requires from <= t < |c|
    ensures Readable(Ingest(cfg, c, from, t)) <==> TouchedReadable(cfg, c, from, t)
  {
    var ws := Ingest(cfg, c, from, t);
    if Readable(ws) {
      forall h | from <= h <= t && VaultTouched(cfg, c, h)
        ensures StateAt(c, h, cfg.vault).Some?
      {
        IngestSnaps(cfg, c, from, t, Snap(cfg.vault, h, StateAt(c, h, cfg.vault)));
      }
    }
    if TouchedReadable(cfg, c, from, t) {
      forall w | w in ws && w.Snap?
        ensures w.state.Some?
      {
        IngestSnaps(cfg, c, from, t, w);
      }
    }
  }

  lemma {:induction false} IngestOkIff(cfg: Config, base: Db, c: Chain, from: nat, t: nat)
    requires from <= t < |c|
    ensures Exec(cfg, base, Ingest(cfg, c, from, t)).Ok? <==>
            TouchedReadable(cfg, c, from, t) &&
            CanHandleAll(cfg, Derived(base, cfg.chainId), Logs(cfg, c, from, t + 1))
  {
    IngestInserts(cfg, c, from, t);
    IngestLogs(cfg, c, from, t);
    ExecOkIff(cfg, base, Ingest(cfg, c, from, t));
    IngestReadableIff(cfg, c, from, t);
    HandledIff(cfg, Derived(base, cfg.chainId), Logs(cfg, c, from, t + 1));
  }

  // ---------------------------------------------------------------- heartbeats

  /** What every history keeps of the tables: rows carry the columns of their table and the height of their key. */
  ghost predicate Regular(cfg: Config, db: Db) {
    WellTyped(Derived(db, cfg.chainId)) && StateKeyed(cfg, db)
  }

  /** The vault is registered and active once `logs` are handled over tables `d`. */
  predicate ActiveAfter(cfg: Config, d: Db, logs: seq<Located>, a: Address) {
    var k := VaultKey(cfg.chainId, a);
    var phase, status := PhaseOf(cfg, logs, k), LastStatus(cfg, logs, k);
    if k in d then
      if status.Some? then status.value.0 == 0 else d[k].cols.VaultCols? && d[k].cols.vaultStatus == 0
    else
      phase.Made? && (phase.updated ==> status.Some? && status.value.0 == 0)
  }

  /** A vault row after some logs, when none of them changed its status. */
  lemma {:induction false} StatusKept(cfg: Config, d: Db, ls: seq<Located>, k: Key)
    requires WellTyped(d) && ApplyLogs(cfg, d, ls).Ok? && k.VaultKey? && k in d && !HasUpdate(cfg, ls, k)
    ensures k in ApplyLogs(cfg, d, ls).value && ApplyLogs(cfg, d, ls).value[k] == d[k]
  {
    if ls != [] {
      StatusKept(cfg, d, ls[..|ls| - 1], k);
      ApplyLogsTyped(cfg, d, ls[..|ls| - 1]);
      ApplyLogRow(cfg, ApplyLogs(cfg, d, ls[..|ls| - 1]).value, ls[|ls| - 1], k);
    }
  }

  /** A vault registered by the logs and not changed since is active. */
  lemma {:induction false} NewVaultActive(cfg: Config, d: Db, ls: seq<Located>, k: Key)
    requires WellTyped(d) && ApplyLogs(cfg, d, ls).Ok? && k.VaultKey? && k !in d
    requires PhaseOf(cfg, ls, k).Made? && !PhaseOf(cfg, ls, k).updated
    ensures WellTyped(ApplyLogs(cfg, d, ls).value) && k in ApplyLogs(cfg, d, ls).value
    ensures ApplyLogs(cfg, d, ls).value[k].cols.vaultStatus == 0
  {
    var front, l := ls[..|ls| - 1], ls[|ls| - 1];
    var mid := ApplyLogs(cfg, d, front).value;
    FirstPassVault(cfg, d, front, k);
    FirstPassVault(cfg, d, ls, k);
    ApplyLogRow(cfg, mid, l, k);
    if PhaseOf(cfg, front, k).Made? {
      NewVaultActive(cfg, d, front, k);
    }
  }

  lemma {:induction false} ActiveAfterIff(cfg: Config, d: Db, ls: seq<Located>, a: Address)
    requires WellTyped(d) && ApplyLogs(cfg, d, ls).Ok?
    ensures a in ActiveVaults(ApplyLogs(cfg, d, ls).value, cfg.chainId) <==> ActiveAfter(cfg, d, ls, a)
  {
    var k, d' := VaultKey(cfg.chainId, a), ApplyLogs(cfg, d, ls).value;
    FirstPassVault(cfg, d, ls, k);
    if k in d && !HasUpdate(cfg, ls, k) {
      StatusKept(cfg, d, ls, k);
    } else if k !in d && PhaseOf(cfg, ls, k).Made? && !PhaseOf(cfg, ls, k).updated {
      NewVaultActive(cfg, d, ls, k);
    }
  }

  /** Some block of the range within the heartbeat interval of its end touches the configured vault. */
  ghost predicate TouchedLately(cfg: Config, c: Chain, from: nat, t: nat)
    requires from <= t < |c|
  {
    exists h :: from <= h <= t && t - h < HEARTBEAT_BLOCKS && VaultTouched(cfg, c, h)
  }

  /** Some of the writes is a snapshot under `k`. */
  ghost predicate Snaps(cfg: Config, ws: seq<Write>, k: Key) {
    exists w :: w in ws && w.Snap? && k == SnapshotKey(cfg.chainId, w.contract, w.height)
  }

  lemma {:induction false} SnapsLast(cfg: Config, ws: seq<Write>, k: Key)
    requires ws != []
    ensures Snaps(cfg, ws, k) <==>
            Snaps(cfg, ws[..|ws| - 1], k) || Snaps(cfg, [ws[|ws| - 1]], k)
  {
    var front, last := ws[..|ws| - 1], ws[|ws| - 1];
    assert forall w :: w in ws <==> w in front || w == last;
    assert forall w :: w in [last] <==> w == last;
  }

  lemma {:induction false} ApplySnap(cfg: Config, db: Db, w: Write, k: Key)
    requires ApplyWrite(cfg, db, w).Ok? && k.SnapshotKey? && (w.Insert? ==> !w.key.SnapshotKey?)
    ensures var db' := ApplyWrite(cfg, db, w).value;
            && (k in db ==> k in db' && db'[k] == db[k])
            && (k in db' && k !in db ==> db'[k].block == k.height)
            && (k in db' <==> (k in db || Snaps(cfg, [w], k)))
  {
    assert forall x :: x in [w] <==> x == w;
  }

  /** What some writes do to snapshots: old ones stay, new ones are the writes' own. */
  lemma {:induction false} ExecSnaps(cfg: Config, db: Db, ws: seq<Write>, k: Key)
    requires Exec(cfg, db, ws).Ok? && k.SnapshotKey?
    requires forall w :: w in ws && w.Insert? ==> !w.key.SnapshotKey?
    ensures var db' := Exec(cfg, db, ws).value;
            && (k in db ==> k in db' && db'[k] == db[k])
            && (k in db' && k !in db ==> db'[k].block == k.height)
            && (k in db' <==> (k in db || Snaps(cfg, ws, k)))
  {
    if ws != [] {
      var front, last := ws[..|ws| - 1], ws[|ws| - 1];
      assert last in ws;
      assert forall w :: w in front ==> w in ws;
      ExecSnaps(cfg, db, front, k);
      ApplySnap(cfg, Exec(cfg, db, front).value, last, k);
      SnapsLast(cfg, ws, k);
    }
  }

  lemma {:induction false} FaithfulInserts(cfg: Config, c: Chain, from: nat, t: nat, ws: seq<Write>)
    requires t < |c| && forall w :: w in ws ==> Faithful(cfg, c, from, t, w)
    ensures forall w :: w in ws && w.Insert? ==> !w.key.SnapshotKey? && !IsDerivedKey(w.key)
  {
  }

  lemma {:induction false} IngestInserts(cfg: Config, c: Chain, from: nat, t: nat)
    requires from <= t < |c|
    ensures forall w :: w in Ingest(cfg, c, from, t) && w.Insert? ==> !w.key.SnapshotKey? && !IsDerivedKey(w.key)
  {
    IngestFaithful(cfg, c, from, t);
    FaithfulInserts(cfg, c, from, t, Ingest(cfg, c, from, t));
  }

  /** After the ingest writes a vault needs a heartbeat if it did before and was not just snapshotted. */
  lemma {:induction false} NeedsBeatAfter(cfg: Config, base: Db, c: Chain, from: nat, t: nat, mid: Db, a: Address)
    requires from <= t < |c| && Exec(cfg, base, Ingest(cfg, c, from, t)) == Ok(mid) && StateKeyed(cfg, base)
    ensures NeedsBeat(mid, cfg.chainId, a, t) <==>
            NeedsBeat(base, cfg.chainId, a, t) && !(a == cfg.vault && TouchedLately(cfg, c, from, t))
  {
    var ws := Ingest(cfg, c, from, t);
    IngestInserts(cfg, c, from, t);
    if !NeedsBeat(base, cfg.chainId, a, t) {
      var k :| k in base && k.SnapshotKey? && k.cid == cfg.chainId && k.contract == a &&
               t - base[k].block < HEARTBEAT_BLOCKS;
      ExecSnaps(cfg, base, ws, k);
    } else if a == cfg.vault && TouchedLately(cfg, c, from, t) {
      var h :| from <= h <= t && t - h < HEARTBEAT_BLOCKS && VaultTouched(cfg, c, h);
      JustSnapped(cfg, base, c, from, t, mid, h);
    } else if !NeedsBeat(mid, cfg.chainId, a, t) {
      var k :| k in mid && k.SnapshotKey? && k.cid == cfg.chainId && k.contract == a &&
               t - mid[k].block < HEARTBEAT_BLOCKS;
      ExecSnaps(cfg, base, ws, k);
      assert Snaps(cfg, ws, k);
      var w :| w in ws && w.Snap? && k == SnapshotKey(cfg.chainId, w.contract, w.height);
      IngestSnaps(cfg, c, from, t, w);
      assert TouchedLately(cfg, c, from, t);
    }
  }

  lemma {:induction false} JustSnapped(cfg: Config, base: Db, c: Chain, from: nat, t: nat, mid: Db, h: nat)
    requires from <= h <= t < |c| && Exec(cfg, base, Ingest(cfg, c, from, t)) == Ok(mid) && StateKeyed(cfg, base)
    requires VaultTouched(cfg, c, h)
    ensures SnapshotKey(cfg.chainId, cfg.vault, h) in mid && mid[SnapshotKey(cfg.chainId, cfg.vault, h)].block == h
  {
    var ws, k := Ingest(cfg, c, from, t), SnapshotKey(cfg.chainId, cfg.vault, h);
    IngestInserts(cfg, c, from, t);
    IngestSnaps(cfg, c, from, t, Snap(cfg.vault, h, StateAt(c, h, cfg.vault)));
    assert Snaps(cfg, ws, k);
    ExecSnaps(cfg, base, ws, k);
    assert k in base ==> base[k].block == h;
  }

  /** The vaults whose state the heartbeat at the end of the range reads: the configured one and every vault active by
      then, if it has no snapshot within the interval. */
  ghost predicate Due(cfg: Config, base: Db, c: Chain, from: nat, t: nat, a: Address)
    requires from <= t < |c|
  {
    && (a == cfg.vault || ActiveAfter(cfg, Derived(base, cfg.chainId), Logs(cfg, c, from, t + 1), a))
    && NeedsBeat(base, cfg.chainId, a, t) && !(a == cfg.vault && TouchedLately(cfg, c, from, t))
  }

  ghost predicate DueReadable(cfg: Config, base: Db, c: Chain, from: nat, t: nat)
    requires from <= t < |c|
  {
    forall a :: Due(cfg, base, c, from, t, a) ==> StateAt(c, t, a).Some?
  }

  lemma {:induction false} BeatsReadableIff(cfg: Config, db: Db, c: Chain, t: nat, vaults: seq<Address>)
    requires t < |c|
    ensures Readable(Beats(cfg, db, c, t, vaults)) <==>
            forall a :: a in vaults && NeedsBeat(db, cfg.chainId, a, t) ==> StateAt(c, t, a).Some?
  {
    if vaults != [] {
      var front, last := vaults[..|vaults| - 1], vaults[|vaults| - 1];
      var before := Beats(cfg, db, c, t, front);
      var beat := if NeedsBeat(db, cfg.chainId, last, t) then [Snap(last, t, StateAt(c, t, last))] else [];
      BeatsReadableIff(cfg, db, c, t, front);
      assert forall a :: a in vaults <==> a in front || a == last;
      ReadableConcat(before, beat);
      if beat != [] {
        assert beat[0] in beat;
      }
    }
  }

  lemma {:induction false} ReadableConcat(a: seq<Write>, b: seq<Write>)
    ensures Readable(a + b) <==> Readable(a) && Readable(b)
  {
    assert forall w :: w in a + b <==> w in a || w in b;
  }

  /** The vaults that are due are those the heartbeat visits and finds without a recent snapshot. */
  lemma {:induction false} DueIff(cfg: Config, base: Db, c: Chain, from: nat, t: nat, mid: Db, a: Address)
    requires from <= t < |c| && Exec(cfg, base, Ingest(cfg, c, from, t)) == Ok(mid) && Regular(cfg, base)
    ensures Due(cfg, base, c, from, t, a) <==>
            a in HeartbeatVaults(cfg, mid) && NeedsBeat(mid, cfg.chainId, a, t)
  {
    var d, logs := Derived(base, cfg.chainId), Logs(cfg, c, from, t + 1);
    IngestDerives(cfg, base, c, from, t);
    ActiveAfterIff(cfg, d, logs, a);
    ActiveDerived(mid, cfg.chainId, a);
    HeartbeatVaultsListed(cfg, mid);
    NeedsBeatAfter(cfg, base, c, from, t, mid, a);
  }

  lemma {:induction false} ActiveDerived(db: Db, cid: nat, a: Address)
    ensures a in ActiveVaults(Derived(db, cid), cid) <==> a in ActiveVaults(db, cid)
  {
    var k := VaultKey(cid, a);
    assert k in Derived(db, cid) <==> k in db;
  }

  lemma {:induction false} IngestDerives(cfg: Config, base: Db, c: Chain, from: nat, t: nat)
    requires from <= t < |c| && Exec(cfg, base, Ingest(cfg, c, from, t)).Ok?
    ensures ApplyLogs(cfg, Derived(base, cfg.chainId), Logs(cfg, c, from, t + 1)) ==
            Ok(Derived(Exec(cfg, base, Ingest(cfg, c, from, t)).value, cfg.chainId))
  {
    IngestInserts(cfg, c, from, t);
    IngestLogs(cfg, c, from, t);
    ExecDerived(cfg, base, Ingest(cfg, c, from, t));
  }

  // ---------------------------------------------------------------- the tick

  /** Nothing on the tables or the chain stands in the way of the range. */
  ghost predicate RangeFeasible(cfg: Config, base: Db, c: Chain, from: nat, t: nat)
    requires from <= t < |c|
  {
    && CanHandleAll(cfg, Derived(base, cfg.chainId), Logs(cfg, c, from, t + 1))
    && TouchedReadable(cfg, c, from, t)
    && DueReadable(cfg, base, c, from, t)
  }

  lemma {:induction false} BeatsFeasible(cfg: Config, base: Db, c: Chain, from: nat, t: nat, mid: Db)
    requires from <= t < |c| && Exec(cfg, base, Ingest(cfg, c, from, t)) == Ok(mid) && Regular(cfg, base)
    ensures Readable(Beats(cfg, mid, c, t, HeartbeatVaults(cfg, mid))) <==> DueReadable(cfg, base, c, from, t)
  {
    BeatsReadableIff(cfg, mid, c, t, HeartbeatVaults(cfg, mid));
    forall a
      ensures Due(cfg, base, c, from, t, a) <==> a in HeartbeatVaults(cfg, mid) && NeedsBeat(mid, cfg.chainId, a, t)
    {
      DueIff(cfg, base, c, from, t, mid, a);
    }
  }

  lemma {:induction false} PlanFeasibleIff(cfg: Config, base: Db, c: Chain, from: nat, t: nat)
    requires from <= t < |c| && Regular(cfg, base)
    ensures PlanFails(cfg, base, c, from, t) <==> !RangeFeasible(cfg, base, c, from, t)
  {
    var ingest, ws := Ingest(cfg, c, from, t), TickWrites(cfg, base, c, from, t);
    PlanFailsIff(cfg, base, c, from, t, ws);
    HandledIff(cfg, Derived(base, cfg.chainId), Logs(cfg, c, from, t + 1));
    IngestReadableIff(cfg, c, from, t);
    IngestOkIff(cfg, base, c, from, t);
    if Exec(cfg, base, ingest).Ok? {
      var mid := Exec(cfg, base, ingest).value;
      BeatsFeasible(cfg, base, c, from, t, mid);
      ReadableConcat(ingest, Beats(cfg, mid, c, t, HeartbeatVaults(cfg, mid)));
    }
  }

  /** The range of a tick that resumes at level `resume`, if it has one, is feasible. */
  ghost predicate Clear(cfg: Config, c: Chain, base: Db, resume: int)
    requires |c| > 0 && -1 <= resume
  {
    var target := Target(cfg, resume + 1, |c| - 1);
    target.Some? ==> RangeFeasible(cfg, base, c, resume + 1, target.value)
  }

  /** Nothing on the tables or the chain stands in the way of the tick. */
  ghost predicate Feasible(cfg: Config, c: Chain, db: Db, last: int)
    requires |c| > 0 && -1 <= last
  {
    !RollbackBlocked(cfg, db, c, last) && Clear(cfg, c, Base(cfg, db, c, last), Resume(cfg, db, c, last))
  }

  lemma {:induction false} BaseRegular(cfg: Config, db: Db, c: Chain, last: int)
    requires -1 <= last && Regular(cfg, db)
    ensures Regular(cfg, Base(cfg, db, c, last))
  {
    if Mismatch(cfg, db, c, last) {
      T.CutDerived(db, cfg.chainId, Root(cfg, db, c, last));
    }
  }

  lemma {:induction false} RangeFailsIff(cfg: Config, c: Chain, base: Db, resume: int)
    requires |c| > 0 && -1 <= resume && Regular(cfg, base)
    ensures RangeFails(cfg, c, base, resume) <==> !Clear(cfg, c, base, resume)
  {
    var target := Target(cfg, resume + 1, |c| - 1);
    if target.Some? {
      PlanFeasibleIff(cfg, base, c, resume + 1, target.value);
    }
  }

  /** On any such tables, before the call. */
  lemma {:induction false} TickFeasibleIff(cfg: Config, c: Chain, db: Db, last: int)
    requires |c| > 0 && -1 <= last && Regular(cfg, db)
    ensures TickFails(cfg, c, db, last) <==> !Feasible(cfg, c, db, last)
  {
    BaseRegular(cfg, db, c, last);
    RangeFailsIff(cfg, c, Base(cfg, db, c, last), Resume(cfg, db, c, last));
  }

  /** After every history, on every chain: a tick whose calls are all answered fails if and only if its rollback is
      refused, or its range has a log that does not decode, a vote without a proposal, or a vault due for a snapshot
      whose state the chain does not show. */
  lemma {:induction false} AnsweredTickFailsIff(cfg: Config, stores: seq<Store>, chains: seq<Chain>,
                                                outcomes: seq<Outcome>, views: seq<Chain>, n: nat, c: Chain)
    requires History(cfg, stores, chains, outcomes, views) && n <= |chains| && |c| > 0
    ensures TickFails(cfg, c, stores[n].db, Cursor(stores[n].runs, cfg.chainId)) <==>
            !Feasible(cfg, c, stores[n].db, Cursor(stores[n].runs, cfg.chainId))
  {
    T.HistoryExcess(cfg, stores, chains, outcomes, views, n, 0, true);
    AlwaysAnchored(cfg, stores, chains, outcomes, views, n);
    TickFeasibleIff(cfg, c, stores[n].db, Cursor(stores[n].runs, cfg.chainId));
  }
}
