/** Re-indexing a range: when handling the same logs twice is a no-op, statuses and tallies included. */
module CrashReplay {
  import opened Wrappers
  import opened Ledger
  import opened Tables

  /** The rows a later log may update carry the columns of their table. */
  ghost predicate WellTyped(db: Db) {
    forall k :: k in db ==> (k.VaultKey? ==> db[k].cols.VaultCols?) && (k.ProposalKey? ==> db[k].cols.ProposalCols?)
  }

  /** What a log does to an updatable row: create it, update it (vault status, proposal execution), or neither. */
  datatype Role = Creates | Updates | Neither

  function RoleOf(cfg: Config, l: Located, k: Key): Role {
    match l.log.event
    case VaultRegistered(vault, _) => if k == VaultKey(cfg.chainId, vault) then Creates else Neither
    case VaultStatusChanged(vault, _, _) => if k == VaultKey(cfg.chainId, vault) then Updates else Neither
    case ProposalCreated(id, _, _) => if k == ProposalKey(cfg.chainId, ClampI64(id)) then Creates else Neither
    case ProposalExecuted(id) => if k == ProposalKey(cfg.chainId, ClampI64(id)) then Updates else Neither
    case _ => Neither
  }

  /** What a log sequence did to a row it found missing.  `early`: an update came before the creation and found
      nothing.  `updated`: an update came after it. */
  datatype Phase = Missing(early: bool) | Made(early: bool, updated: bool)

  function PhaseOf(cfg: Config, ls: seq<Located>, k: Key): Phase {
    if ls == [] then
      Missing(false)
    else
      var before := PhaseOf(cfg, ls[..|ls| - 1], k);
      match RoleOf(cfg, ls[|ls| - 1], k)
      case Creates => if before.Missing? then Made(before.early, false) else before
      case Updates => if before.Missing? then Missing(true) else before.(updated := true)
      case Neither => before
  }

  predicate HasUpdate(cfg: Config, ls: seq<Located>, k: Key) {
    ls != [] && (HasUpdate(cfg, ls[..|ls| - 1], k) || RoleOf(cfg, ls[|ls| - 1], k).Updates?)
  }

  /** The update of this row was handled before the row was created, and none came after: a second pass would
      apply it. */
  predicate LateCreation(cfg: Config, db: Db, ls: seq<Located>, k: Key) {
    k !in db && PhaseOf(cfg, ls, k) == Made(true, false)
  }

  ghost predicate NoLateCreation(cfg: Config, db: Db, ls: seq<Located>) {
    forall k :: !LateCreation(cfg, db, ls, k)
  }

  /** The status the last status change in `ls` gives a vault. */
  function LastStatus(cfg: Config, ls: seq<Located>, k: Key): Option<(nat, nat)> {
    if ls == [] then
      None
    else
      var l := ls[|ls| - 1];
      if RoleOf(cfg, l, k).Updates? && l.log.event.VaultStatusChanged? then
        Some((l.log.event.status, ClampI64(l.log.event.timestamp)))
      else
        LastStatus(cfg, ls[..|ls| - 1], k)
  }

  // ---------------------------------------------------------------- first pass

  lemma {:induction false} ApplyLogTyped(cfg: Config, db: Db, l: Located)
    requires WellTyped(db) && ApplyLog(cfg, db, l).Ok?
    ensures WellTyped(ApplyLog(cfg, db, l).value)
  {
  }

  lemma {:induction false} ApplyLogsTyped(cfg: Config, db: Db, ls: seq<Located>)
    requires WellTyped(db) && ApplyLogs(cfg, db, ls).Ok?
    ensures WellTyped(ApplyLogs(cfg, db, ls).value)
  {
    if ls != [] {
      ApplyLogsTyped(cfg, db, ls[..|ls| - 1]);
      ApplyLogTyped(cfg, ApplyLogs(cfg, db, ls[..|ls| - 1]).value, ls[|ls| - 1]);
    }
  }

  /** How one log changes one updatable row. */
  lemma {:induction false} ApplyLogRow(cfg: Config, db: Db, l: Located, k: Key)
    requires WellTyped(db) && ApplyLog(cfg, db, l).Ok?
    ensures var db', role := ApplyLog(cfg, db, l).value, RoleOf(cfg, l, k);
            && (k in db ==> k in db')
            && (k.VaultKey? || k.ProposalKey? ==> (k in db' <==> k in db || role.Creates?))
            && (k.VaultKey? && k in db' ==>
                && (role.Updates? && k in db ==> db'[k] == db[k].(cols := db[k].cols.(
                      vaultStatus := l.log.event.status, statusChangedAt := Some(ClampI64(l.log.event.timestamp)))))
                && (!role.Updates? && k in db ==> db'[k] == db[k])
                && (k !in db ==> db'[k].cols.statusChangedAt == None))
            && (k.ProposalKey? && k in db' ==>
                && (k in db && db[k].cols.status >= 2 ==> db'[k].cols.status >= 2)
                && (role.Updates? && k in db ==> db'[k].cols.status >= 2)
                && (!role.Updates? && k in db ==> db'[k].cols.status == db[k].cols.status)
                && (k !in db ==> db'[k].cols.status == 0))
  {
  }

  /** A vault row after handling `ls`: the last status change wins, if any found the row. */
  lemma {:induction false} FirstPassVault(cfg: Config, db: Db, ls: seq<Located>, k: Key)
    requires WellTyped(db) && ApplyLogs(cfg, db, ls).Ok? && k.VaultKey?
    ensures var d, phase := ApplyLogs(cfg, db, ls).value, PhaseOf(cfg, ls, k);
            && WellTyped(d)
            && (k in d <==> k in db || phase.Made?)
            && (HasUpdate(cfg, ls, k) <==> LastStatus(cfg, ls, k).Some?)
            && (HasUpdate(cfg, ls, k) <==> phase.early || (phase.Made? && phase.updated))
            && (k in d && (if k in db then HasUpdate(cfg, ls, k) else phase.updated) ==>
                d[k].cols.statusChangedAt.Some? &&
                LastStatus(cfg, ls, k) == Some((d[k].cols.vaultStatus, d[k].cols.statusChangedAt.value)))
            && (k in d && k !in db && !phase.updated ==> d[k].cols.statusChangedAt == None)
  {
    if ls != [] {
      var front, l := ls[..|ls| - 1], ls[|ls| - 1];
      FirstPassVault(cfg, db, front, k);
      ApplyLogTyped(cfg, ApplyLogs(cfg, db, front).value, l);
      ApplyLogRow(cfg, ApplyLogs(cfg, db, front).value, l, k);
    }
  }

  /** A proposal row after handling `ls`: executed exactly if some execution found the row. */
  lemma {:induction false} FirstPassProposal(cfg: Config, db: Db, ls: seq<Located>, k: Key)
    requires WellTyped(db) && ApplyLogs(cfg, db, ls).Ok? && k.ProposalKey?
    ensures var d, phase := ApplyLogs(cfg, db, ls).value, PhaseOf(cfg, ls, k);
            && WellTyped(d)
            && (k in d <==> k in db || phase.Made?)
            && (HasUpdate(cfg, ls, k) <==> phase.early || (phase.Made? && phase.updated))
            && (k in d && (if k in db then HasUpdate(cfg, ls, k) else phase.updated) ==> d[k].cols.status >= 2)
            && (k in d && k !in db && !phase.updated ==> d[k].cols.status == 0)
  {
    if ls != [] {
      var front, l := ls[..|ls| - 1], ls[|ls| - 1];
      FirstPassProposal(cfg, db, front, k);
      ApplyLogTyped(cfg, ApplyLogs(cfg, db, front).value, l);
      ApplyLogRow(cfg, ApplyLogs(cfg, db, front).value, l, k);
    }
  }

  /** Handled logs leave their rows behind. */
  lemma {:induction false} ApplyLogKeeps(cfg: Config, db: Db, l: Located, k: Key)
    requires ApplyLog(cfg, db, l).Ok?
    ensures k in db ==> k in ApplyLog(cfg, db, l).value
    ensures EntryOf(cfg, l).Some? ==> EntryOf(cfg, l).value.0 in ApplyLog(cfg, db, l).value
    ensures l.log.event.VaultRegistered? ==> VaultKey(cfg.chainId, l.log.event.vault) in ApplyLog(cfg, db, l).value
  {
  }

  /** The rows of log `l` are all present. */
  predicate Present(cfg: Config, db: Db, l: Located) {
    && !l.log.event.Undecodable?
    && (EntryOf(cfg, l).Some? ==> EntryOf(cfg, l).value.0 in db)
    && (l.log.event.VaultRegistered? ==> VaultKey(cfg.chainId, l.log.event.vault) in db)
  }

  lemma {:induction false} AllPresent(cfg: Config, db: Db, ls: seq<Located>, l: Located)
    requires ApplyLogs(cfg, db, ls).Ok? && l in ls
    ensures Present(cfg, ApplyLogs(cfg, db, ls).value, l)
  {
    var front, last := ls[..|ls| - 1], ls[|ls| - 1];
    var mid := ApplyLogs(cfg, db, front).value;
    ApplyLogKeeps(cfg, mid, last, VaultKey(0, 0));
    if l in front {
      AllPresent(cfg, db, front, l);
      if EntryOf(cfg, l).Some? {
        ApplyLogKeeps(cfg, mid, last, EntryOf(cfg, l).value.0);
      }
      if l.log.event.VaultRegistered? {
        ApplyLogKeeps(cfg, mid, last, VaultKey(cfg.chainId, l.log.event.vault));
      }
    } else {
      assert ls == front + [last];
    }
  }

  // ---------------------------------------------------------------- second pass

  /** A log whose rows are present changes at most the row it updates. */
  lemma {:induction false} SecondLog(cfg: Config, db: Db, l: Located)
    requires Present(cfg, db, l) && WellTyped(db)
    ensures ApplyLog(cfg, db, l).Ok?
    ensures ApplyLog(cfg, db, l).value.Keys == db.Keys && WellTyped(ApplyLog(cfg, db, l).value)
    ensures forall k :: k in db && !RoleOf(cfg, l, k).Updates? ==> ApplyLog(cfg, db, l).value[k] == db[k]
  {
  }

  function WithStatus(r: Row, s: Option<(nat, nat)>): Row
    requires r.cols.VaultCols?
  {
    if s.None? then r else r.(cols := r.cols.(vaultStatus := s.value.0, statusChangedAt := Some(s.value.1)))
  }

  /** One row of the second pass. */
  ghost predicate SecondRow(cfg: Config, db: Db, ls: seq<Located>, db': Db, k: Key)
    requires WellTyped(db) && WellTyped(db') && k in db && k in db'
  {
    if k.VaultKey? then
      db'[k] == WithStatus(db[k], LastStatus(cfg, ls, k))
    else if k.ProposalKey? then
      && (!HasUpdate(cfg, ls, k) || db[k].cols.status >= 2 ==> db'[k] == db[k])
      && (HasUpdate(cfg, ls, k) ==> db'[k].cols.status >= 2)
    else
      db'[k] == db[k]
  }

  /** The second pass over `ls`, row by row: no key appears; a vault takes the last status in `ls`; a proposal
      that was not executed becomes so if `ls` executes it; every other row stays. */
  ghost predicate SecondPass(cfg: Config, db: Db, ls: seq<Located>, db': Db)
    requires WellTyped(db)
  {
    db'.Keys == db.Keys && WellTyped(db') && forall k :: k in db ==> SecondRow(cfg, db, ls, db', k)
  }

  lemma {:induction false} SecondRowStep(cfg: Config, db: Db, ls: seq<Located>, mid: Db, l: Located, db': Db, k: Key)
    requires WellTyped(db) && WellTyped(mid) && WellTyped(db') && k in db && k in mid && k in db'
    requires ls != [] && l == ls[|ls| - 1] && SecondRow(cfg, db, ls[..|ls| - 1], mid, k)
    requires ApplyLog(cfg, mid, l) == Ok(db') && (!RoleOf(cfg, l, k).Updates? ==> db'[k] == mid[k])
    ensures SecondRow(cfg, db, ls, db', k)
  {
    ApplyLogRow(cfg, mid, l, k);
    if RoleOf(cfg, l, k).Updates? && k.ProposalKey? && mid[k].cols.status >= 2 {
      assert db' == mid;
    }
  }

  lemma {:induction false} SecondPassStep(cfg: Config, db: Db, ls: seq<Located>, mid: Db, l: Located)
    requires WellTyped(db) && ls != [] && SecondPass(cfg, db, ls[..|ls| - 1], mid)
    requires l == ls[|ls| - 1] && Present(cfg, mid, l)
    ensures ApplyLog(cfg, mid, l).Ok? && SecondPass(cfg, db, ls, ApplyLog(cfg, mid, l).value)
  {
    SecondLog(cfg, mid, l);
    var db' := ApplyLog(cfg, mid, l).value;
    forall k | k in db
      ensures k in db' && SecondRow(cfg, db, ls, db', k)
    {
      SecondRowStep(cfg, db, ls, mid, l, db', k);
    }
  }

  lemma {:induction false} ReplaySecondPass(cfg: Config, db: Db, ls: seq<Located>)
    requires WellTyped(db) && forall l :: l in ls ==> Present(cfg, db, l)
    ensures ApplyLogs(cfg, db, ls).Ok? && SecondPass(cfg, db, ls, ApplyLogs(cfg, db, ls).value)
  {
    if ls != [] {
      var front, l := ls[..|ls| - 1], ls[|ls| - 1];
      ReplaySecondPass(cfg, db, front);
      assert l in ls;
      SecondPassStep(cfg, db, ls, ApplyLogs(cfg, db, front).value, l);
    }
  }

  /** One row of the second pass against the first. */
  lemma {:induction false} SecondPassRow(cfg: Config, db: Db, ls: seq<Located>, d: Db, d2: Db, k: Key)
    requires WellTyped(db) && ApplyLogs(cfg, db, ls) == Ok(d) && WellTyped(d) && SecondPass(cfg, d, ls, d2)
    requires k in d
    ensures d2[k] == d[k] <==> !LateCreation(cfg, db, ls, k)
  {
    if k.VaultKey? {
      FirstPassVault(cfg, db, ls, k);
    } else if k.ProposalKey? {
      FirstPassProposal(cfg, db, ls, k);
    } else {
      NoPhase(cfg, ls, k);
    }
  }

  lemma {:induction false} NoPhase(cfg: Config, ls: seq<Located>, k: Key)
    requires !k.VaultKey? && !k.ProposalKey?
    ensures PhaseOf(cfg, ls, k) == Missing(false)
  {
    if ls != [] {
      NoPhase(cfg, ls[..|ls| - 1], k);
    }
  }

  lemma {:induction false} MadeIsPresent(cfg: Config, db: Db, ls: seq<Located>, k: Key)
    requires WellTyped(db) && ApplyLogs(cfg, db, ls).Ok? && PhaseOf(cfg, ls, k).Made?
    ensures k in ApplyLogs(cfg, db, ls).value
  {
    if k.VaultKey? {
      FirstPassVault(cfg, db, ls, k);
    } else if k.ProposalKey? {
      FirstPassProposal(cfg, db, ls, k);
    } else {
      NoPhase(cfg, ls, k);
    }
  }

  /** Re-indexing the same logs is a no-op, tallies, statuses and executions included, if and only if no row was
      updated before the logs created it and never after. */
  lemma {:induction false} ReindexIff(cfg: Config, db: Db, ls: seq<Located>)
    requires WellTyped(db) && ApplyLogs(cfg, db, ls).Ok?
    ensures var d := ApplyLogs(cfg, db, ls).value;
            ApplyLogs(cfg, d, ls) == Ok(d) <==> NoLateCreation(cfg, db, ls)
  {
    var d := ApplyLogs(cfg, db, ls).value;
    ApplyLogsTyped(cfg, db, ls);
    forall l | l in ls
      ensures Present(cfg, d, l)
    {
      AllPresent(cfg, db, ls, l);
    }
    ReplaySecondPass(cfg, d, ls);
    var d2 := ApplyLogs(cfg, d, ls).value;
    forall k | k in d
      ensures d2[k] == d[k] <==> !LateCreation(cfg, db, ls, k)
    {
      SecondPassRow(cfg, db, ls, d, d2, k);
    }
    forall k | LateCreation(cfg, db, ls, k)
      ensures k in d
    {
      MadeIsPresent(cfg, db, ls, k);
    }
    if NoLateCreation(cfg, db, ls) {
      assert d2 == d;
    }
  }

  /** Crash and replay: handling a prefix, then everything from the start, is handling everything once. */
  lemma {:induction false} CrashThenReplay(cfg: Config, db: Db, done: seq<Located>, rest: seq<Located>)
    requires WellTyped(db) && ApplyLogs(cfg, db, done).Ok? && NoLateCreation(cfg, db, done)
    ensures ApplyLogs(cfg, ApplyLogs(cfg, db, done).value, done + rest) == ApplyLogs(cfg, db, done + rest)
  {
    var d := ApplyLogs(cfg, db, done).value;
    ReindexIff(cfg, db, done);
    ApplyLogsConcat(cfg, d, done, rest);
    ApplyLogsConcat(cfg, db, done, rest);
  }

  /** Re-indexing is not always a no-op, whatever the insert-if-absent writes suggest: a status change seen
      before its vault is registered is lost by the first pass and applied by the second. */
  lemma {:induction false} ReindexChangesStatus(cfg: Config, tx: Word)
    ensures var change := Located(0, Log(cfg.gateway, 0, tx, VaultStatusChanged(7, 1, 100)));
            var register := Located(0, Log(cfg.gateway, 1, tx, VaultRegistered(7, "vault")));
            var once := ApplyLogs(cfg, map[], [change, register]);
            once.Ok? && ApplyLogs(cfg, once.value, [change, register]) != once
  {
    var change := Located(0, Log(cfg.gateway, 0, tx, VaultStatusChanged(7, 1, 100)));
    var register := Located(0, Log(cfg.gateway, 1, tx, VaultRegistered(7, "vault")));
    var k := VaultKey(cfg.chainId, 7);
    var ls := [change, register];
    assert ls[..1] == [change] && [change][..0] == [];
    assert ApplyLogs(cfg, map[], [change]) == Ok(map[]);
    assert PhaseOf(cfg, [change], k) == Missing(true);
    assert LateCreation(cfg, map[], ls, k);
    ReindexIff(cfg, map[], ls);
  }
}
