/** The index agrees with a chain: what that means, and exactly which ticks keep it so. */
module Sync {
  import opened Wrappers
  import opened Ledger
  import opened Tables
  import opened EventFold
  import opened TickPlan
  import opened PlanFacts
  import opened TickContract

  /** Every header and snapshot stored at a height in `(lo, hi]` is what `c` shows at that height. */
  ghost predicate StateMirrors(cfg: Config, db: Db, lo: int, hi: int, c: Chain) {
    forall k :: k in db && k.cid == cfg.chainId && IsStateKey(k) && lo < db[k].block <= hi ==> Mirrors(c, k, db[k])
  }

  /** The index up to level `cur` (-1: nothing) is exactly the index of chain `v`: the event tables equal the
      fold of its logs, every stored header and snapshot is its own, and the header at the cursor is stored. */
  ghost predicate Synced(cfg: Config, db: Db, cur: int, v: Chain) {
    && -1 <= cur < |v|
    && StateKeyed(cfg, db)
    && (cur >= 0 ==> BlockKey(cfg.chainId, cur) in db)
    && StateMirrors(cfg, db, -1, cur, v)
    && UpTo(Events(db, cfg.chainId), cur) == Canonical(cfg, v, cur)
  }

  /** Event rows above level `last` agree with the canonical rows up to `t`: none occupies a canonical key with
      a different row, and none at or below `t` is foreign. */
  ghost predicate EventsAgree(cfg: Config, db: Db, last: int, t: nat, c: Chain)
    requires t < |c|
  {
    var e, want := Events(db, cfg.chainId), Canonical(cfg, c, t);
    forall k :: k in e && e[k].block > last ==>
      (k in want ==> e[k] == want[k]) && (e[k].block <= t ==> k in want)
  }

  /** Rows left above the cursor by interrupted ticks belong to chain `c`. */
  ghost predicate LeftoversAgree(cfg: Config, db: Db, last: int, t: nat, c: Chain)
    requires t < |c|
  {
    EventsAgree(cfg, db, last, t, c) && StateMirrors(cfg, db, last, t, c)
  }

  /** Only the blocks up to the cursor matter. */
  lemma {:induction false} SyncedPrefix(cfg: Config, db: Db, cur: int, v: Chain, c: Chain)
    requires Synced(cfg, db, cur, v) && cur < |c| && c[..cur + 1] == v[..cur + 1]
    ensures Synced(cfg, db, cur, c)
  {
    LogsPrefix(cfg, v, c, 0, cur + 1);
    forall k | k in db && k.cid == cfg.chainId && IsStateKey(k) && -1 < db[k].block <= cur
      ensures Mirrors(c, k, db[k])
    {
      var h := k.height;
      assert Mirrors(v, k, db[k]);
      assert c[..h + 1] == c[..cur + 1][..h + 1] && v[..h + 1] == v[..cur + 1][..h + 1];
      assert c[..h] == c[..cur + 1][..h] && v[..h] == v[..cur + 1][..h];
      assert c[h] == c[..cur + 1][h] && v[h] == v[..cur + 1][h];
    }
  }

  /** One-hash reorg detection: the single comparison at the cursor sees a reorg exactly when the node's chain reaches
      the cursor and some block up to it was replaced; if it reaches the cursor and none was, the whole index is the
      chain's.  On a chain that ends below the cursor nothing is compared. */
  lemma {:induction false} DetectionComplete(cfg: Config, db: Db, cur: int, v: Chain, c: Chain)
    requires Synced(cfg, db, cur, v)
    ensures Mismatch(cfg, db, c, cur) <==> cur < |c| && c[..cur + 1] != v[..cur + 1]
    ensures cur < |c| && !Mismatch(cfg, db, c, cur) ==> Synced(cfg, db, cur, c)
  {
    if cur < |c| {
      if cur >= 0 {
        var k := BlockKey(cfg.chainId, cur);
        assert Mirrors(v, k, db[k]);
        BlockHashDecidesPrefix(v, c, cur);
      }
      if c[..cur + 1] == v[..cur + 1] {
        SyncedPrefix(cfg, db, cur, v, c);
      }
    }
  }

  /** Rows at or below `last`, and keys without a row, come out canonical; other rows come out unchanged. */
  lemma {:induction false} FoldOntoCanonical(cfg: Config, e: Db, last: int, t: nat, c: Chain, k: Key)
    requires -1 <= last < t < |c| && UpTo(e, last) == Canonical(cfg, c, last)
    ensures var got, want := FoldEvents(cfg, e, Logs(cfg, c, last + 1, t + 1)), Canonical(cfg, c, t);
            && (k in e ==> k in got && got[k] == e[k])
            && (k in want ==> want[k].block <= t)
            && (k !in e || e[k].block <= last ==>
                (k in UpTo(got, t) <==> k in want) && (k in want ==> k in got && got[k] == want[k]))
  {
    FoldLookup(cfg, e, Logs(cfg, c, last + 1, t + 1), k);
    CanonicalLookup(cfg, c, last, k);
    CanonicalLookup(cfg, c, t, k);
    FirstSplit(cfg, c, last, t, k);
    assert k in UpTo(e, last) <==> k in Canonical(cfg, c, last);
    assert k in UpTo(e, last) ==> UpTo(e, last)[k] == Canonical(cfg, c, last)[k];
  }

  /** Folding further logs onto tables that are canonical up to `last` gives the canonical tables up to `t`
      exactly when the rows already above `last` agree with them. */
  lemma {:induction false} EventsIff(cfg: Config, db: Db, last: int, t: nat, c: Chain)
    requires -1 <= last < t < |c|
    requires UpTo(Events(db, cfg.chainId), last) == Canonical(cfg, c, last)
    ensures UpTo(FoldEvents(cfg, Events(db, cfg.chainId), Logs(cfg, c, last + 1, t + 1)), t) == Canonical(cfg, c, t)
            <==> EventsAgree(cfg, db, last, t, c)
  {
    var e := Events(db, cfg.chainId);
    var got, want := FoldEvents(cfg, e, Logs(cfg, c, last + 1, t + 1)), Canonical(cfg, c, t);
    forall k
      ensures k in e ==> k in got && got[k] == e[k]
      ensures k in want ==> want[k].block <= t
      ensures k !in e || e[k].block <= last ==>
                (k in UpTo(got, t) <==> k in want) && (k in want ==> k in got && got[k] == want[k])
    {
      FoldOntoCanonical(cfg, e, last, t, c, k);
    }
    if EventsAgree(cfg, db, last, t, c) {
      assert forall k :: k in e && e[k].block > last ==>
          (k in UpTo(got, t) <==> k in want) && (k in want ==> got[k] == want[k]);
      assert UpTo(got, t) == want;
    } else {
      var k :| k in e && e[k].block > last &&
               !((k in want ==> e[k] == want[k]) && (e[k].block <= t ==> k in want));
      assert k in got && got[k] == e[k];
      assert UpTo(got, t) != want;
    }
  }

  /** Headers and snapshots after a pass: old rows stay, new rows mirror the chain. */
  lemma {:induction false} StateIff(cfg: Config, db: Db, last: int, t: nat, c: Chain, db': Db)
    requires -1 <= last < t && StateEffect(cfg, c, last + 1, t, db, db')
    requires StateKeyed(cfg, db) && StateMirrors(cfg, db, -1, last, c)
    ensures StateKeyed(cfg, db')
    ensures StateMirrors(cfg, db', -1, t, c) <==> StateMirrors(cfg, db, last, t, c)
  {
    if StateMirrors(cfg, db', -1, t, c) {
      forall k | k in db && k.cid == cfg.chainId && IsStateKey(k) && last < db[k].block <= t
        ensures Mirrors(c, k, db[k])
      {
        assert k in db' && db'[k] == db[k];
      }
    }
  }

  lemma {:induction false} EffectIff(cfg: Config, db: Db, last: int, t: nat, c: Chain, logs: seq<Located>, db': Db)
    requires Synced(cfg, db, last, c) && last < t < |c| && logs == Logs(cfg, c, last + 1, t + 1)
    requires Effect(cfg, c, last + 1, t, db, logs, db') && BlockKey(cfg.chainId, t) in db'
    ensures Synced(cfg, db', t, c) <==> LeftoversAgree(cfg, db, last, t, c)
  {
    EventsIff(cfg, db, last, t, c);
    StateIff(cfg, db, last, t, c, db');
  }

  /** A completed pass over `last + 1..t` leaves the index synced with the chain exactly when the rows left
      above the cursor before it agree with that chain. */
  lemma {:induction false} PassIff(cfg: Config, db: Db, last: int, t: nat, c: Chain, db': Db)
    requires Synced(cfg, db, last, c) && last < t && FullPass(cfg, c, last + 1, t, db, db')
    ensures Synced(cfg, db', t, c) <==> LeftoversAgree(cfg, db, last, t, c)
  {
    FullPassEffect(cfg, c, last + 1, t, db, db');
    EffectIff(cfg, db, last, t, c, Logs(cfg, c, last + 1, t + 1), db');
  }

  /** Deleting above a stored height at which the view and the chain agree. */
  lemma {:induction false} RollbackKeepsSync(cfg: Config, db: Db, last: int, v: Chain, root: int)
    requires Synced(cfg, db, last, v) && -1 <= root <= last
    requires root >= 0 ==> BlockKey(cfg.chainId, root) in db
    ensures Synced(cfg, DeleteAbove(db, cfg.chainId, root), root, v)
  {
    var e := Events(db, cfg.chainId);
    CanonicalCut(cfg, v, root, last);
    DeleteEvents(db, cfg.chainId, root);
    UpToUpTo(e, root, last);
    UpToUpTo(e, root, root);
  }

  lemma {:induction false} NothingAbove(cfg: Config, db: Db, root: int, t: nat, c: Chain)
    requires t < |c|
    ensures LeftoversAgree(cfg, DeleteAbove(db, cfg.chainId, root), root, t, c)
  {
  }

  /** After a rollback the index is synced with the new chain at the reorg root. */
  lemma {:induction false} RollbackSyncs(cfg: Config, db: Db, last: int, v: Chain, c: Chain)
    requires Synced(cfg, db, last, v) && Mismatch(cfg, db, c, last)
    ensures Root(cfg, db, c, last) < last < |c|
    ensures Synced(cfg, Base(cfg, db, c, last), Root(cfg, db, c, last), c)
  {
    var root := Root(cfg, db, c, last);
    RollbackKeepsSync(cfg, db, last, v, root);
    if root >= 0 {
      var k := BlockKey(cfg.chainId, root);
      assert Mirrors(v, k, db[k]);
      BlockHashDecidesPrefix(v, c, root);
    }
    SyncedPrefix(cfg, Base(cfg, db, c, last), root, v, c);
  }

  // ---------------------------------------------------------------- runs

  /** A row of `indexer_runs`; an unfinished run has no `last` and no error. */
  datatype Run = Run(cid: nat, from: nat, last: Option<nat>, failed: bool)

  datatype Store = Store(db: Db, runs: seq<Run>)

  function Max(a: int, b: int): int {
    if a >= b then a else b
  }

  /** The run moves the cursor of chain `cid`. */
  predicate Counts(run: Run, cid: nat) {
    run.cid == cid && !run.failed && run.last.Some?
  }

  /** `SELECT MAX(last_indexed_block) … WHERE error IS NULL`, with -1 for NULL. */
  function Cursor(runs: seq<Run>, cid: nat): (r: int)
    ensures r >= -1
  {
    if runs == [] then
      -1
    else
      var run := runs[|runs| - 1];
      var before := Cursor(runs[..|runs| - 1], cid);
      if Counts(run, cid) then Max(before, run.last.value) else before
  }

  /** The cursor is the maximum: no error-free run recorded more, and unless there is none, one recorded exactly it. */
  lemma {:induction false} CursorIsMax(runs: seq<Run>, cid: nat)
    ensures forall run :: run in runs && run.cid == cid && !run.failed && run.last.Some? ==>
              run.last.value <= Cursor(runs, cid)
    ensures Cursor(runs, cid) == -1 ||
            exists run :: run in runs && run.cid == cid && !run.failed && run.last == Some(Cursor(runs, cid))
  {
    if runs != [] {
      CursorIsMax(runs[..|runs| - 1], cid);
      assert runs[|runs| - 1] in runs;
    }
  }

  function ToOption(level: int): Option<nat> {
    if level < 0 then None else Some(level)
  }

  datatype Outcome = Done(recorded: int) | Stopped

  /** The runs table gained no row that moves the cursor. */
  predicate Unrecorded(runs: seq<Run>, runs': seq<Run>) {
    || runs' == runs
    || (|runs'| == |runs| + 1 && runs'[..|runs|] == runs &&
        (runs'[|runs|].failed || runs'[|runs|].last.None?))
  }

  /** The rollback this tick needs would orphan a kept vote, so the database refuses it. */
  predicate RollbackBlocked(cfg: Config, db: Db, c: Chain, last: int)
    requires -1 <= last
  {
    Mismatch(cfg, db, c, last) && Dangles(db, cfg.chainId, Root(cfg, db, c, last))
  }

  /** One tick against chain `c`: it completes and records its level, or stops anywhere and records none. */
  ghost predicate Tick(cfg: Config, c: Chain, s: Store, o: Outcome, s': Store) {
    |c| > 0 &&
    var last := Cursor(s.runs, cfg.chainId);
    (RollbackBlocked(cfg, s.db, c, last) ==> o.Stopped? && s'.db == s.db) &&
    match o
    case Done(recorded) =>
      && Advances(cfg, c, Base(cfg, s.db, c, last), Resume(cfg, s.db, c, last), s'.db, recorded)
      && s'.runs == s.runs + [Run(cfg.chainId, last + 1, ToOption(recorded), false)]
    case Stopped =>
      && (s'.db == s.db || Stops(cfg, c, Base(cfg, s.db, c, last), Resume(cfg, s.db, c, last), s'.db))
      && Unrecorded(s.runs, s'.runs)
  }

  /** A completed tick adds one run, from the height after the old cursor, error-free, with the level it recorded (none
      below zero). */
  lemma {:induction false} RunRecorded(cfg: Config, c: Chain, s: Store, o: Outcome, s': Store)
    requires Tick(cfg, c, s, o, s') && o.Done?
    ensures |s'.runs| == |s.runs| + 1 && s'.runs[..|s.runs|] == s.runs
    ensures var run := s'.runs[|s.runs|];
            && run.cid == cfg.chainId && run.from == Cursor(s.runs, cfg.chainId) + 1 && !run.failed
            && (run.last.Some? <==> o.recorded >= 0) && (o.recorded >= 0 ==> run.last.value == o.recorded)
  {
  }

  lemma {:induction false} TickCursor(cfg: Config, c: Chain, s: Store, o: Outcome, s': Store)
    requires Tick(cfg, c, s, o, s')
    ensures Cursor(s'.runs, cfg.chainId) ==
            (match o case Done(r) => Max(Cursor(s.runs, cfg.chainId), r) case Stopped => Cursor(s.runs, cfg.chainId))
  {
    if |s'.runs| > |s.runs| {
      assert s'.runs[..|s'.runs| - 1] == s.runs;
    }
  }

  /** On a chain that ends below the cursor a tick neither detects anything nor moves: whatever its blocks are,
      tables and cursor stay. */
  lemma {:induction false} ShortChainIdle(cfg: Config, c: Chain, s: Store, o: Outcome, s': Store)
    requires Tick(cfg, c, s, o, s') && |c| <= Cursor(s.runs, cfg.chainId)
    ensures s'.db == s.db && Cursor(s'.runs, cfg.chainId) == Cursor(s.runs, cfg.chainId)
    ensures o.Done? ==> o.recorded == Cursor(s.runs, cfg.chainId)
  {
    TickCursor(cfg, c, s, o, s');
  }

  /** A rollback on this chain reaches the old cursor again within the same tick. */
  predicate Recovers(cfg: Config, db: Db, c: Chain, last: int)
    requires |c| > 0 && -1 <= last
  {
    && last <= SafeHead(|c| - 1)
    && last <= Root(cfg, db, c, last) + cfg.maxBlocks
    && (cfg.endBlock.Some? ==> last <= cfg.endBlock.value)
  }

  /** Before the tick: if it completes, it will keep the index right.  A tick that rolls back must be able to get back
      to the old cursor; one that does not must find nothing foreign above the cursor in its range. */
  ghost predicate Sane(cfg: Config, c: Chain, s: Store) {
    |c| > 0 &&
    var last := Cursor(s.runs, cfg.chainId);
    if Mismatch(cfg, s.db, c, last) then
      Recovers(cfg, s.db, c, last)
    else
      var target := Target(cfg, last + 1, |c| - 1);
      target.Some? ==> LeftoversAgree(cfg, s.db, last, target.value, c)
  }

  /** Every watched log of the chain up to height `n` has its row. */
  ghost predicate EntriesStored(cfg: Config, db: Db, c: Chain, n: int)
    requires -1 <= n < |c|
  {
    forall l :: l in Logs(cfg, c, 0, n + 1) && EntryOf(cfg, l).Some? ==> EntryOf(cfg, l).value.0 in db
  }

  /** The ticks that keep the index right: a completed one that was sane before it began; an interrupted one that
      committed no rollback, or else handled the new chain's logs up to the old cursor and stored its header there. */
  ghost predicate Healthy(cfg: Config, c: Chain, s: Store, o: Outcome, s': Store) {
    var last := Cursor(s.runs, cfg.chainId);
    if o.Done? then
      Sane(cfg, c, s)
    else
      Mismatch(cfg, s.db, c, last) && s'.db != s.db ==>
        BlockKey(cfg.chainId, last) in s'.db && EntriesStored(cfg, s'.db, c, last)
  }

  /** The chain the index describes after a tick: the tick's own if it rolled back or advanced. */
  function NextView(cfg: Config, c: Chain, s: Store, o: Outcome, s': Store, v: Chain): Chain {
    var last := Cursor(s.runs, cfg.chainId);
    if Mismatch(cfg, s.db, c, last) then
      if o.Done? || s'.db != s.db then c else v
    else
      if o.Done? && o.recorded > last then c else v
  }

  /** A pass that starts from a reorg root syncs up to its own end, and restores no header above it. */
  lemma {:induction false} RollbackPass(cfg: Config, c: Chain, db: Db, last: nat, root: int, db': Db, t: nat)
    requires Synced(cfg, DeleteAbove(db, cfg.chainId, root), root, c) && root < t && root < last
    requires FullPass(cfg, c, root + 1, t, DeleteAbove(db, cfg.chainId, root), db') && StateKeyed(cfg, db)
    ensures Synced(cfg, db', t, c)
    ensures t < last ==> BlockKey(cfg.chainId, last) !in db'
  {
    NothingAbove(cfg, db, root, t, c);
    PassIff(cfg, DeleteAbove(db, cfg.chainId, root), root, t, c, db');
    FullPassEffect(cfg, c, root + 1, t, DeleteAbove(db, cfg.chainId, root), db');
  }

  lemma {:induction false} RollbackTickIff(cfg: Config, c: Chain, db: Db, last: int, v: Chain, db': Db, recorded: int)
    requires |c| > 0 && Synced(cfg, db, last, v) && Mismatch(cfg, db, c, last)
    requires Advances(cfg, c, Base(cfg, db, c, last), Root(cfg, db, c, last), db', recorded)
    ensures recorded >= last <==> Recovers(cfg, db, c, last)
    ensures Synced(cfg, db', Max(last, recorded), c) <==> recorded >= last
  {
    var root, base := Root(cfg, db, c, last), Base(cfg, db, c, last);
    RollbackSyncs(cfg, db, last, v, c);
    if root < recorded {
      RollbackPass(cfg, c, db, last, root, db', recorded);
    }
  }

  lemma {:induction false} ForwardTickIff(cfg: Config, c: Chain, db: Db, last: int, v: Chain, db': Db, recorded: int)
    requires |c| > 0 && Synced(cfg, db, last, v) && !Mismatch(cfg, db, c, last)
    requires Advances(cfg, c, db, last, db', recorded)
    ensures recorded == last ==> db' == db
    ensures last <= recorded
    ensures last < recorded ==>
              recorded < |c| && (Synced(cfg, db', recorded, c) <==> LeftoversAgree(cfg, db, last, recorded, c))
  {
    if last < recorded {
      DetectionComplete(cfg, db, last, v, c);
      PassIff(cfg, db, last, recorded, c, db');
    }
  }

  /** A completed tick leaves the index synced if and only if it was sane before it began. */
  lemma {:induction false} CompletedTickIff(cfg: Config, c: Chain, s: Store, o: Outcome, s': Store, v: Chain)
    requires Tick(cfg, c, s, o, s') && o.Done?
    requires Synced(cfg, s.db, Cursor(s.runs, cfg.chainId), v)
    ensures Synced(cfg, s'.db, Cursor(s'.runs, cfg.chainId), NextView(cfg, c, s, o, s', v)) <==> Sane(cfg, c, s)
  {
    var last := Cursor(s.runs, cfg.chainId);
    TickCursor(cfg, c, s, o, s');
    if Mismatch(cfg, s.db, c, last) {
      RollbackTickIff(cfg, c, s.db, last, v, s'.db, o.recorded);
    } else {
      ForwardTickIff(cfg, c, s.db, last, v, s'.db, o.recorded);
    }
  }

  // ---------------------------------------------------------------- interrupted ticks

  /** Part of a pass never disturbs the event rows at or below its start. */
  lemma {:induction false} FoldAboveKeeps(cfg: Config, e: Db, last: int, t: nat, logs: seq<Located>)
    requires -1 <= last && forall l :: l in logs ==> last + 1 <= l.height < t + 1
    ensures UpTo(FoldEvents(cfg, e, logs), last) == UpTo(e, last)
  {
    forall k
      ensures k in UpTo(FoldEvents(cfg, e, logs), last) <==> k in UpTo(e, last)
      ensures k in UpTo(e, last) ==> FoldEvents(cfg, e, logs)[k] == e[k]
    {
      FoldLookup(cfg, e, logs, k);
      FirstHeight(cfg, logs, k, last + 1, t + 1);
    }
  }

  lemma {:induction false} PartPassKeepsSync(cfg: Config, db: Db, last: int, v: Chain, c: Chain, t: nat,
                                             logs: seq<Located>, db': Db)
    requires Synced(cfg, db, last, v) && last < t < |c|
    requires logs <= Logs(cfg, c, last + 1, t + 1) && Effect(cfg, c, last + 1, t, db, logs, db')
    ensures Synced(cfg, db', last, v)
  {
    LogsInRange(cfg, c, last + 1, t + 1);
    assert forall l :: l in logs ==> l in Logs(cfg, c, last + 1, t + 1);
    FoldAboveKeeps(cfg, Events(db, cfg.chainId), last, t, logs);
  }

  lemma {:induction false} StopsKeepsSync(cfg: Config, c: Chain, db: Db, last: int, db': Db, v: Chain)
    requires |c| > 0 && Synced(cfg, db, last, v) && Stops(cfg, c, db, last, db')
    ensures Synced(cfg, db', last, v)
  {
    var target := Target(cfg, last + 1, |c| - 1);
    if target.Some? {
      var logs := PartPassEffect(cfg, c, last + 1, target.value, db, db');
      PartPassKeepsSync(cfg, db, last, v, c, target.value, logs, db');
    }
  }

  /** Rolled back, the event tables are canonical at the root and empty above. */
  lemma {:induction false} RolledBackEvents(cfg: Config, db: Db, last: int, v: Chain, c: Chain)
    requires Synced(cfg, db, last, v) && Mismatch(cfg, db, c, last)
    ensures Root(cfg, db, c, last) < last < |c|
    ensures Events(Base(cfg, db, c, last), cfg.chainId) == Canonical(cfg, c, Root(cfg, db, c, last))
  {
    var root := Root(cfg, db, c, last);
    RollbackSyncs(cfg, db, last, v, c);
    DeleteEvents(db, cfg.chainId, root);
    UpToUpTo(Events(db, cfg.chainId), root, root);
  }

  lemma {:induction false} EntriesStoredIff(cfg: Config, db: Db, c: Chain, n: int)
    requires -1 <= n < |c|
    ensures EntriesStored(cfg, db, c, n) <==>
            forall k :: k in Canonical(cfg, c, n) ==> k in Events(db, cfg.chainId)
  {
    var ls := Logs(cfg, c, 0, n + 1);
    forall k
      ensures k in Canonical(cfg, c, n) <==> exists l :: l in ls && Contributes(cfg, l, k)
    {
      CanonicalLookup(cfg, c, n, k);
      FirstIff(cfg, ls, k);
    }
    if EntriesStored(cfg, db, c, n) {
      forall k | k in Canonical(cfg, c, n)
        ensures k in Events(db, cfg.chainId)
      {
        var l :| l in ls && Contributes(cfg, l, k);
      }
    } else {
      var l :| l in ls && EntryOf(cfg, l).Some? && EntryOf(cfg, l).value.0 !in db;
      var k := EntryOf(cfg, l).value.0;
      assert Contributes(cfg, l, k);
      assert k in Canonical(cfg, c, n) && k !in Events(db, cfg.chainId);
    }
  }

  /** Tables cut at the root and then part of a pass: the headers and snapshots are the chain's. */
  lemma {:induction false} BrokenState(cfg: Config, c: Chain, db: Db, root: int, t: nat, db': Db, last: nat)
    requires Synced(cfg, DeleteAbove(db, cfg.chainId, root), root, c) && -1 <= root < t && root < last < |c|
    requires StateEffect(cfg, c, root + 1, t, DeleteAbove(db, cfg.chainId, root), db') && StateKeyed(cfg, db)
    ensures StateKeyed(cfg, db') && StateMirrors(cfg, db', -1, last, c)
    ensures BlockKey(cfg.chainId, last) in db' ==> last <= t
  {
    StateIff(cfg, DeleteAbove(db, cfg.chainId, root), root, t, c, db');
  }

  /** A rollback followed by part of a pass: the index is synced with the new chain at the old cursor exactly when
      the cursor's header and the rows of all logs up to the cursor are stored. */
  lemma {:induction false} BrokenPassIff(cfg: Config, c: Chain, db: Db, last: nat, v: Chain, t: nat, logs: seq<Located>,
                                         db': Db)
    requires Synced(cfg, db, last, v) && Mismatch(cfg, db, c, last) && Root(cfg, db, c, last) < t < |c|
    requires logs <= Logs(cfg, c, Root(cfg, db, c, last) + 1, t + 1)
    requires Effect(cfg, c, Root(cfg, db, c, last) + 1, t, Base(cfg, db, c, last), logs, db')
    ensures last < |c|
    ensures Synced(cfg, db', last, c) <==> BlockKey(cfg.chainId, last) in db' && EntriesStored(cfg, db', c, last)
  {
    var root, base := Root(cfg, db, c, last), Base(cfg, db, c, last);
    var e := Events(db', cfg.chainId);
    RollbackSyncs(cfg, db, last, v, c);
    RolledBackEvents(cfg, db, last, v, c);
    BrokenState(cfg, c, db, root, t, db', last);
    CanonicalWithin(cfg, c, root, t);
    UpToUpTo(Canonical(cfg, c, root), root, root);
    CanonicalCut(cfg, c, root, root);
    FoldWithin(cfg, Canonical(cfg, c, root), root, t, c, logs);
    EntriesStoredIff(cfg, db', c, last);
    if last <= t {
      WithinIff(cfg, e, t, c, last);
    }
  }

  lemma {:induction false} BrokenTickIff(cfg: Config, c: Chain, db: Db, last: nat, v: Chain, db': Db)
    requires |c| > 0 && Synced(cfg, db, last, v) && Mismatch(cfg, db, c, last)
    requires Stops(cfg, c, Base(cfg, db, c, last), Root(cfg, db, c, last), db')
    ensures last < |c|
    ensures Synced(cfg, db', last, c) <==> BlockKey(cfg.chainId, last) in db' && EntriesStored(cfg, db', c, last)
  {
    var root, base := Root(cfg, db, c, last), Base(cfg, db, c, last);
    RollbackSyncs(cfg, db, last, v, c);
    var target := Target(cfg, root + 1, |c| - 1);
    if target.Some? {
      var logs := PartPassEffect(cfg, c, root + 1, target.value, base, db');
      BrokenPassIff(cfg, c, db, last, v, target.value, logs, db');
    } else {
      assert BlockKey(cfg.chainId, last) !in base;
    }
  }

  /** An interrupted tick leaves the index synced if and only if it is healthy. */
  lemma {:induction false} InterruptedTickIff(cfg: Config, c: Chain, s: Store, s': Store, v: Chain)
    requires Tick(cfg, c, s, Stopped, s')
    requires Synced(cfg, s.db, Cursor(s.runs, cfg.chainId), v)
    ensures Synced(cfg, s'.db, Cursor(s'.runs, cfg.chainId), NextView(cfg, c, s, Stopped, s', v)) <==>
            Healthy(cfg, c, s, Stopped, s')
  {
    var last := Cursor(s.runs, cfg.chainId);
    TickCursor(cfg, c, s, Stopped, s');
    if s'.db != s.db {
      if Mismatch(cfg, s.db, c, last) {
        BrokenTickIff(cfg, c, s.db, last, v, s'.db);
      } else {
        StopsKeepsSync(cfg, c, s.db, last, s'.db, v);
      }
    }
  }

  /** Every tick, completed or interrupted, leaves the index synced if and only if it is healthy. */
  lemma {:induction false} TickIff(cfg: Config, c: Chain, s: Store, o: Outcome, s': Store, v: Chain)
    requires Tick(cfg, c, s, o, s')
    requires Synced(cfg, s.db, Cursor(s.runs, cfg.chainId), v)
    ensures Synced(cfg, s'.db, Cursor(s'.runs, cfg.chainId), NextView(cfg, c, s, o, s', v)) <==>
            Healthy(cfg, c, s, o, s')
  {
    if o.Done? {
      CompletedTickIff(cfg, c, s, o, s', v);
    } else {
      InterruptedTickIff(cfg, c, s, s', v);
    }
  }

  lemma {:induction false} EmptySynced(cfg: Config)
    ensures Synced(cfg, map[], -1, [])
  {
    assert Logs(cfg, [], 0, 0) == [];
  }

  // ---------------------------------------------------------------- histories

  /** Each store follows from the one before by one tick. */
  ghost predicate Ticks(cfg: Config, chains: seq<Chain>, stores: seq<Store>, outcomes: seq<Outcome>) {
    && |stores| == |chains| + 1 && |outcomes| == |chains|
    && forall i: nat :: i < |chains| ==> StepAt(cfg, chains, stores, outcomes, i)
  }

  ghost predicate StepAt(cfg: Config, chains: seq<Chain>, stores: seq<Store>, outcomes: seq<Outcome>, i: nat)
    requires |stores| == |chains| + 1 && |outcomes| == |chains| && i < |chains|
  {
    Tick(cfg, chains[i], stores[i], outcomes[i], stores[i + 1])
  }

  /** Tick `i` leads from store `i` to the next, and the view moves with it. */
  ghost predicate TickAt(cfg: Config, stores: seq<Store>, chains: seq<Chain>, outcomes: seq<Outcome>,
                         views: seq<Chain>, i: nat)
    requires |stores| == |views| == |chains| + 1 && |outcomes| == |chains| && i < |chains|
  {
    && Tick(cfg, chains[i], stores[i], outcomes[i], stores[i + 1])
    && views[i + 1] == NextView(cfg, chains[i], stores[i], outcomes[i], stores[i + 1], views[i])
  }

  /** Any number of ticks of one indexer, the chain changing arbitrarily between them.  `views[i]` is the chain
      of the last tick before `i` that moved the index. */
  ghost predicate History(cfg: Config, stores: seq<Store>, chains: seq<Chain>, outcomes: seq<Outcome>,
                          views: seq<Chain>)
  {
    && |stores| == |views| == |chains| + 1 && |outcomes| == |chains|
    && stores[0] == Store(map[], []) && views[0] == []
    && forall i: nat :: i < |chains| ==> TickAt(cfg, stores, chains, outcomes, views, i)
  }

  /** Index refines chain: over every history of completed, interrupted and reorging ticks, as long as each tick
      was healthy, the index below the cursor is exactly the fold of the chain it last advanced on. */
  lemma {:induction false} IndexRefinesChain(cfg: Config, stores: seq<Store>, chains: seq<Chain>,
                                             outcomes: seq<Outcome>, views: seq<Chain>, n: nat)
    requires History(cfg, stores, chains, outcomes, views) && n <= |chains|
    requires forall i :: 0 <= i < n ==> Healthy(cfg, chains[i], stores[i], outcomes[i], stores[i + 1])
    ensures Synced(cfg, stores[n].db, Cursor(stores[n].runs, cfg.chainId), views[n])
  {
    if n == 0 {
      EmptySynced(cfg);
    } else {
      IndexRefinesChain(cfg, stores, chains, outcomes, views, n - 1);
      assert TickAt(cfg, stores, chains, outcomes, views, n - 1);
      TickIff(cfg, chains[n - 1], stores[n - 1], outcomes[n - 1], stores[n], views[n - 1]);
    }
  }
}
