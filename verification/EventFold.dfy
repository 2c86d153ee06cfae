/** The reference semantics of the event tables: a plain left-to-right fold over the canonical logs, in
    which the first row for a primary key wins. */
module EventFold {
  import opened Wrappers
  import opened Ledger
  import opened Tables

  function Step(cfg: Config, m: Db, l: Located): Db {
    match EntryOf(cfg, l)
    case None => m
    case Some(e) => Put(m, e.0, e.1)
  }

  function FoldEvents(cfg: Config, m: Db, ls: seq<Located>): Db {
    if ls == [] then m else Step(cfg, FoldEvents(cfg, m, ls[..|ls| - 1]), ls[|ls| - 1])
  }

  /** The first row `ls` contributes under key `k`. */
  function First(cfg: Config, ls: seq<Located>, k: Key): (r: Option<Row>)
    ensures r.Some? ==> IsEventKey(k) && k.cid == cfg.chainId
  {
    if ls == [] then
      None
    else
      var before := First(cfg, ls[..|ls| - 1], k);
      var e := EntryOf(cfg, ls[|ls| - 1]);
      if before.Some? then before else if e.Some? && e.value.0 == k then Some(e.value.1) else None
  }

  /** The fold, one key at a time. */
  lemma {:induction false} FoldLookup(cfg: Config, m: Db, ls: seq<Located>, k: Key)
    ensures var f := FoldEvents(cfg, m, ls);
            && (k in f <==> k in m || First(cfg, ls, k).Some?)
            && (k in m ==> f[k] == m[k])
            && (k !in m && k in f ==> f[k] == First(cfg, ls, k).value)
  {
    if ls != [] {
      FoldLookup(cfg, m, ls[..|ls| - 1], k);
    }
  }

  lemma {:induction false} FirstConcat(cfg: Config, a: seq<Located>, b: seq<Located>, k: Key)
    ensures First(cfg, a + b, k) == (if First(cfg, a, k).Some? then First(cfg, a, k) else First(cfg, b, k))
    decreases |b|
  {
    if b == [] {
      assert a + b == a;
    } else {
      FirstConcat(cfg, a, b[..|b| - 1], k);
      assert (a + b)[..|a + b| - 1] == a + b[..|b| - 1];
    }
  }

  lemma {:induction false} FoldConcat(cfg: Config, m: Db, a: seq<Located>, b: seq<Located>)
    ensures FoldEvents(cfg, m, a + b) == FoldEvents(cfg, FoldEvents(cfg, m, a), b)
    decreases |b|
  {
    if b == [] {
      assert a + b == a;
    } else {
      FoldConcat(cfg, m, a, b[..|b| - 1]);
      assert (a + b)[..|a + b| - 1] == a + b[..|b| - 1];
    }
  }

  /** A row sits at the height of the log it came from. */
  lemma {:induction false} FirstHeight(cfg: Config, ls: seq<Located>, k: Key, lo: nat, hi: nat)
    requires forall l :: l in ls ==> lo <= l.height < hi
    ensures First(cfg, ls, k).Some? ==> lo <= First(cfg, ls, k).value.block < hi
  {
    if ls != [] {
      assert ls[|ls| - 1] in ls;
      FirstHeight(cfg, ls[..|ls| - 1], k, lo, hi);
    }
  }

  lemma {:induction false} RangeFirst(cfg: Config, c: Chain, lo: nat, hi: nat, k: Key)
    requires lo <= hi <= |c|
    ensures var first := First(cfg, Logs(cfg, c, lo, hi), k); first.Some? ==> lo <= first.value.block < hi
  {
    LogsInRange(cfg, c, lo, hi);
    FirstHeight(cfg, Logs(cfg, c, lo, hi), k, lo, hi);
  }

  /** A proposal row without its running columns (status, execution block, vote counters). */
  function Fixed(r: Row): Row {
    if r.cols.ProposalCols? then
      r.(cols := r.cols.(status := 0, executedBlock := None, votesFor := 0, votesAgainst := 0))
    else
      r
  }

  /** The event tables of one chain, running columns aside. */
  function Events(db: Db, cid: nat): Db {
    map k | k in db && k.cid == cid && IsEventKey(k) :: Fixed(db[k])
  }

  /** The rows at or below height `n`. */
  function UpTo(m: Db, n: int): Db {
    map k | k in m && m[k].block <= n :: m[k]
  }

  /** What the event tables should hold for heights 0 to `n` of chain `c`. */
  function Canonical(cfg: Config, c: Chain, n: int): Db
    requires -1 <= n < |c|
  {
    FoldEvents(cfg, map[], Logs(cfg, c, 0, n + 1))
  }

  /** Inserting a row into any table, seen from the event tables. */
  lemma {:induction false} PutEvents(db: Db, cid: nat, k: Key, r: Row)
    ensures Events(Put(db, k, r), cid) ==
            if IsEventKey(k) && k.cid == cid then Put(Events(db, cid), k, Fixed(r)) else Events(db, cid)
  {
  }

  /** A rollback cuts the event tables at the root. */
  lemma {:induction false} DeleteEvents(db: Db, cid: nat, root: int)
    ensures Events(DeleteAbove(db, cid, root), cid) == UpTo(Events(db, cid), root)
  {
  }

  lemma {:induction false} UpToUpTo(m: Db, low: int, high: int)
    requires low <= high
    ensures UpTo(UpTo(m, high), low) == UpTo(m, low)
  {
  }

  /** Updating columns outside the fixed ones is invisible. */
  lemma {:induction false} UpdateEvents(db: Db, cid: nat, k: Key, r: Row)
    requires k in db && (IsEventKey(k) ==> Fixed(r) == Fixed(db[k]))
    ensures Events(db[k := r], cid) == Events(db, cid)
  {
  }

  lemma {:induction false} TallyEvents(db: Db, cid: nat, k: Key, support: bool)
    ensures Events(Tally(db, k, support), cid) == Events(db, cid)
  {
    if k in db && db[k].cols.ProposalCols? {
      UpdateEvents(db, cid, k, Tally(db, k, support)[k]);
    }
  }

  /** `handle_log` maintains the event tables exactly as the fold does. */
  lemma {:induction false} ApplyLogEvents(cfg: Config, db: Db, l: Located)
    requires ApplyLog(cfg, db, l).Ok?
    ensures Events(ApplyLog(cfg, db, l).value, cfg.chainId) == Step(cfg, Events(db, cfg.chainId), l)
  {
    var cid := cfg.chainId;
    match l.log.event
    case Undecodable =>
    case Unwatched =>
    case VaultActivity =>
    case VaultRegistered(vault, name) =>
      PutEvents(db, cid, VaultKey(cid, vault), Row(l.height, VaultCols(name, l.log.txHash, 0, None)));
    case VaultStatusChanged(vault, status, timestamp) =>
      var k := VaultKey(cid, vault);
      if k in db && db[k].cols.VaultCols? {
        UpdateEvents(db, cid, k, ApplyLog(cfg, db, l).value[k]);
      }
    case ProposalExecuted(pid) =>
      var k := ProposalKey(cid, ClampI64(pid));
      if k in db && db[k].cols.ProposalCols? && db[k].cols.status < 2 {
        UpdateEvents(db, cid, k, ApplyLog(cfg, db, l).value[k]);
      }
    case VoteCast(pid, voter, _) =>
      var e := EntryOf(cfg, l).value;
      PutEvents(db, cid, e.0, e.1);
      TallyEvents(Put(db, e.0, e.1), cid, ProposalKey(cid, ClampI64(pid)), true);
    case _ =>
      var e := EntryOf(cfg, l).value;
      PutEvents(db, cid, e.0, e.1);
  }

  lemma {:induction false} ApplyLogsEvents(cfg: Config, db: Db, ls: seq<Located>)
    requires ApplyLogs(cfg, db, ls).Ok?
    ensures Events(ApplyLogs(cfg, db, ls).value, cfg.chainId) == FoldEvents(cfg, Events(db, cfg.chainId), ls)
  {
    if ls != [] {
      ApplyLogsEvents(cfg, db, ls[..|ls| - 1]);
      ApplyLogEvents(cfg, ApplyLogs(cfg, db, ls[..|ls| - 1]).value, ls[|ls| - 1]);
    }
  }

  /** The canonical rows, one key at a time. */
  lemma {:induction false} CanonicalLookup(cfg: Config, c: Chain, n: int, k: Key)
    requires -1 <= n < |c|
    ensures var first := First(cfg, Logs(cfg, c, 0, n + 1), k);
            && (k in Canonical(cfg, c, n) <==> first.Some?)
            && (first.Some? ==> Canonical(cfg, c, n)[k] == first.value && first.value.block <= n)
  {
    FoldLookup(cfg, map[], Logs(cfg, c, 0, n + 1), k);
    RangeFirst(cfg, c, 0, n + 1, k);
  }

  /** Later logs contribute a row only under a key no earlier log used, and at a later height. */
  lemma {:induction false} FirstSplit(cfg: Config, c: Chain, m: int, n: int, k: Key)
    requires -1 <= m <= n < |c|
    ensures var low, high := First(cfg, Logs(cfg, c, 0, m + 1), k), First(cfg, Logs(cfg, c, m + 1, n + 1), k);
            && First(cfg, Logs(cfg, c, 0, n + 1), k) == (if low.Some? then low else high)
            && (low.Some? ==> low.value.block <= m)
            && (high.Some? ==> m < high.value.block <= n)
  {
    LogsSplit(cfg, c, 0, m + 1, n + 1);
    FirstConcat(cfg, Logs(cfg, c, 0, m + 1), Logs(cfg, c, m + 1, n + 1), k);
    RangeFirst(cfg, c, 0, m + 1, k);
    RangeFirst(cfg, c, m + 1, n + 1, k);
  }

  /** Cutting the canonical rows at a lower height gives the canonical rows of the shorter chain. */
  lemma {:induction false} CanonicalCut(cfg: Config, c: Chain, m: int, n: int)
    requires -1 <= m <= n < |c|
    ensures UpTo(Canonical(cfg, c, n), m) == Canonical(cfg, c, m)
  {
    var short, long := Canonical(cfg, c, m), Canonical(cfg, c, n);
    forall k
      ensures k in UpTo(long, m) <==> k in short
      ensures k in short ==> k in long && long[k] == short[k]
    {
      CanonicalLookup(cfg, c, m, k);
      CanonicalLookup(cfg, c, n, k);
      FirstSplit(cfg, c, m, n, k);
    }
  }

  /** Every event row, leftovers included, is the one the logs up to `hi` give its key. */
  ghost predicate EventsWithin(cfg: Config, e: Db, hi: int, c: Chain) {
    && -1 <= hi < |c|
    && forall k :: k in e ==> First(cfg, Logs(cfg, c, 0, hi + 1), k) == Some(e[k])
  }

  /** Folding any prefix of the range onto tables that are right up to `cur` adds only rows of the chain. */
  lemma {:induction false} FoldWithin(cfg: Config, e: Db, cur: int, t: int, c: Chain, logs: seq<Located>)
    requires EventsWithin(cfg, e, t, c) && -1 <= cur < t && UpTo(e, cur) == Canonical(cfg, c, cur)
    requires logs <= Logs(cfg, c, cur + 1, t + 1)
    ensures EventsWithin(cfg, FoldEvents(cfg, e, logs), t, c)
  {
    var all := Logs(cfg, c, cur + 1, t + 1);
    assert all == logs + all[|logs|..];
    forall k | k in FoldEvents(cfg, e, logs)
      ensures First(cfg, Logs(cfg, c, 0, t + 1), k) == Some(FoldEvents(cfg, e, logs)[k])
    {
      FoldLookup(cfg, e, logs, k);
      FirstConcat(cfg, logs, all[|logs|..], k);
      CanonicalLookup(cfg, c, cur, k);
      FirstSplit(cfg, c, cur, t, k);
      assert k in Canonical(cfg, c, cur) ==> k in UpTo(e, cur);
    }
  }

  /** Of tables that hold only rows of the chain, those up to `last` are canonical exactly when none is missing. */
  lemma {:induction false} WithinIff(cfg: Config, e: Db, t: int, c: Chain, last: int)
    requires EventsWithin(cfg, e, t, c) && -1 <= last <= t
    ensures UpTo(e, last) == Canonical(cfg, c, last) <==> forall k :: k in Canonical(cfg, c, last) ==> k in e
  {
    forall k
      ensures k in UpTo(e, last) ==> k in Canonical(cfg, c, last)
      ensures k in e && k in Canonical(cfg, c, last) ==>
                k in UpTo(e, last) && UpTo(e, last)[k] == Canonical(cfg, c, last)[k]
    {
      CanonicalLookup(cfg, c, last, k);
      FirstSplit(cfg, c, last, t, k);
    }
  }

  lemma {:induction false} CanonicalWithin(cfg: Config, c: Chain, n: int, t: int)
    requires -1 <= n <= t < |c|
    ensures EventsWithin(cfg, Canonical(cfg, c, n), t, c)
  {
    forall k | k in Canonical(cfg, c, n)
      ensures First(cfg, Logs(cfg, c, 0, t + 1), k) == Some(Canonical(cfg, c, n)[k])
    {
      CanonicalLookup(cfg, c, n, k);
      FirstSplit(cfg, c, n, t, k);
    }
  }

  /** Some log contributes a row under `k`. */
  predicate Contributes(cfg: Config, l: Located, k: Key) {
    EntryOf(cfg, l).Some? && EntryOf(cfg, l).value.0 == k
  }

  lemma {:induction false} FirstIff(cfg: Config, ls: seq<Located>, k: Key)
    ensures First(cfg, ls, k).Some? <==> exists l :: l in ls && Contributes(cfg, l, k)
  {
    if ls != [] {
      var front, last := ls[..|ls| - 1], ls[|ls| - 1];
      FirstIff(cfg, front, k);
      assert last in ls;
      if First(cfg, front, k).Some? {
        var l :| l in front && Contributes(cfg, l, k);
        assert l in ls;
      } else if First(cfg, ls, k).Some? {
        assert Contributes(cfg, last, k);
      }
      if l :| l in ls && Contributes(cfg, l, k) {
        assert l in front || l == last;
      }
    }
  }
}
