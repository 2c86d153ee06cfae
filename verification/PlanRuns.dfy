/** Issuing a write plan call by call, any of which may fail: what has been written is always a first part of
    the plan, and if no call failed, only the plan itself can have stopped it. */
module PlanRuns {
  import opened Wrappers
  import opened Ledger
  import opened Tables
  import opened TickPlan
  import opened PlanFacts
  import opened TickContract
  import opened Sync
  import opened Database

  // ---------------------------------------------------------------- runs of a write plan

  /** The writes `ws` were issued on `before` up to the end (`ok`) or up to somewhere, leaving `after`; stopping
      although every call was `served` means that the plan itself has a failing write. */
  ghost predicate Ran(cfg: Config, before: Db, ws: seq<Write>, ok: bool, served: bool, after: Db) {
    if ok then
      Exec(cfg, before, ws) == Ok(after)
    else
      (exists n: nat :: StopsAfter(cfg, before, ws, n, after)) && (served ==> Exec(cfg, before, ws).Err?)
  }

  lemma {:induction false} RanNothing(cfg: Config, db: Db, ws: seq<Write>)
    ensures Ran(cfg, db, [], true, true, db) && Ran(cfg, db, ws, false, false, db)
  {
    assert ws[..0] == [];
    assert StopsAfter(cfg, db, ws, 0, db);
  }

  lemma {:induction false} RanOne(cfg: Config, before: Db, w: Write, ok: bool, served: bool, after: Db)
    requires Issued(before, ApplyWrite(cfg, before, w), ok, served, after)
    ensures Ran(cfg, before, [w], ok, served, after)
  {
    assert [w][..0] == [];
    if !ok {
      if after == before {
        RanNothing(cfg, before, [w]);
      } else {
        assert [w][..1] == [w];
        assert StopsAfter(cfg, before, [w], 1, after);
      }
    }
  }

  /** A plan that ran through, followed by another. */
  lemma {:induction false} RanThen(cfg: Config, a: Db, first: seq<Write>, b: Db, second: seq<Write>, ok: bool,
                                   served: bool, c: Db)
    requires Ran(cfg, a, first, true, true, b) && Ran(cfg, b, second, ok, served, c)
    ensures Ran(cfg, a, first + second, ok, served, c)
  {
    ExecConcat(cfg, a, first, second);
    if !ok {
      var n: nat :| StopsAfter(cfg, b, second, n, c);
      ExecConcat(cfg, a, first, second[..n]);
      assert (first + second)[..|first| + n] == first + second[..n];
      assert StopsAfter(cfg, a, first + second, |first| + n, c);
    }
  }

  /** A plan cut short is a longer plan cut short. */
  lemma {:induction false} RanPart(cfg: Config, a: Db, first: seq<Write>, served: bool, b: Db, second: seq<Write>)
    requires Ran(cfg, a, first, false, served, b)
    ensures Ran(cfg, a, first + second, false, served, b)
  {
    var n: nat :| StopsAfter(cfg, a, first, n, b);
    assert (first + second)[..n] == first[..n];
    assert StopsAfter(cfg, a, first + second, n, b);
    ExecConcat(cfg, a, first, second);
  }

  /** Stopping after the last write, for a reason outside the plan. */
  lemma {:induction false} RanStop(cfg: Config, a: Db, ws: seq<Write>, b: Db)
    requires Ran(cfg, a, ws, true, true, b)
    ensures Ran(cfg, a, ws, false, false, b)
  {
    assert ws[..|ws|] == ws;
    assert StopsAfter(cfg, a, ws, |ws|, b);
  }

  // ---------------------------------------------------------------- the phases of a tick

  /** The parts of a tick's plan that some loop or step issues. */
  datatype Phase =
    | Single(w: Write)
    | TxsOf(height: nat, n: nat)                    // a block's header and its first `n` transactions
    | BlockAt(height: nat)
    | BlocksTo(lo: nat, hi: nat)
    | CursorAt(target: nat)
    | LogsOf(logs: seq<Located>, n: nat)            // the first `n` logs
    | SnapAt(height: nat)
    | SnapsTo(lo: nat, hi: nat)
    | IngestOf(from: nat, target: nat, parts: nat)  // the first `parts` of blocks, cursor, logs, snapshots
    | BeatAt(mid: Db, target: nat, a: Address)
    | BeatsOf(mid: Db, target: nat, vaults: seq<Address>, n: nat)

  predicate Fits(c: Chain, phase: Phase) {
    match phase
    case Single(_) => true
    case TxsOf(h, n) => h < |c| && n <= |c[h].txs|
    case BlockAt(h) => h < |c|
    case BlocksTo(lo, hi) => lo <= hi <= |c|
    case CursorAt(t) => t < |c|
    case LogsOf(logs, n) => n <= |logs|
    case SnapAt(h) => h < |c|
    case SnapsTo(lo, hi) => lo <= hi <= |c|
    case IngestOf(from, t, parts) => from <= t < |c| && parts <= 4
    case BeatAt(_, t, _) => t < |c|
    case BeatsOf(_, t, vaults, n) => t < |c| && n <= |vaults|
  }

  /** The four parts of the ingest phase. */
  function PartWrites(cfg: Config, c: Chain, from: nat, t: nat, n: nat): seq<Write>
    requires from <= t < |c|
  {
    match n
    case 0 => BlockWrites(cfg, c, from, t + 1)
    case 1 => CursorWrites(cfg, c, t)
    case 2 => LogWrites(Logs(cfg, c, from, t + 1))
    case _ => SnapWrites(cfg, c, from, t + 1)
  }

  function IngestParts(cfg: Config, c: Chain, from: nat, t: nat, n: nat): seq<Write>
    requires from <= t < |c|
  {
    if n == 0 then [] else IngestParts(cfg, c, from, t, n - 1) + PartWrites(cfg, c, from, t, n - 1)
  }

  function PlanOf(cfg: Config, c: Chain, phase: Phase): seq<Write>
    requires Fits(c, phase)
  {
    match phase
    case Single(w) => [w]
    case TxsOf(h, n) => [Header(cfg, c, h)] + TxWrites(cfg, h, c[h].txs[..n])
    case BlockAt(h) => OneBlock(cfg, c, h)
    case BlocksTo(lo, hi) => BlockWrites(cfg, c, lo, hi)
    case CursorAt(t) => CursorWrites(cfg, c, t)
    case LogsOf(logs, n) => LogWrites(logs[..n])
    case SnapAt(h) => if VaultTouched(cfg, c, h) then [Snap(cfg.vault, h, StateAt(c, h, cfg.vault))] else []
    case SnapsTo(lo, hi) => SnapWrites(cfg, c, lo, hi)
    case IngestOf(from, t, parts) => IngestParts(cfg, c, from, t, parts)
    case BeatAt(mid, t, a) => if NeedsBeat(mid, cfg.chainId, a, t) then [Snap(a, t, StateAt(c, t, a))] else []
    case BeatsOf(mid, t, vaults, n) => Beats(cfg, mid, c, t, vaults[..n])
  }

  predicate IsPhasePlan(cfg: Config, c: Chain, phase: Phase, ws: seq<Write>) {
    Fits(c, phase) && ws == PlanOf(cfg, c, phase)
  }

  /** `ws` is the plan of the phase.  (The quantifier keeps the plan out of proofs that need only its name.) */
  ghost predicate IsPlan(cfg: Config, c: Chain, phase: Phase, ws: seq<Write>) {
    Fits(c, phase) && forall plan :: IsPhasePlan(cfg, c, phase, plan) ==> ws == plan
  }

  lemma {:induction false} PlanIs(cfg: Config, c: Chain, phase: Phase, ws: seq<Write>)
    ensures IsPlan(cfg, c, phase, ws) <==> Fits(c, phase) && ws == PlanOf(cfg, c, phase)
  {
    if Fits(c, phase) {
      assert IsPhasePlan(cfg, c, phase, PlanOf(cfg, c, phase));
    }
  }

  /** The writes of the phase were issued. */
  ghost predicate PhaseRan(cfg: Config, c: Chain, phase: Phase, start: Db, ok: bool, served: bool, db: Db) {
    Fits(c, phase) && forall ws :: IsPlan(cfg, c, phase, ws) ==> Ran(cfg, start, ws, ok, served, db)
  }

  /** Phase `ab` is phase `a` followed by phase `b`. */
  ghost predicate Joins(cfg: Config, c: Chain, a: Phase, b: Phase, ab: Phase) {
    && Fits(c, a) && Fits(c, b) && Fits(c, ab)
    && forall x, y, z :: IsPlan(cfg, c, a, x) && IsPlan(cfg, c, b, y) && IsPlan(cfg, c, ab, z) ==> z == x + y
  }

  /** Phase `a` is a first part of phase `b`. */
  ghost predicate Starts(cfg: Config, c: Chain, a: Phase, b: Phase) {
    && Fits(c, a) && Fits(c, b)
    && forall x, z :: IsPlan(cfg, c, a, x) && IsPlan(cfg, c, b, z) ==> x <= z
  }

  lemma {:induction false} PhaseNotStarted(cfg: Config, c: Chain, phase: Phase, start: Db)
    requires Fits(c, phase)
    ensures PhaseRan(cfg, c, phase, start, false, false, start)
  {
    forall ws | IsPlan(cfg, c, phase, ws)
      ensures Ran(cfg, start, ws, false, false, start)
    {
      RanNothing(cfg, start, ws);
    }
  }

  /** Running the plan is running the phase. */
  lemma {:induction false} PlanRan(cfg: Config, c: Chain, phase: Phase, ws: seq<Write>, start: Db, ok: bool,
                                   served: bool,
                                   db: Db)
    requires Fits(c, phase) && ws == PlanOf(cfg, c, phase)
    ensures PhaseRan(cfg, c, phase, start, ok, served, db) <==> Ran(cfg, start, ws, ok, served, db)
  {
    PlanIs(cfg, c, phase, ws);
    forall x | IsPlan(cfg, c, phase, x)
      ensures x == ws
    {
      PlanIs(cfg, c, phase, x);
    }
  }

  /** A phase without writes. */
  lemma {:induction false} PhaseEmpty(cfg: Config, c: Chain, phase: Phase, db: Db)
    requires Fits(c, phase) && PlanOf(cfg, c, phase) == []
    ensures PhaseRan(cfg, c, phase, db, true, true, db)
  {
    RanNothing(cfg, db, []);
    PlanRan(cfg, c, phase, [], db, true, true, db);
  }

  /** A phase of one write. */
  lemma {:induction false} PhaseSingle(cfg: Config, c: Chain, phase: Phase, w: Write, before: Db, ok: bool,
                                       served: bool,
                                       after: Db)
    requires Issued(before, ApplyWrite(cfg, before, w), ok, served, after)
    requires Fits(c, phase) && PlanOf(cfg, c, phase) == [w]
    ensures PhaseRan(cfg, c, phase, before, ok, served, after)
  {
    RanOne(cfg, before, w, ok, served, after);
    PlanRan(cfg, c, phase, [w], before, ok, served, after);
  }

  lemma {:induction false} HasPlan(cfg: Config, c: Chain, phase: Phase) returns (ws: seq<Write>)
    requires Fits(c, phase)
    ensures IsPlan(cfg, c, phase, ws)
  {
    ws := PlanOf(cfg, c, phase);
    PlanIs(cfg, c, phase, ws);
  }

  lemma {:induction false} JoinsBy(cfg: Config, c: Chain, a: Phase, b: Phase, ab: Phase)
    requires Fits(c, a) && Fits(c, b) && Fits(c, ab) && PlanOf(cfg, c, ab) == PlanOf(cfg, c, a) + PlanOf(cfg, c, b)
    ensures Joins(cfg, c, a, b, ab)
  {
    forall phase, ws
      ensures IsPlan(cfg, c, phase, ws) ==> Fits(c, phase) && ws == PlanOf(cfg, c, phase)
    {
      PlanIs(cfg, c, phase, ws);
    }
  }

  /** The next step of a loop. */
  lemma {:induction false} PhaseThen(cfg: Config, c: Chain, a: Phase, b: Phase, ab: Phase, start: Db, mid: Db, ok: bool,
                                     served: bool, db: Db)
    requires Joins(cfg, c, a, b, ab)
    requires PhaseRan(cfg, c, a, start, true, true, mid) && PhaseRan(cfg, c, b, mid, ok, served, db)
    ensures PhaseRan(cfg, c, ab, start, ok, served, db)
  {
    var x := HasPlan(cfg, c, a);
    var y := HasPlan(cfg, c, b);
    forall z | IsPlan(cfg, c, ab, z)
      ensures Ran(cfg, start, z, ok, served, db)
    {
      RanThen(cfg, start, x, mid, y, ok, served, db);
    }
  }

  /** A loop left early. */
  lemma {:induction false} PhaseCut(cfg: Config, c: Chain, a: Phase, b: Phase, start: Db, served: bool, db: Db)
    requires Starts(cfg, c, a, b) && PhaseRan(cfg, c, a, start, false, served, db)
    ensures PhaseRan(cfg, c, b, start, false, served, db)
  {
    var x := HasPlan(cfg, c, a);
    forall z | IsPlan(cfg, c, b, z)
      ensures Ran(cfg, start, z, false, served, db)
    {
      RanPart(cfg, start, x, served, db, z[|x|..]);
      assert z == x + z[|x|..];
    }
  }

  /** Stopping between two steps because of a failed call that writes nothing. */
  lemma {:induction false} PhaseStop(cfg: Config, c: Chain, phase: Phase, start: Db, db: Db)
    requires PhaseRan(cfg, c, phase, start, true, true, db)
    ensures PhaseRan(cfg, c, phase, start, false, false, db)
  {
    forall ws | IsPlan(cfg, c, phase, ws)
      ensures Ran(cfg, start, ws, false, false, db)
    {
      RanStop(cfg, start, ws, db);
    }
  }

  /** Only a run that was cut depends on the calls, and answers to more calls imply answers to fewer. */
  lemma {:induction false} PhaseServed(cfg: Config, c: Chain, phase: Phase, start: Db, ok: bool, served: bool,
                                       all: bool,
                                       db: Db)
    requires PhaseRan(cfg, c, phase, start, ok, served, db) && (ok || (all ==> served))
    ensures PhaseRan(cfg, c, phase, start, ok, all, db)
  {
  }

  lemma {:induction false} StartsSelf(cfg: Config, c: Chain, a: Phase)
    requires Fits(c, a)
    ensures Starts(cfg, c, a, a)
  {
    var ws := HasPlan(cfg, c, a);
    forall x | IsPlan(cfg, c, a, x)
      ensures x == ws
    {
      PlanIs(cfg, c, a, x);
      PlanIs(cfg, c, a, ws);
    }
  }

  lemma {:induction false} PrefixOfSum(x: seq<Write>, y: seq<Write>, w: seq<Write>)
    requires x <= y
    ensures x <= y + w
  {
  }

  /** A first part of `b` is a first part of `b` followed by `d`. */
  lemma {:induction false} StartsJoined(cfg: Config, c: Chain, a: Phase, b: Phase, d: Phase, bd: Phase)
    requires Starts(cfg, c, a, b) && Joins(cfg, c, b, d, bd)
    ensures Starts(cfg, c, a, bd)
  {
    var y := HasPlan(cfg, c, b);
    var w := HasPlan(cfg, c, d);
    forall x, z | IsPlan(cfg, c, a, x) && IsPlan(cfg, c, bd, z)
      ensures x <= z
    {
      PrefixOfSum(x, y, w);
    }
  }

  // ---------------------------------------------------------------- loops

  /** A phase that a loop builds up round by round. */
  predicate IsLoop(phase: Phase) {
    phase.TxsOf? || phase.BlocksTo? || phase.LogsOf? || phase.SnapsTo? || phase.IngestOf? || phase.BeatsOf?
  }

  /** The loop phase `k` rounds later. */
  function Later(phase: Phase, k: nat): Phase
    requires IsLoop(phase)
  {
    match phase
    case TxsOf(h, n) => TxsOf(h, n + k)
    case BlocksTo(lo, hi) => BlocksTo(lo, hi + k)
    case LogsOf(logs, n) => LogsOf(logs, n + k)
    case SnapsTo(lo, hi) => SnapsTo(lo, hi + k)
    case IngestOf(from, t, parts) => IngestOf(from, t, parts + k)
    case BeatsOf(mid, t, vaults, n) => BeatsOf(mid, t, vaults, n + k)
  }

  function Part(cfg: Config, c: Chain, from: nat, t: nat, n: nat): Phase
    requires from <= t < |c|
  {
    if n == 0 then BlocksTo(from, t + 1)
    else if n == 1 then CursorAt(t)
    else if n == 2 then LogsOf(Logs(cfg, c, from, t + 1), |Logs(cfg, c, from, t + 1)|)
    else SnapsTo(from, t + 1)
  }

  lemma {:induction false} PartPlan(cfg: Config, c: Chain, from: nat, t: nat, n: nat)
    requires from <= t < |c| && n < 4
    ensures Fits(c, Part(cfg, c, from, t, n))
    ensures PlanOf(cfg, c, Part(cfg, c, from, t, n)) == PartWrites(cfg, c, from, t, n)
  {
    var logs := Logs(cfg, c, from, t + 1);
    assert logs[..|logs|] == logs;
  }

  /** What the next round adds. */
  function Round(cfg: Config, c: Chain, phase: Phase): Phase
    requires IsLoop(phase) && Fits(c, Later(phase, 1))
  {
    match phase
    case TxsOf(h, n) => Single(TxWrite(cfg, h, c[h].txs[n]))
    case BlocksTo(_, hi) => BlockAt(hi)
    case LogsOf(logs, n) => Single(Write.Handle(logs[n]))
    case SnapsTo(_, hi) => SnapAt(hi)
    case IngestOf(from, t, parts) => Part(cfg, c, from, t, parts)
    case BeatsOf(mid, t, vaults, n) => BeatAt(mid, t, vaults[n])
  }

  lemma {:induction false} RoundPlan(cfg: Config, c: Chain, phase: Phase)
    requires IsLoop(phase) && Fits(c, phase) && Fits(c, Later(phase, 1))
    ensures Fits(c, Round(cfg, c, phase))
    ensures PlanOf(cfg, c, Later(phase, 1)) == PlanOf(cfg, c, phase) + PlanOf(cfg, c, Round(cfg, c, phase))
  {
    match phase
    case TxsOf(h, n) => assert c[h].txs[..n + 1][..n] == c[h].txs[..n];
    case BlocksTo(_, _) =>
    case LogsOf(logs, n) => assert logs[..n + 1][..n] == logs[..n];
    case SnapsTo(_, _) =>
    case IngestOf(from, t, parts) => PartPlan(cfg, c, from, t, parts);
    case BeatsOf(_, _, vaults, n) => assert vaults[..n + 1][..n] == vaults[..n];
  }

  lemma {:induction false} LoopStarts(cfg: Config, c: Chain, phase: Phase, k: nat)
    requires IsLoop(phase) && Fits(c, phase) && Fits(c, Later(phase, k))
    ensures Starts(cfg, c, phase, Later(phase, k))
    decreases k
  {
    if k == 0 {
      StartsSelf(cfg, c, phase);
    } else {
      var before := Later(phase, k - 1);
      assert Later(before, 1) == Later(phase, k);
      LoopStarts(cfg, c, phase, k - 1);
      RoundPlan(cfg, c, before);
      JoinsBy(cfg, c, before, Round(cfg, c, before), Later(phase, k));
      StartsJoined(cfg, c, phase, before, Round(cfg, c, before), Later(phase, k));
    }
  }

  /** One round of a loop that takes `a` to `b` and ends, `k` rounds from `a`, in `whole`: the round runs through,
      or the whole is cut. */
  lemma {:induction false} LoopStep(cfg: Config, c: Chain, a: Phase, one: Phase, b: Phase, whole: Phase, k: nat,
                                    start: Db, mid: Db, ok: bool, served: bool, all: bool, db: Db)
    requires IsLoop(a) && k >= 1 && b == Later(a, 1) && whole == Later(a, k)
    requires Fits(c, a) && Fits(c, b) && Fits(c, whole) && one == Round(cfg, c, a) && (ok || (all ==> served))
    requires PhaseRan(cfg, c, a, start, true, true, mid) && PhaseRan(cfg, c, one, mid, ok, served, db)
    ensures ok ==> PhaseRan(cfg, c, b, start, true, true, db)
    ensures !ok ==> PhaseRan(cfg, c, whole, start, false, all, db)
  {
    assert Later(b, k - 1) == whole;
    RoundPlan(cfg, c, a);
    JoinsBy(cfg, c, a, one, b);
    PhaseServed(cfg, c, one, mid, ok, served, ok || all, db);
    PhaseThen(cfg, c, a, one, b, start, mid, ok, ok || all, db);
    if !ok {
      LoopStarts(cfg, c, b, k - 1);
      PhaseCut(cfg, c, b, whole, start, all, db);
    }
  }

  /** A loop left between two rounds because of a failed call that writes nothing. */
  lemma {:induction false} LoopStop(cfg: Config, c: Chain, a: Phase, k: nat, start: Db, db: Db)
    requires IsLoop(a) && Fits(c, a) && Fits(c, Later(a, k)) && PhaseRan(cfg, c, a, start, true, true, db)
    ensures PhaseRan(cfg, c, Later(a, k), start, false, false, db)
  {
    PhaseStop(cfg, c, a, start, db);
    LoopStarts(cfg, c, a, k);
    PhaseCut(cfg, c, a, Later(a, k), start, false, db);
  }

  /** Together the four parts are the ingest phase. */
  lemma {:induction false} IngestWhole(cfg: Config, c: Chain, from: nat, t: nat)
    requires from <= t < |c|
    ensures IngestParts(cfg, c, from, t, 4) == Ingest(cfg, c, from, t)
  {
    var a, b := PartWrites(cfg, c, from, t, 0), PartWrites(cfg, c, from, t, 1);
    var l, d := PartWrites(cfg, c, from, t, 2), PartWrites(cfg, c, from, t, 3);
    assert IngestParts(cfg, c, from, t, 0) == [];
    assert IngestParts(cfg, c, from, t, 1) == [] + a == a;
    assert IngestParts(cfg, c, from, t, 2) == a + b;
    assert IngestParts(cfg, c, from, t, 3) == a + b + l;
    assert IngestParts(cfg, c, from, t, 4) == a + b + l + d;
  }

  /** All transactions: the whole block. */
  lemma {:induction false} TxsAll(cfg: Config, c: Chain, h: nat, start: Db, ok: bool, served: bool, db: Db)
    requires h < |c| && HasLogs(cfg, c, h)
    requires PhaseRan(cfg, c, TxsOf(h, |c[h].txs|), start, ok, served, db)
    ensures PhaseRan(cfg, c, BlockAt(h), start, ok, served, db)
  {
    var txs := c[h].txs;
    assert txs[..|txs|] == txs;
    PlanRan(cfg, c, TxsOf(h, |txs|), OneBlock(cfg, c, h), start, ok, served, db);
    PlanRan(cfg, c, BlockAt(h), OneBlock(cfg, c, h), start, ok, served, db);
  }

  /** No transaction yet: the header. */
  lemma {:induction false} HeaderPlan(cfg: Config, c: Chain, h: nat)
    requires h < |c|
    ensures PlanOf(cfg, c, TxsOf(h, 0)) == [Header(cfg, c, h)]
  {
    assert c[h].txs[..0] == [];
  }

  /** The header of a block issued: the transactions may start, or the block is cut. */
  lemma {:induction false} HeaderStep(cfg: Config, c: Chain, h: nat, start: Db, ok: bool, served: bool, all: bool,
                                      db: Db)
    requires h < |c| && (ok || (all ==> served))
    requires Issued(start, ApplyWrite(cfg, start, Header(cfg, c, h)), ok, served, db)
    ensures ok ==> PhaseRan(cfg, c, TxsOf(h, 0), start, true, true, db)
    ensures !ok ==> PhaseRan(cfg, c, TxsOf(h, |c[h].txs|), start, false, all, db)
  {
    HeaderPlan(cfg, c, h);
    PhaseSingle(cfg, c, TxsOf(h, 0), Header(cfg, c, h), start, ok, served, db);
    PhaseServed(cfg, c, TxsOf(h, 0), start, ok, served, ok || all, db);
    if !ok {
      LoopStarts(cfg, c, TxsOf(h, 0), |c[h].txs|);
      PhaseCut(cfg, c, TxsOf(h, 0), TxsOf(h, |c[h].txs|), start, all, db);
    }
  }

  // ---------------------------------------------------------------- grouping the logs

  /** The returned logs at one height are the watched logs of that block. */
  lemma {:induction false} LogsAtHeight(cfg: Config, c: Chain, from: nat, hi: nat, h: nat, l: Located)
    requires from <= h < hi <= |c|
    ensures l in Logs(cfg, c, from, hi) && l.height == h <==> l in BlockLogs(cfg, h, c[h].logs)
    decreases hi
  {
    var before, block := Logs(cfg, c, from, hi - 1), BlockLogs(cfg, hi - 1, c[hi - 1].logs);
    assert l in Logs(cfg, c, from, hi) <==> l in before || l in block;
    BlockLogsWatched(cfg, h, c[h].logs);
    if h != hi - 1 {
      BlockLogsWatched(cfg, hi - 1, c[hi - 1].logs);
      LogsAtHeight(cfg, c, from, hi - 1, h, l);
    } else {
      LogsInRange(cfg, c, from, hi - 1);
    }
  }

  /** The (height, contract) pairs and the heights that carry events. */
  ghost predicate Grouped(cfg: Config, c: Chain, from: nat, hi: nat, pairs: set<(nat, Address)>, blocks: set<nat>)
    requires hi <= |c|
  {
    forall h: nat :: from <= h < hi ==>
      (h in blocks <==> HasLogs(cfg, c, h)) && ((h, cfg.vault) in pairs <==> VaultTouched(cfg, c, h))
  }

  lemma {:induction false} GroupedAt(cfg: Config, c: Chain, from: nat, hi: nat, h: nat)
    requires from <= h < hi <= |c|
    ensures HasLogs(cfg, c, h) <==> exists l :: l in Logs(cfg, c, from, hi) && l.height == h
    ensures VaultTouched(cfg, c, h) <==>
            exists l :: l in Logs(cfg, c, from, hi) && l.height == h && l.log.address == cfg.vault
  {
    var block := BlockLogs(cfg, h, c[h].logs);
    if HasLogs(cfg, c, h) {
      assert block[0] in block;
      LogsAtHeight(cfg, c, from, hi, h, block[0]);
    }
    forall l
      ensures l in Logs(cfg, c, from, hi) && l.height == h <==> l in block
    {
      LogsAtHeight(cfg, c, from, hi, h, l);
    }
  }

  // ---------------------------------------------------------------- heartbeat vaults

  lemma {:induction false} RisingLast(r: seq<Address>, x: Address)
    requires Rising(r) && x in r
    ensures r != [] && x <= r[|r| - 1]
    ensures x in r[..|r| - 1] <==> x != r[|r| - 1]
  {
  }

  lemma {:induction false} RisingHead(r: seq<Address>)
    ensures r != [] ==> r[|r| - 1] in r
  {
  }

  /** Strictly ascending lists with the same members are equal. */
  lemma {:induction false} RisingUnique(a: seq<Address>, b: seq<Address>)
    requires Rising(a) && Rising(b) && forall x :: x in a <==> x in b
    ensures a == b
  {
    RisingHead(a);
    RisingHead(b);
    if a != [] && b != [] {
      var x := a[|a| - 1];
      RisingLast(a, b[|b| - 1]);
      RisingLast(b, x);
      var front, front' := a[..|a| - 1], b[..|b| - 1];
      forall z
        ensures z in front <==> z in front'
      {
        if z in a {
          RisingLast(a, z);
          RisingLast(b, z);
        }
      }
      RisingUnique(front, front');
      assert a == front + [x] && b == front' + [x];
    }
  }

  /** `others` are the listed vaults besides the configured one, in order. */
  ghost predicate OthersOf(cfg: Config, listed: seq<Address>, others: seq<Address>) {
    Rising(others) && forall x :: x in others <==> x in listed && x != cfg.vault
  }

  lemma {:induction false} OthersNext(cfg: Config, registered: seq<Address>, i: nat, others: seq<Address>)
    requires Rising(registered) && i < |registered| && OthersOf(cfg, registered[..i], others)
    ensures OthersOf(cfg, registered[..i + 1],
                     if registered[i] in [cfg.vault] + others then others else others + [registered[i]])
  {
    assert registered[..i + 1] == registered[..i] + [registered[i]];
    forall m | 0 <= m < |others|
      ensures others[m] < registered[i]
    {
      assert others[m] in registered[..i];
    }
  }

  /** All registered vaults listed. */
  lemma {:induction false} OthersAll(cfg: Config, db: Db, others: seq<Address>)
    requires OthersOf(cfg, Ascending(ActiveVaults(db, cfg.chainId)), others)
    ensures [cfg.vault] + others == HeartbeatVaults(cfg, db)
  {
    var active := ActiveVaults(db, cfg.chainId);
    AscendingLists(active);
    AscendingLists(active - {cfg.vault});
    RisingUnique(others, Ascending(active - {cfg.vault}));
  }

  /** The snapshots of one vault are the same in both states. */
  ghost predicate SameSnapshots(cid: nat, a: Address, db: Db, db': Db) {
    forall k: Key :: k.SnapshotKey? && k.cid == cid && k.contract == a ==>
      (k in db <==> k in db') && (k in db ==> db'[k] == db[k])
  }

  lemma {:induction false} SameBeat(cid: nat, a: Address, db: Db, db': Db, target: nat)
    requires SameSnapshots(cid, a, db, db')
    ensures NeedsBeat(db, cid, a, target) <==> NeedsBeat(db', cid, a, target)
  {
  }

  /** The snapshots of the vaults from position `i` on are as they were. */
  ghost predicate OthersUntouched(cid: nat, vaults: seq<Address>, i: nat, mid: Db, db: Db) {
    forall j :: i <= j < |vaults| ==> SameSnapshots(cid, vaults[j], mid, db)
  }

  lemma {:induction false} SnapshotTouchesOne(cfg: Config, vaults: seq<Address>, i: nat, h: nat,
                                              state: Option<VaultState>,
                                              mid: Db, before: Db, ok: bool, served: bool, after: Db)
    requires i < |vaults| && Distinct(vaults) && OthersUntouched(cfg.chainId, vaults, i, mid, before)
    requires Issued(before, ApplyWrite(cfg, before, Snap(vaults[i], h, state)), ok, served, after)
    ensures OthersUntouched(cfg.chainId, vaults, i + 1, mid, after)
  {
    forall j | i + 1 <= j < |vaults|
      ensures SameSnapshots(cfg.chainId, vaults[j], mid, after)
    {
      assert SameSnapshots(cfg.chainId, vaults[j], mid, before);
    }
  }

  // ---------------------------------------------------------------- the whole tick

  /** Some planned write fails on these tables and this chain, whatever the calls do. */
  ghost predicate PlanFails(cfg: Config, base: Db, c: Chain, from: nat, t: nat)
    requires from <= t < |c|
  {
    forall ws :: Planned(cfg, base, c, from, t, ws) ==> Exec(cfg, base, ws).Err?
  }

  /** The tick cannot complete: its rollback is refused, or some write of its plan fails. */
  ghost predicate TickFails(cfg: Config, c: Chain, db: Db, last: int)
    requires |c| > 0 && -1 <= last
  {
    RollbackBlocked(cfg, db, c, last) || RangeFails(cfg, c, Base(cfg, db, c, last), Resume(cfg, db, c, last))
  }

  ghost predicate RangeFails(cfg: Config, c: Chain, base: Db, resume: int)
    requires |c| > 0 && -1 <= resume
  {
    var target := Target(cfg, resume + 1, |c| - 1);
    target.Some? && PlanFails(cfg, base, c, resume + 1, target.value)
  }

  /** A plan fails exactly if a vault state it needs cannot be read or a log of its range cannot be handled. */
  lemma {:induction false} PlanFailsIff(cfg: Config, base: Db, c: Chain, from: nat, t: nat, ws: seq<Write>)
    requires from <= t < |c| && ws == TickWrites(cfg, base, c, from, t)
    ensures PlanFails(cfg, base, c, from, t) <==>
            !Readable(ws) || ApplyLogs(cfg, Derived(base, cfg.chainId), Logs(cfg, c, from, t + 1)).Err?
  {
    PlannedIs(cfg, base, c, from, t, ws);
    TickWritesFaithful(cfg, base, c, from, t);
    ExecOkIff(cfg, base, ws);
    forall p | Planned(cfg, base, c, from, t, p)
      ensures p == ws
    {
      PlannedIs(cfg, base, c, from, t, p);
    }
  }

  lemma {:induction false} RunsNotFails(cfg: Config, base: Db, c: Chain, from: nat, t: nat, db: Db)
    requires from <= t < |c| && Runs(cfg, base, c, from, t, db)
    ensures !PlanFails(cfg, base, c, from, t)
  {
    PlannedIs(cfg, base, c, from, t, TickWrites(cfg, base, c, from, t));
  }

  lemma {:induction false} FinishesNotFails(cfg: Config, c: Chain, base: Db, resume: int, db': Db, recorded: int)
    requires |c| > 0 && -1 <= resume && Finishes(cfg, c, base, resume, db', recorded)
    ensures !RangeFails(cfg, c, base, resume)
  {
    var target := Target(cfg, resume + 1, |c| - 1);
    if target.Some? {
      RunsNotFails(cfg, base, c, resume + 1, target.value, db');
    }
  }

  lemma {:induction false} RanPlanned(cfg: Config, base: Db, c: Chain, from: nat, t: nat, ws: seq<Write>, ok: bool,
                                      served: bool, db: Db)
    requires from <= t < |c| && ws == TickWrites(cfg, base, c, from, t) && Ran(cfg, base, ws, ok, served, db)
    ensures ok ==> Runs(cfg, base, c, from, t, db)
    ensures !ok ==> CutShort(cfg, base, c, from, t, db) && (served ==> PlanFails(cfg, base, c, from, t))
  {
    forall p | Planned(cfg, base, c, from, t, p)
      ensures p == ws
    {
      PlannedIs(cfg, base, c, from, t, p);
    }
  }

  lemma {:induction false} IngestStopped(cfg: Config, c: Chain, from: nat, t: nat, base: Db, served: bool, db: Db)
    requires from <= t < |c| && PhaseRan(cfg, c, IngestOf(from, t, 4), base, false, served, db)
    ensures CutShort(cfg, base, c, from, t, db) && (served ==> PlanFails(cfg, base, c, from, t))
  {
    var ingest := Ingest(cfg, c, from, t);
    IngestWhole(cfg, c, from, t);
    PlanRan(cfg, c, IngestOf(from, t, 4), ingest, base, false, served, db);
    var mid := Exec(cfg, base, ingest);
    if mid.Ok? {
      RanPart(cfg, base, ingest, served, db, Beats(cfg, mid.value, c, t, HeartbeatVaults(cfg, mid.value)));
    }
    RanPlanned(cfg, base, c, from, t, TickWrites(cfg, base, c, from, t), false, served, db);
  }

  lemma {:induction false} HeartbeatEnded(cfg: Config, c: Chain, from: nat, t: nat, base: Db, mid: Db, ok: bool,
                                          served: bool, db: Db)
    requires from <= t < |c| && PhaseRan(cfg, c, IngestOf(from, t, 4), base, true, true, mid)
    requires PhaseRan(cfg, c, BeatsOf(mid, t, HeartbeatVaults(cfg, mid), |HeartbeatVaults(cfg, mid)|), mid, ok, served, db)
    ensures ok ==> Runs(cfg, base, c, from, t, db)
    ensures !ok ==> CutShort(cfg, base, c, from, t, db) && (served ==> PlanFails(cfg, base, c, from, t))
  {
    var vaults := HeartbeatVaults(cfg, mid);
    var ingest, beats := Ingest(cfg, c, from, t), Beats(cfg, mid, c, t, vaults);
    assert vaults[..|vaults|] == vaults;
    IngestWhole(cfg, c, from, t);
    PlanRan(cfg, c, IngestOf(from, t, 4), ingest, base, true, true, mid);
    PlanRan(cfg, c, BeatsOf(mid, t, vaults, |vaults|), beats, mid, ok, served, db);
    RanThen(cfg, base, ingest, mid, beats, ok, served, db);
    RanPlanned(cfg, base, c, from, t, ingest + beats, ok, served, db);
  }

  lemma {:induction false} CutAtOnce(cfg: Config, c: Chain, base: Db, from: nat, t: nat)
    requires from <= t < |c|
    ensures CutShort(cfg, base, c, from, t, base)
  {
    forall ws | Planned(cfg, base, c, from, t, ws)
      ensures Ran(cfg, base, ws, false, false, base)
    {
      RanNothing(cfg, base, ws);
    }
  }

  lemma {:induction false} RunsCutShort(cfg: Config, c: Chain, base: Db, from: nat, t: nat, db: Db)
    requires from <= t < |c| && Runs(cfg, base, c, from, t, db)
    ensures CutShort(cfg, base, c, from, t, db)
  {
    forall ws | Planned(cfg, base, c, from, t, ws)
      ensures Ran(cfg, base, ws, false, false, db)
    {
      RanStop(cfg, base, ws, db);
    }
  }

  /** Stopping before the first write. */
  lemma {:induction false} BreaksAtOnce(cfg: Config, c: Chain, base: Db, resume: int)
    requires |c| > 0 && -1 <= resume
    ensures Breaks(cfg, c, base, resume, base)
  {
    var target := Target(cfg, resume + 1, |c| - 1);
    if target.Some? {
      CutAtOnce(cfg, c, base, resume + 1, target.value);
    }
  }

  /** Stopping after the last write. */
  lemma {:induction false} FinishesBreaks(cfg: Config, c: Chain, base: Db, resume: int, db': Db, recorded: int)
    requires |c| > 0 && -1 <= resume && Finishes(cfg, c, base, resume, db', recorded)
    ensures Breaks(cfg, c, base, resume, db')
  {
    var target := Target(cfg, resume + 1, |c| - 1);
    if target.Some? {
      RunsBreaks(cfg, c, base, resume, target.value, db');
    }
  }

  lemma {:induction false} RunsBreaks(cfg: Config, c: Chain, base: Db, resume: int, t: nat, db': Db)
    requires |c| > 0 && -1 <= resume && Target(cfg, resume + 1, |c| - 1) == Some(t)
    requires Runs(cfg, base, c, resume + 1, t, db')
    ensures Breaks(cfg, c, base, resume, db')
  {
    RunsCutShort(cfg, c, base, resume + 1, t, db');
  }

  lemma {:induction false} CompletedMeetsContract(cfg: Config, c: Chain, db: Db, last: int, db': Db, recorded: int)
    requires |c| > 0 && -1 <= last && Completes(cfg, c, db, last, db', recorded)
    ensures Advances(cfg, c, Base(cfg, db, c, last), Resume(cfg, db, c, last), db', recorded)
    ensures Interrupted(cfg, c, db, last, db')
  {
    FinishesAdvances(cfg, c, Base(cfg, db, c, last), Resume(cfg, db, c, last), db', recorded);
    FinishesBreaks(cfg, c, Base(cfg, db, c, last), Resume(cfg, db, c, last), db', recorded);
  }

  lemma {:induction false} InterruptedMeetsContract(cfg: Config, c: Chain, db: Db, last: int, db': Db)
    requires |c| > 0 && -1 <= last && Interrupted(cfg, c, db, last, db')
    ensures db' == db || Stops(cfg, c, Base(cfg, db, c, last), Resume(cfg, db, c, last), db')
  {
    if db' != db {
      BreaksStops(cfg, c, Base(cfg, db, c, last), Resume(cfg, db, c, last), db');
    }
  }
}
