/** How far each tick advances, and how many ticks the poll loop takes to the configured end. */
module Progress {
  import opened Wrappers
  import opened Division
  import opened Ledger
  import opened Tables
  import opened TickPlan
  import opened TickContract
  import opened Sync
  import opened Indexer

  /** A completed tick advances exactly if the next height is within the safe head, five blocks below the tip, and the
      configured end; it then goes as far as both of them and `max_blocks_per_tick` allow, and otherwise stays. */
  lemma {:induction false} RangeBounds(cfg: Config, c: Chain, s: Store, o: Outcome, s': Store)
    requires Tick(cfg, c, s, o, s') && o.Done?
    ensures var resume := Resume(cfg, s.db, c, Cursor(s.runs, cfg.chainId));
            var safe := if |c| - 1 >= 5 then |c| - 6 else 0;
            && (o.recorded == resume || resume < o.recorded)
            && (resume < o.recorded <==> resume + 1 <= safe && (cfg.endBlock.Some? ==> resume + 1 <= cfg.endBlock.value))
            && (resume < o.recorded ==>
                && o.recorded <= safe && o.recorded - resume <= cfg.maxBlocks
                && (cfg.endBlock.Some? ==> o.recorded <= cfg.endBlock.value)
                && (o.recorded == safe || o.recorded - resume == cfg.maxBlocks || cfg.endBlock == Some(o.recorded)))
  {
  }

  function DoneCount(outcomes: seq<Outcome>): nat {
    if outcomes == [] then
      0
    else
      DoneCount(outcomes[..|outcomes| - 1]) + if outcomes[|outcomes| - 1].Done? then 1 else 0
  }

  /** Rounded-up division. */
  function CeilDiv(a: nat, b: Positive): nat {
    (a + b - 1) / b
  }

  lemma {:induction false} CeilDivLeast(a: nat, b: Positive, k: nat)
    ensures k * b >= a <==> k >= CeilDiv(a, b)
  {
    var q, r := (a + b - 1) / b, (a + b - 1) % b;
    assert a + b - 1 == b * q + r;
    assert b * q == q * b;
    if k >= q {
      TimesGrows(q, k, b);
    } else {
      TimesGrows(k + 1, q, b);
      assert (k + 1) * b == k * b + b;
    }
  }

  /** The end lies at or below the safe head of this chain. */
  predicate EndIsSafe(cfg: Config, c: Chain) {
    cfg.endBlock.Some? && |c| > 0 && cfg.endBlock.value <= SafeHead(|c| - 1)
  }

  /** `start` and `k` full ranges further, but not beyond the end. */
  function Level(cfg: Config, start: int, k: nat): int
    requires cfg.endBlock.Some?
  {
    if start + k * cfg.maxBlocks <= cfg.endBlock.value then start + k * cfg.maxBlocks else cfg.endBlock.value
  }

  lemma {:induction false} LevelNext(cfg: Config, start: int, k: nat)
    requires cfg.endBlock.Some?
    ensures Level(cfg, start, k + 1) == Level(cfg, Level(cfg, start, k), 1)
  {
    assert (k + 1) * cfg.maxBlocks == k * cfg.maxBlocks + cfg.maxBlocks;
  }

  /** A tick without a reorg below the end. */
  predicate Undisturbed(cfg: Config, c: Chain, s: Store) {
    EndIsSafe(cfg, c) && !Mismatch(cfg, s.db, c, Cursor(s.runs, cfg.chainId))
  }

  /** A completed tick without a reorg records a full range more, or the end. */
  lemma {:induction false} TickAdvance(cfg: Config, c: Chain, s: Store, o: Outcome, s': Store, cur: int)
    requires Tick(cfg, c, s, o, s') && Undisturbed(cfg, c, s)
    requires cur == Cursor(s.runs, cfg.chainId) <= cfg.endBlock.value
    ensures o.Done? ==> o.recorded == Cursor(s'.runs, cfg.chainId) == Level(cfg, cur, 1)
    ensures o.Stopped? ==> Cursor(s'.runs, cfg.chainId) == cur
  {
    TickCursor(cfg, c, s, o, s');
  }

  lemma {:induction false} DoneCountNext(outcomes: seq<Outcome>, n: nat)
    requires 0 < n <= |outcomes|
    ensures DoneCount(outcomes[..n]) == DoneCount(outcomes[..n - 1]) + if outcomes[n - 1].Done? then 1 else 0
  {
    assert outcomes[..n][..n - 1] == outcomes[..n - 1];
  }

  /** From any store at or below the end: the cursor depends only on the number of completed ticks, however many
      ticks failed in between. */
  lemma {:induction false} ExactProgress(cfg: Config, chains: seq<Chain>, stores: seq<Store>, outcomes: seq<Outcome>,
                                         n: nat)
    requires Ticks(cfg, chains, stores, outcomes) && n <= |chains| && cfg.endBlock.Some?
    requires forall i :: 0 <= i < n ==> Undisturbed(cfg, chains[i], stores[i])
    requires Cursor(stores[0].runs, cfg.chainId) <= cfg.endBlock.value
    ensures Cursor(stores[n].runs, cfg.chainId) ==
            Level(cfg, Cursor(stores[0].runs, cfg.chainId), DoneCount(outcomes[..n]))
  {
    if n > 0 {
      ExactProgress(cfg, chains, stores, outcomes, n - 1);
      DoneCountNext(outcomes, n);
      assert StepAt(cfg, chains, stores, outcomes, n - 1);
      TickAdvance(cfg, chains[n - 1], stores[n - 1], outcomes[n - 1], stores[n],
                  Cursor(stores[n - 1].runs, cfg.chainId));
      LevelNext(cfg, Cursor(stores[0].runs, cfg.chainId), DoneCount(outcomes[..n - 1]));
    }
  }

  /** The completed ticks it takes from `start` to the end. */
  function TicksToEnd(cfg: Config, start: int): nat
    requires cfg.endBlock.Some? && start <= cfg.endBlock.value
  {
    CeilDiv(cfg.endBlock.value - start, cfg.maxBlocks)
  }

  /** The end is reached after exactly `ceil((end + 1 - from) / max)` completed ticks, no sooner and no later, where
      `from` is the height after the first cursor. */
  lemma {:induction false} ReachesEndExactly(cfg: Config, chains: seq<Chain>, stores: seq<Store>,
                                             outcomes: seq<Outcome>, n: nat)
    requires Ticks(cfg, chains, stores, outcomes) && n <= |chains| && cfg.endBlock.Some?
    requires forall i :: 0 <= i < n ==> Undisturbed(cfg, chains[i], stores[i])
    requires Cursor(stores[0].runs, cfg.chainId) <= cfg.endBlock.value
    ensures Cursor(stores[n].runs, cfg.chainId) <= cfg.endBlock.value
    ensures Cursor(stores[n].runs, cfg.chainId) == cfg.endBlock.value <==>
            DoneCount(outcomes[..n]) >= TicksToEnd(cfg, Cursor(stores[0].runs, cfg.chainId))
  {
    ExactProgress(cfg, chains, stores, outcomes, n);
    CeilDivLeast(cfg.endBlock.value - Cursor(stores[0].runs, cfg.chainId), cfg.maxBlocks, DoneCount(outcomes[..n]));
  }

  // ---------------------------------------------------------------- the poll loop

  /** Every completed tick was reported. */
  ghost predicate Answered(outcomes: seq<Outcome>, reports: seq<Result<Report>>)
    requires |outcomes| == |reports|
  {
    forall i :: 0 <= i < |outcomes| && outcomes[i].Done? ==> reports[i] == Ok(Report(outcomes[i].recorded, false))
  }

  /** The loop stops only with the cursor at or beyond the configured end. */
  lemma {:induction false} PollStopsAtEnd(cfg: Config, chains: seq<Chain>, stores: seq<Store>, outcomes: seq<Outcome>,
                                          reports: seq<Result<Report>>)
    requires PollRun(cfg, chains, stores, outcomes, reports, true)
    ensures cfg.endBlock.Some? && Cursor(stores[|reports|].runs, cfg.chainId) >= cfg.endBlock.value
  {
    var n := |reports| - 1;
    assert StepAt(cfg, chains, stores, outcomes, n);
    TickCursor(cfg, chains[n], stores[n], outcomes[n], stores[n + 1]);
    assert Reported(cfg, stores[n], outcomes[n], reports[n]) && EndsLoop(cfg, reports[n]);
  }

  /** As long as the loop goes on, the cursor is below the end. */
  lemma {:induction false} LoopBelowEnd(cfg: Config, chains: seq<Chain>, stores: seq<Store>, outcomes: seq<Outcome>,
                                        reports: seq<Result<Report>>, reached: bool, n: nat)
    requires PollRun(cfg, chains, stores, outcomes, reports, reached) && cfg.endBlock.Some?
    requires forall i :: 0 <= i < |chains| ==> Undisturbed(cfg, chains[i], stores[i])
    requires Answered(outcomes, reports) && Cursor(stores[0].runs, cfg.chainId) < cfg.endBlock.value
    requires n < |reports| || (n == |reports| && !reached)
    ensures Cursor(stores[n].runs, cfg.chainId) < cfg.endBlock.value
  {
    if n > 0 {
      LoopBelowEnd(cfg, chains, stores, outcomes, reports, reached, n - 1);
      assert StepAt(cfg, chains, stores, outcomes, n - 1);
      TickAdvance(cfg, chains[n - 1], stores[n - 1], outcomes[n - 1], stores[n],
                  Cursor(stores[n - 1].runs, cfg.chainId));
      assert !EndsLoop(cfg, reports[n - 1]);
    }
  }

  /** From a cursor below the end. */
  lemma {:induction false} PollBelowEnd(cfg: Config, chains: seq<Chain>, stores: seq<Store>, outcomes: seq<Outcome>,
                                        reports: seq<Result<Report>>, reached: bool)
    requires PollRun(cfg, chains, stores, outcomes, reports, reached) && cfg.endBlock.Some?
    requires forall i :: 0 <= i < |chains| ==> Undisturbed(cfg, chains[i], stores[i])
    requires Answered(outcomes, reports) && Cursor(stores[0].runs, cfg.chainId) < cfg.endBlock.value
    ensures reached <==> DoneCount(outcomes) == TicksToEnd(cfg, Cursor(stores[0].runs, cfg.chainId))
    ensures DoneCount(outcomes) <= TicksToEnd(cfg, Cursor(stores[0].runs, cfg.chainId))
  {
    var n := |reports|;
    assert outcomes[..n] == outcomes;
    ReachesEndExactly(cfg, chains, stores, outcomes, n);
    if reached {
      LoopBelowEnd(cfg, chains, stores, outcomes, reports, reached, n - 1);
      ReachesEndExactly(cfg, chains, stores, outcomes, n - 1);
      DoneCountNext(outcomes, n);
      assert StepAt(cfg, chains, stores, outcomes, n - 1);
      TickAdvance(cfg, chains[n - 1], stores[n - 1], outcomes[n - 1], stores[n],
                  Cursor(stores[n - 1].runs, cfg.chainId));
      assert EndsLoop(cfg, reports[n - 1]);
    } else {
      LoopBelowEnd(cfg, chains, stores, outcomes, reports, reached, n);
    }
  }

  /** At the end, a report of either kind ends the loop, and every completed tick has one. */
  lemma {:induction false} ReportAtEnd(cfg: Config, chains: seq<Chain>, stores: seq<Store>, outcomes: seq<Outcome>,
                                       reports: seq<Result<Report>>, reached: bool, i: nat)
    requires PollRun(cfg, chains, stores, outcomes, reports, reached) && cfg.endBlock.Some? && i < |reports|
    requires forall i :: 0 <= i < |chains| ==> Undisturbed(cfg, chains[i], stores[i])
    requires Answered(outcomes, reports) && Cursor(stores[0].runs, cfg.chainId) == cfg.endBlock.value
    ensures reports[i].Ok? <==> EndsLoop(cfg, reports[i])
    ensures outcomes[i].Done? <==> reports[i].Ok? && !reports[i].value.failed
  {
    ReachesEndExactly(cfg, chains, stores, outcomes, i);
    CeilDivLeast(0, cfg.maxBlocks, 0);
    assert StepAt(cfg, chains, stores, outcomes, i);
    TickAdvance(cfg, chains[i], stores[i], outcomes[i], stores[i + 1], Cursor(stores[i].runs, cfg.chainId));
    assert Reported(cfg, stores[i], outcomes[i], reports[i]);
  }

  lemma {:induction false} NoneDoneYet(cfg: Config, chains: seq<Chain>, stores: seq<Store>, outcomes: seq<Outcome>,
                                       reports: seq<Result<Report>>, reached: bool, n: nat)
    requires PollRun(cfg, chains, stores, outcomes, reports, reached) && cfg.endBlock.Some?
    requires forall i :: 0 <= i < |chains| ==> Undisturbed(cfg, chains[i], stores[i])
    requires Answered(outcomes, reports) && Cursor(stores[0].runs, cfg.chainId) == cfg.endBlock.value
    requires n < |reports| || (n == |reports| && !reached)
    ensures DoneCount(outcomes[..n]) == 0
  {
    if n > 0 {
      NoneDoneYet(cfg, chains, stores, outcomes, reports, reached, n - 1);
      DoneCountNext(outcomes, n);
      ReportAtEnd(cfg, chains, stores, outcomes, reports, reached, n - 1);
      assert !EndsLoop(cfg, reports[n - 1]);
    }
  }

  /** The completed ticks of a loop that starts at `start`: at least one, even with nothing left to do. */
  function TicksOfLoop(cfg: Config, start: int): nat
    requires cfg.endBlock.Some? && start <= cfg.endBlock.value
  {
    if TicksToEnd(cfg, start) == 0 then 1 else TicksToEnd(cfg, start)
  }

  /** The last report is that of a failed tick. */
  predicate EndsInFailure(reports: seq<Result<Report>>) {
    reports != [] && reports[|reports| - 1].Ok? && reports[|reports| - 1].value.failed
  }

  /** The poll loop ends at exactly the tick that completes the last range: from any cursor up to the end, it has
      stopped if and only if the number of completed ticks is `max(1, ceil((end + 1 - from) / max))`, and it never does
      more.  Only a loop that starts at the end may stop at a failed tick instead. */
  lemma {:induction false} PollEndsExactly(cfg: Config, chains: seq<Chain>, stores: seq<Store>, outcomes: seq<Outcome>,
                                           reports: seq<Result<Report>>, reached: bool)
    requires PollRun(cfg, chains, stores, outcomes, reports, reached) && cfg.endBlock.Some?
    requires forall i :: 0 <= i < |chains| ==> Undisturbed(cfg, chains[i], stores[i])
    requires Answered(outcomes, reports) && Cursor(stores[0].runs, cfg.chainId) <= cfg.endBlock.value
    ensures var start := Cursor(stores[0].runs, cfg.chainId);
            && DoneCount(outcomes) <= TicksOfLoop(cfg, start)
            && (reached <==> || DoneCount(outcomes) == TicksOfLoop(cfg, start)
                             || (start == cfg.endBlock.value && EndsInFailure(reports)))
  {
    var start, n := Cursor(stores[0].runs, cfg.chainId), |reports|;
    CeilDivLeast(cfg.endBlock.value - start, cfg.maxBlocks, 0);
    if start < cfg.endBlock.value {
      PollBelowEnd(cfg, chains, stores, outcomes, reports, reached);
    } else if n > 0 {
      assert outcomes[..n] == outcomes;
      NoneDoneYet(cfg, chains, stores, outcomes, reports, reached, n - 1);
      DoneCountNext(outcomes, n);
      ReportAtEnd(cfg, chains, stores, outcomes, reports, reached, n - 1);
    }
  }
}
