/** From the chain to the tables and the API: proposal status, vault rows and policy answers, each from the one log that
    decides it. */
module ChainUpdates {
  import opened Wrappers
  import opened Ledger
  import opened Tables
  import opened EventFold
  import opened TickPlan
  import opened PlanFacts
  import opened TickContract
  import opened Sync
  import opened StableChain
  import opened PolicyRead
  import opened ChainRows

  // ---------------------------------------------------------------- proposals, over a sequence of logs

  predicate Creates(e: Event, id: nat) {
    e.ProposalCreated? && CappedI64(e.proposalId) == id
  }

  predicate Executes(e: Event, id: nat) {
    e.ProposalExecuted? && CappedI64(e.proposalId) == id
  }

  predicate OpenRow(r: Row) {
    r.cols.ProposalCols? && r.cols.status == 0 && r.cols.executedBlock == None
  }

  predicate ExecutedRow(r: Row, h: nat) {
    r.cols.ProposalCols? && r.cols.status == 2 && r.cols.executedBlock == Some(h)
  }

  lemma {:induction false} ProposalStep(cfg: Config, d: Db, l: Located, id: nat, k: Key)
    requires k == ProposalKey(cfg.chainId, id) && ApplyLog(cfg, d, l).Ok?
    ensures var d' := ApplyLog(cfg, d, l).value;
            && (k !in d ==> (k in d' <==> Creates(l.log.event, id)) && (k in d' ==> OpenRow(d'[k])))
            && (k in d && OpenRow(d[k]) ==>
                  k in d' && if Executes(l.log.event, id) then ExecutedRow(d'[k], l.height) else OpenRow(d'[k]))
            && (forall h :: k in d && ExecutedRow(d[k], h) ==> k in d' && ExecutedRow(d'[k], h))
  {
  }

  /** The logs before `j` do not create the proposal; log `j` does. */
  predicate Created(ls: seq<Located>, id: nat, j: nat) {
    j < |ls| && Creates(ls[j].log.event, id) && forall i :: 0 <= i < j ==> !Creates(ls[i].log.event, id)
  }

  lemma {:induction false} NotCreated(cfg: Config, ls: seq<Located>, id: nat)
    requires ApplyLogs(cfg, map[], ls).Ok? && forall i :: 0 <= i < |ls| ==> !Creates(ls[i].log.event, id)
    ensures ProposalKey(cfg.chainId, id) !in ApplyLogs(cfg, map[], ls).value
  {
    if ls != [] {
      var front := ls[..|ls| - 1];
      NotCreated(cfg, front, id);
      ProposalStep(cfg, ApplyLogs(cfg, map[], front).value, ls[|ls| - 1], id, ProposalKey(cfg.chainId, id));
    }
  }

  /** Without an execution after its creation a proposal stays open. */
  lemma {:induction false} StaysOpen(cfg: Config, ls: seq<Located>, id: nat, j: nat)
    requires ApplyLogs(cfg, map[], ls).Ok? && Created(ls, id, j)
    requires forall i :: j < i < |ls| ==> !Executes(ls[i].log.event, id)
    ensures var d, k := ApplyLogs(cfg, map[], ls).value, ProposalKey(cfg.chainId, id); k in d && OpenRow(d[k])
  {
    var front, k := ls[..|ls| - 1], ProposalKey(cfg.chainId, id);
    if j == |ls| - 1 {
      NotCreated(cfg, front, id);
    } else {
      StaysOpen(cfg, front, id, j);
    }
    ProposalStep(cfg, ApplyLogs(cfg, map[], front).value, ls[|ls| - 1], id, k);
  }

  /** The first execution after the creation sets status 2 and the block, for good. */
  lemma {:induction false} ExecutedOnce(cfg: Config, ls: seq<Located>, id: nat, j: nat, e: nat)
    requires ApplyLogs(cfg, map[], ls).Ok? && Created(ls, id, j) && j < e < |ls| && Executes(ls[e].log.event, id)
    requires forall i :: j < i < e ==> !Executes(ls[i].log.event, id)
    ensures var d, k := ApplyLogs(cfg, map[], ls).value, ProposalKey(cfg.chainId, id);
            k in d && ExecutedRow(d[k], ls[e].height)
  {
    var front, k := ls[..|ls| - 1], ProposalKey(cfg.chainId, id);
    if e == |ls| - 1 {
      StaysOpen(cfg, front, id, j);
    } else {
      ExecutedOnce(cfg, front, id, j, e);
    }
    ProposalStep(cfg, ApplyLogs(cfg, map[], front).value, ls[|ls| - 1], id, k);
  }

  // ---------------------------------------------------------------- vaults, over a sequence of logs

  predicate Registers(e: Event, a: Address) {
    e.VaultRegistered? && e.vault == a
  }

  predicate Changes(e: Event, a: Address) {
    e.VaultStatusChanged? && e.vault == a
  }

  /** The row of a vault registered by `r` whose status was last changed by `change`, if at all. */
  predicate VaultShows(row: Row, r: Located, change: Option<Located>)
    requires r.log.event.VaultRegistered? && (change.Some? ==> change.value.log.event.VaultStatusChanged?)
  {
    && row.block == r.height && row.cols.VaultCols?
    && row.cols.name == r.log.event.name && row.cols.registeredTx == r.log.txHash
    && (change.None? ==> row.cols.vaultStatus == 0 && row.cols.statusChangedAt == None)
    && (change.Some? ==>
          && row.cols.vaultStatus == change.value.log.event.status
          && row.cols.statusChangedAt == Some(CappedI64(change.value.log.event.timestamp)))
  }

  lemma {:induction false} VaultStep(cfg: Config, d: Db, l: Located, a: Address, k: Key)
    requires k == VaultKey(cfg.chainId, a) && ApplyLog(cfg, d, l).Ok?
    ensures var d' := ApplyLog(cfg, d, l).value;
            && (k !in d ==> (k in d' <==> Registers(l.log.event, a)) && (k in d' ==> VaultShows(d'[k], l, None)))
            && (forall r: Located, change: Option<Located> ::
                  r.log.event.VaultRegistered? && (change.Some? ==> change.value.log.event.VaultStatusChanged?) &&
                  k in d && VaultShows(d[k], r, change) ==>
                  k in d' && VaultShows(d'[k], r, if Changes(l.log.event, a) then Some(l) else change))
  {
  }

  predicate RegisteredAt(ls: seq<Located>, a: Address, j: nat) {
    j < |ls| && Registers(ls[j].log.event, a) && forall i :: 0 <= i < j ==> !Registers(ls[i].log.event, a)
  }

  /** `change` is the last status change after log `j`, if there is any. */
  predicate LastChange(ls: seq<Located>, a: Address, j: nat, e: int) {
    && j <= e < |ls| && (e > j ==> Changes(ls[e].log.event, a))
    && forall i :: e < i < |ls| ==> !Changes(ls[i].log.event, a)
  }

  lemma {:induction false} NotRegistered(cfg: Config, ls: seq<Located>, a: Address)
    requires ApplyLogs(cfg, map[], ls).Ok? && forall i :: 0 <= i < |ls| ==> !Registers(ls[i].log.event, a)
    ensures VaultKey(cfg.chainId, a) !in ApplyLogs(cfg, map[], ls).value
  {
    if ls != [] {
      var front := ls[..|ls| - 1];
      NotRegistered(cfg, front, a);
      VaultStep(cfg, ApplyLogs(cfg, map[], front).value, ls[|ls| - 1], a, VaultKey(cfg.chainId, a));
    }
  }

  /** The first registration gives the row; the last status change after it, if any, its status. */
  lemma {:induction false} VaultAfter(cfg: Config, ls: seq<Located>, a: Address, j: nat, e: nat)
    requires ApplyLogs(cfg, map[], ls).Ok? && RegisteredAt(ls, a, j) && LastChange(ls, a, j, e)
    ensures var d, k := ApplyLogs(cfg, map[], ls).value, VaultKey(cfg.chainId, a);
            k in d && VaultShows(d[k], ls[j], if e > j then Some(ls[e]) else None)
  {
    var front, k := ls[..|ls| - 1], VaultKey(cfg.chainId, a);
    var last := |ls| - 1;
    if j == last {
      NotRegistered(cfg, front, a);
    } else if e == last {
      var before := ChangeBefore(front, a, j);
      VaultAfter(cfg, front, a, j, before);
    } else {
      VaultAfter(cfg, front, a, j, e);
    }
    VaultStep(cfg, ApplyLogs(cfg, map[], front).value, ls[last], a, k);
  }

  lemma {:induction false} ChangeBefore(ls: seq<Located>, a: Address, j: nat) returns (e: nat)
    requires j < |ls|
    ensures LastChange(ls, a, j, e)
  {
    e := |ls| - 1;
    while e > j && !Changes(ls[e].log.event, a)
      invariant j <= e < |ls| && forall i :: e < i < |ls| ==> !Changes(ls[i].log.event, a)
    {
      e := e - 1;
    }
  }

  // ---------------------------------------------------------------- on the chain

  /** At `p` the chain has a subscribed log that creates proposal `id`. */
  predicate CreationAt(cfg: Config, c: Chain, p: Place, id: nat) {
    OnChain(c, p) && Subscribed(cfg, LogAt(c, p)) && Creates(LogAt(c, p).event, id)
  }

  predicate ExecutionAt(cfg: Config, c: Chain, p: Place, id: nat) {
    OnChain(c, p) && Subscribed(cfg, LogAt(c, p)) && Executes(LogAt(c, p).event, id)
  }

  ghost predicate FirstCreation(cfg: Config, c: Chain, p: Place, id: nat) {
    CreationAt(cfg, c, p, id) && forall q :: CreationAt(cfg, c, q, id) ==> !Ahead(q, p)
  }

  /** `q` is the first execution after `p`. */
  ghost predicate FirstExecution(cfg: Config, c: Chain, p: Place, q: Place, id: nat) {
    && ExecutionAt(cfg, c, q, id) && Ahead(p, q)
    && forall r :: ExecutionAt(cfg, c, r, id) && Ahead(p, r) ==> !Ahead(r, q)
  }

  /** The index of a place among the fetched logs. */
  lemma {:induction false} IndexOf(cfg: Config, c: Chain, n: nat, places: seq<Place>, p: Place) returns (j: nat)
    requires n <= |c| && Places(cfg, c, 0, n, places) && At(c, places, Logs(cfg, c, 0, n))
    requires OnChain(c, p) && Subscribed(cfg, LogAt(c, p)) && p.height < n
    ensures j < |places| && places[j] == p && Logs(cfg, c, 0, n)[j] == Located(p.height, LogAt(c, p))
    ensures forall i :: 0 <= i < |places| ==> (Ahead(places[i], p) <==> i < j) && (Ahead(p, places[i]) <==> j < i)
  {
    assert Wanted(cfg, c, 0, n, p);
    j :| 0 <= j < |places| && places[j] == p;
  }

  lemma {:induction false} CreatedOnChain(cfg: Config, c: Chain, n: nat, places: seq<Place>, p: Place, id: nat)
    returns (j: nat)
    requires n <= |c| && Places(cfg, c, 0, n, places) && At(c, places, Logs(cfg, c, 0, n))
    requires FirstCreation(cfg, c, p, id) && p.height < n
    ensures j < |places| && places[j] == p && Created(Logs(cfg, c, 0, n), id, j)
    ensures forall i :: 0 <= i < |places| ==> (Ahead(p, places[i]) <==> j < i)
  {
    j := IndexOf(cfg, c, n, places, p);
    forall i | 0 <= i < j
      ensures !Creates(Logs(cfg, c, 0, n)[i].log.event, id)
    {
      assert Wanted(cfg, c, 0, n, places[i]) && Ahead(places[i], p);
      assert !CreationAt(cfg, c, places[i], id);
    }
  }

  lemma {:induction false} OpenOnChain(cfg: Config, c: Chain, n: nat, d: Db, p: Place, id: nat)
    requires n <= |c| && ApplyLogs(cfg, map[], Logs(cfg, c, 0, n)) == Ok(d)
    requires FirstCreation(cfg, c, p, id) && p.height < n
    requires forall q :: ExecutionAt(cfg, c, q, id) && Ahead(p, q) ==> q.height >= n
    ensures ProposalKey(cfg.chainId, id) in d && OpenRow(d[ProposalKey(cfg.chainId, id)])
  {
    var ls := Logs(cfg, c, 0, n);
    var places := LogsArePlaces(cfg, c, 0, n);
    var j := CreatedOnChain(cfg, c, n, places, p, id);
    forall i | j < i < |ls|
      ensures !Executes(ls[i].log.event, id)
    {
      assert Wanted(cfg, c, 0, n, places[i]) && Ahead(p, places[i]);
      assert !ExecutionAt(cfg, c, places[i], id);
    }
    StaysOpen(cfg, ls, id, j);
  }

  lemma {:induction false} ExecutedOnChain(cfg: Config, c: Chain, n: nat, d: Db, p: Place, q: Place, id: nat)
    requires n <= |c| && ApplyLogs(cfg, map[], Logs(cfg, c, 0, n)) == Ok(d)
    requires FirstCreation(cfg, c, p, id) && p.height < n
    requires FirstExecution(cfg, c, p, q, id) && q.height < n
    ensures ProposalKey(cfg.chainId, id) in d && ExecutedRow(d[ProposalKey(cfg.chainId, id)], q.height)
  {
    var ls := Logs(cfg, c, 0, n);
    var places := LogsArePlaces(cfg, c, 0, n);
    var j := CreatedOnChain(cfg, c, n, places, p, id);
    var e := IndexOf(cfg, c, n, places, q);
    assert Ahead(p, places[e]);
    forall i | j < i < e
      ensures !Executes(ls[i].log.event, id)
    {
      assert Wanted(cfg, c, 0, n, places[i]) && Ahead(p, places[i]) && Ahead(places[i], q);
      assert !ExecutionAt(cfg, c, places[i], id);
    }
    ExecutedOnce(cfg, ls, id, j, e);
  }

  predicate RegistrationAt(cfg: Config, c: Chain, p: Place, a: Address) {
    OnChain(c, p) && Subscribed(cfg, LogAt(c, p)) && Registers(LogAt(c, p).event, a)
  }

  predicate ChangeAt(cfg: Config, c: Chain, p: Place, a: Address) {
    OnChain(c, p) && Subscribed(cfg, LogAt(c, p)) && Changes(LogAt(c, p).event, a)
  }

  ghost predicate FirstRegistration(cfg: Config, c: Chain, p: Place, a: Address) {
    RegistrationAt(cfg, c, p, a) && forall q :: RegistrationAt(cfg, c, q, a) ==> !Ahead(q, p)
  }

  /** `q` is the last status change after `p` below height `n`, or is `p` if there is none. */
  ghost predicate LastChangeBelow(cfg: Config, c: Chain, n: nat, p: Place, q: Place, a: Address) {
    && (q == p || (ChangeAt(cfg, c, q, a) && Ahead(p, q) && q.height < n))
    && forall r :: ChangeAt(cfg, c, r, a) && Ahead(q, r) ==> r.height >= n
  }

  lemma {:induction false} VaultOnChain(cfg: Config, c: Chain, n: nat, d: Db, p: Place, q: Place, a: Address)
    requires n <= |c| && ApplyLogs(cfg, map[], Logs(cfg, c, 0, n)) == Ok(d)
    requires FirstRegistration(cfg, c, p, a) && p.height < n && LastChangeBelow(cfg, c, n, p, q, a)
    ensures VaultKey(cfg.chainId, a) in d
    ensures VaultShows(d[VaultKey(cfg.chainId, a)], Located(p.height, LogAt(c, p)),
                       if q == p then None else Some(Located(q.height, LogAt(c, q))))
  {
    var ls := Logs(cfg, c, 0, n);
    var places := LogsArePlaces(cfg, c, 0, n);
    var j := IndexOf(cfg, c, n, places, p);
    var e := IndexOf(cfg, c, n, places, q);
    forall i | 0 <= i < j
      ensures !Registers(ls[i].log.event, a)
    {
      assert Wanted(cfg, c, 0, n, places[i]) && Ahead(places[i], p);
      assert !RegistrationAt(cfg, c, places[i], a);
    }
    forall i | e < i < |ls|
      ensures !Changes(ls[i].log.event, a)
    {
      assert Wanted(cfg, c, 0, n, places[i]) && Ahead(q, places[i]);
      assert !ChangeAt(cfg, c, places[i], a);
    }
    VaultAfter(cfg, ls, a, j, e);
  }

  // ---------------------------------------------------------------- histories

  lemma {:induction false} ReplayAtRest(cfg: Config, stores: seq<Store>, chains: seq<Chain>, outcomes: seq<Outcome>,
                                        views: seq<Chain>, n: nat, c: Chain, count: int)
    requires History(cfg, stores, chains, outcomes, views) && n <= |chains|
    requires Growing(chains) && c == LastChain(chains, n)
    requires Untroubled(cfg, chains, outcomes, n) && AtRest(outcomes, n)
    requires count == Cursor(stores[n].runs, cfg.chainId) + 1
    ensures 0 <= count <= |c|
    ensures ApplyLogs(cfg, map[], Logs(cfg, c, 0, count)) == Ok(Derived(stores[n].db, cfg.chainId))
  {
    ReplayedHistory(cfg, stores, chains, outcomes, views, n);
  }

  /** The status of every proposal: created once, it is open with status 0 until its first later execution, which sets
      status 2 and that block; further executions change nothing. */
  lemma {:induction false} ProposalStatus(cfg: Config, stores: seq<Store>, chains: seq<Chain>, outcomes: seq<Outcome>,
                                          views: seq<Chain>, n: nat, c: Chain, cur: int, p: Place, id: nat)
    requires History(cfg, stores, chains, outcomes, views) && n <= |chains|
    requires Growing(chains) && c == LastChain(chains, n)
    requires Untroubled(cfg, chains, outcomes, n) && AtRest(outcomes, n)
    requires cur == Cursor(stores[n].runs, cfg.chainId) && FirstCreation(cfg, c, p, id) && p.height <= cur
    ensures ProposalKey(cfg.chainId, id) in stores[n].db
    ensures (forall q :: ExecutionAt(cfg, c, q, id) && Ahead(p, q) ==> q.height > cur) ==>
              OpenRow(stores[n].db[ProposalKey(cfg.chainId, id)])
    ensures forall q :: FirstExecution(cfg, c, p, q, id) && q.height <= cur ==>
              ExecutedRow(stores[n].db[ProposalKey(cfg.chainId, id)], q.height)
  {
    var d, k := Derived(stores[n].db, cfg.chainId), ProposalKey(cfg.chainId, id);
    ReplayAtRest(cfg, stores, chains, outcomes, views, n, c, cur + 1);
    CreatedStored(cfg, c, cur + 1, d, p, id);
    if forall q :: ExecutionAt(cfg, c, q, id) && Ahead(p, q) ==> q.height > cur {
      OpenOnChain(cfg, c, cur + 1, d, p, id);
    }
    forall q | FirstExecution(cfg, c, p, q, id) && q.height <= cur
      ensures ExecutedRow(stores[n].db[k], q.height)
    {
      ExecutedOnChain(cfg, c, cur + 1, d, p, q, id);
    }
  }

  lemma {:induction false} CreatedStored(cfg: Config, c: Chain, n: nat, d: Db, p: Place, id: nat)
    requires n <= |c| && ApplyLogs(cfg, map[], Logs(cfg, c, 0, n)) == Ok(d)
    requires FirstCreation(cfg, c, p, id) && p.height < n
    ensures ProposalKey(cfg.chainId, id) in d
  {
    var places := LogsArePlaces(cfg, c, 0, n);
    var j := CreatedOnChain(cfg, c, n, places, p, id);
    Stored(cfg, Logs(cfg, c, 0, n), id, j);
  }

  lemma {:induction false} Stored(cfg: Config, ls: seq<Located>, id: nat, j: nat)
    requires ApplyLogs(cfg, map[], ls).Ok? && Created(ls, id, j)
    ensures ProposalKey(cfg.chainId, id) in ApplyLogs(cfg, map[], ls).value
  {
    var e := j + 1;
    while e < |ls| && !Executes(ls[e].log.event, id)
      invariant j < e <= |ls| && forall i :: j < i < e ==> !Executes(ls[i].log.event, id)
    {
      e := e + 1;
    }
    if e == |ls| {
      StaysOpen(cfg, ls, id, j);
    } else {
      ExecutedOnce(cfg, ls, id, j, e);
    }
  }

  /** Every vault row: block, name and transaction of the vault's first registration, status and time of the last status
      change after it; status 0 and no time if there is none. */
  lemma {:induction false} VaultColumns(cfg: Config, stores: seq<Store>, chains: seq<Chain>, outcomes: seq<Outcome>,
                                        views: seq<Chain>, n: nat, c: Chain, cur: int, p: Place, q: Place, a: Address)
    requires History(cfg, stores, chains, outcomes, views) && n <= |chains|
    requires Growing(chains) && c == LastChain(chains, n)
    requires Untroubled(cfg, chains, outcomes, n) && AtRest(outcomes, n)
    requires cur == Cursor(stores[n].runs, cfg.chainId) && FirstRegistration(cfg, c, p, a) && p.height <= cur
    requires LastChangeBelow(cfg, c, cur + 1, p, q, a)
    ensures VaultKey(cfg.chainId, a) in stores[n].db
    ensures VaultShows(stores[n].db[VaultKey(cfg.chainId, a)], Located(p.height, LogAt(c, p)),
                       if q == p then None else Some(Located(q.height, LogAt(c, q))))
  {
    ReplayAtRest(cfg, stores, chains, outcomes, views, n, c, cur + 1);
    VaultOnChain(cfg, c, cur + 1, Derived(stores[n].db, cfg.chainId), p, q, a);
  }

  // ---------------------------------------------------------------- policies

  /** At `p` the chain has a subscribed authorisation or revocation of the agent. */
  predicate SettingAt(cfg: Config, c: Chain, p: Place, agent: Address) {
    && OnChain(c, p) && Subscribed(cfg, LogAt(c, p))
    && (LogAt(c, p).event.AgentAuthorized? || LogAt(c, p).event.AgentRevoked?) && LogAt(c, p).event.agent == agent
  }

  /** `p` is the last one up to height `cur`. */
  ghost predicate LastSettingAt(cfg: Config, c: Chain, cur: int, p: Place, agent: Address) {
    && SettingAt(cfg, c, p, agent) && p.height <= cur
    && forall q :: SettingAt(cfg, c, q, agent) && q.height <= cur ==> !Ahead(p, q)
  }

  /** The answer is the authorisation or revocation `e` of block `h`. */
  predicate Tells(answer: Option<Policy>, e: Event, h: nat) {
    && answer.Some? && answer.value.block == h
    && (e.AgentRevoked? ==> !answer.value.authorized && answer.value.cap == None)
    && (e.AgentAuthorized? ==> answer.value.authorized && answer.value.cap == Some(e.maxPerWindow))
  }

  /** The replay is the last setting. */
  lemma {:induction false} ReplayIsLast(cfg: Config, c: Chain, cur: int, agent: Address, p: Place)
    requires -1 <= cur < |c| && LastSettingAt(cfg, c, cur, p, agent)
    ensures Tells(Replay(Logs(cfg, c, 0, cur + 1), agent), LogAt(c, p).event, p.height)
  {
    var ls := Logs(cfg, c, 0, cur + 1);
    var places := LogsArePlaces(cfg, c, 0, cur + 1);
    var j := IndexOf(cfg, c, cur + 1, places, p);
    var i := LastSetting(ls, agent);
    forall x | j < x < |ls|
      ensures !Sets(ls[x], agent)
    {
      assert Wanted(cfg, c, 0, cur + 1, places[x]) && Ahead(p, places[x]);
      assert !SettingAt(cfg, c, places[x], agent);
    }
    assert Sets(ls[j], agent) && i == j;
    assert ls[..i + 1][|ls[..i + 1]| - 1] == ls[i];
  }

  lemma {:induction false} ReplayIsNone(cfg: Config, c: Chain, cur: int, agent: Address)
    requires -1 <= cur < |c| && forall p :: SettingAt(cfg, c, p, agent) ==> p.height > cur
    ensures Replay(Logs(cfg, c, 0, cur + 1), agent) == None
  {
    var ls := Logs(cfg, c, 0, cur + 1);
    var places := LogsArePlaces(cfg, c, 0, cur + 1);
    forall i | 0 <= i < |ls|
      ensures !Sets(ls[i], agent)
    {
      assert Wanted(cfg, c, 0, cur + 1, places[i]);
      assert !SettingAt(cfg, c, places[i], agent);
    }
    var i := LastSetting(ls, agent);
  }

  /** After a completed tick on a growing chain the API's answer about an agent is the last subscribed authorisation or
      revocation of the agent up to the cursor: its kind, its window cap and its block; none if there is none. */
  lemma {:induction false} AgentAnswer(cfg: Config, stores: seq<Store>, chains: seq<Chain>, outcomes: seq<Outcome>,
                                       views: seq<Chain>, n: nat, cur: int, agent: Address, answer: Option<Policy>)
    requires History(cfg, stores, chains, outcomes, views) && n < |chains| && Growing(chains)
    requires outcomes[n].Done? && Numbered(chains[n]) && cur == Cursor(stores[n + 1].runs, cfg.chainId)
    requires IsAnswer(stores[n + 1].db, cfg.chainId, agent, answer)
    ensures (forall p :: SettingAt(cfg, chains[n], p, agent) ==> p.height > cur) ==> answer == None
    ensures forall p :: LastSettingAt(cfg, chains[n], cur, p, agent) ==>
              Tells(answer, LogAt(chains[n], p).event, p.height)
  {
    AgentAfterTick(cfg, stores, chains, outcomes, views, n, agent, answer);
    if forall p :: SettingAt(cfg, chains[n], p, agent) ==> p.height > cur {
      ReplayIsNone(cfg, chains[n], cur, agent);
    }
    forall p | LastSettingAt(cfg, chains[n], cur, p, agent)
      ensures Tells(answer, LogAt(chains[n], p).event, p.height)
    {
      ReplayIsLast(cfg, chains[n], cur, agent, p);
    }
  }

  // ---------------------------------------------------------------- when no two logs contend

  /** If log indices increase within each block, as on every real chain, no deposit, policy, leg or weight log loses its
      key to another. */
  lemma {:induction false} NumberedFirst(cfg: Config, c: Chain, p: Place)
    requires Numbered(c) && OnChain(c, p) && WritesRow(LogAt(c, p).event)
    requires !LogAt(c, p).event.ProposalCreated? && !LogAt(c, p).event.VoteCast?
    ensures FirstOfItsKey(cfg, c, p)
  {
    forall q | OnChain(c, q) && Ahead(q, p) && Subscribed(cfg, LogAt(c, q))
      ensures !Contend(q.height, LogAt(c, q), p.height, LogAt(c, p))
    {
      if q.height == p.height {
        assert c[p.height].logs[q.position].index < c[p.height].logs[p.position].index;
      }
    }
  }
}
