/** From the chain to the tables, log by log and column by column: what each event of the chain leaves in which row. */
module ChainRows {
  import opened Wrappers
  import opened Ledger
  import opened Tables
  import opened EventFold
  import opened TickPlan
  import opened PlanFacts
  import opened TickContract
  import opened Sync
  import opened StableChain

  // ---------------------------------------------------------------- integers as the database stores them

  /** `u64 as i64`. */
  function AsI64(u: nat): int {
    if u < 0x8000_0000_0000_0000 then u else u - 0x1_0000_0000_0000_0000
  }

  /** `try_into().unwrap_or(i64::MAX)`. */
  function CappedI64(w: nat): nat {
    if w < 0x8000_0000_0000_0000 then w else 0x7FFF_FFFF_FFFF_FFFF
  }

  /** A sum that saturates at the largest 256-bit word. */
  function Capped256(sum: nat): nat {
    if sum < 0x1_0000_0000_0000_0000_0000_0000_0000_0000_0000_0000_0000_0000_0000_0000_0000_0000 then sum
    else 0xFFFF_FFFF_FFFF_FFFF_FFFF_FFFF_FFFF_FFFF_FFFF_FFFF_FFFF_FFFF_FFFF_FFFF_FFFF_FFFF
  }

  // ---------------------------------------------------------------- the row of an event

  /** The events that write a row. */
  predicate WritesRow(e: Event) {
    || e.AgentDeposit? || e.AgentDepositRouted? || e.AgentAuthorized? || e.AgentRevoked? || e.RouterDeposit?
    || e.ProposalCreated? || e.VoteCast? || e.WeightsApplied?
  }

  /** The tables hold what log `log` of block `h` says: under the event's key, every column is the event's field. */
  ghost predicate RowShows(cfg: Config, db: Db, h: nat, log: Log) {
    var e, id := log.event, cfg.chainId;
    if e.AgentDeposit? then
      var k := DepositKey(id, h, log.index);
      k in db && db[k].block == h && db[k].cols.DepositCols? &&
      var row := db[k].cols;
      && row.txHash == log.txHash && row.paymentId == e.paymentId && row.orderId == e.orderId
      && row.agent == e.agent && row.receiver == e.receiver && row.amount == e.amount && row.shares == e.shares
      && row.windowId == AsI64(e.windowId) && row.depositVault == Some(cfg.vault)
    else if e.AgentDepositRouted? then
      var k := DepositKey(id, h, log.index);
      k in db && db[k].block == h && db[k].cols.DepositCols? &&
      var row := db[k].cols;
      && row.txHash == log.txHash && row.paymentId == e.paymentId && row.orderId == e.orderId
      && row.agent == e.agent && row.receiver == e.receiver && row.amount == e.amount
      && row.shares == Capped256(Sum(e.sharesPerLeg))
      && row.windowId == AsI64(e.windowId) && row.depositVault == None
    else if e.AgentAuthorized? then
      var k := PolicyKey(id, h, log.index);
      k in db && db[k].block == h && db[k].cols.PolicyCols? &&
      var row := db[k].cols;
      && row.txHash == log.txHash && row.agent == e.agent && !row.revoked && row.validUntil == Some(AsI64(e.validUntil))
      && row.maxPerPayment == Some(e.maxPerPayment) && row.maxPerWindow == Some(e.maxPerWindow)
      && row.policyReceiver == Some(e.receiver)
    else if e.AgentRevoked? then
      var k := PolicyKey(id, h, log.index);
      k in db && db[k].block == h && db[k].cols.PolicyCols? &&
      var row := db[k].cols;
      && row.txHash == log.txHash && row.agent == e.agent && row.revoked && row.validUntil == None
      && row.maxPerPayment == None && row.maxPerWindow == None && row.policyReceiver == None
    else if e.RouterDeposit? then
      var k := LegKey(id, h, log.index);
      k in db && db[k].block == h && db[k].cols.LegCols? &&
      var row := db[k].cols;
      && row.txHash == log.txHash && row.paymentId == log.txHash && row.depositor == e.depositor
      && row.legVault == e.vault && row.amount == e.amount && row.shares == e.shares && row.weightBps == e.weightBps
    else if e.ProposalCreated? then
      var k := ProposalKey(id, CappedI64(e.proposalId));
      k in db && db[k].block == h && db[k].cols.ProposalCols? &&
      var row := db[k].cols;
      && row.logIndex == log.index && row.txHash == log.txHash && row.proposer == e.proposer && row.createdAt == h
      && row.deadline == AsI64(e.deadline)
    else if e.VoteCast? then
      var k := VoteKey(id, CappedI64(e.proposalId), e.voter);
      k in db && db[k].block == h && db[k].cols.VoteCols? &&
      var row := db[k].cols;
      row.logIndex == log.index && row.txHash == log.txHash && row.support && row.weight == e.power
    else if e.WeightsApplied? then
      var k := WeightKey(id, log.address, h, log.index);
      k in db && db[k].block == h && db[k].cols.WeightCols? &&
      var row := db[k].cols;
      && row.txHash == log.txHash && row.vaults == e.vaults && |row.bps| == |e.bps|
      && forall i :: 0 <= i < |e.bps| ==> row.bps[i] == CappedI64(e.bps[i])
    else
      true
  }

  /** Two logs write under one key: deposits, policies and legs by block and log index, weights by contract, block and
      log index, proposals by id, votes by id and voter. */
  predicate Contend(h: nat, a: Log, h': nat, b: Log) {
    var e, f := a.event, b.event;
    if e.AgentDeposit? || e.AgentDepositRouted? then
      (f.AgentDeposit? || f.AgentDepositRouted?) && h == h' && a.index == b.index
    else if e.AgentAuthorized? || e.AgentRevoked? then
      (f.AgentAuthorized? || f.AgentRevoked?) && h == h' && a.index == b.index
    else if e.RouterDeposit? then
      f.RouterDeposit? && h == h' && a.index == b.index
    else if e.WeightsApplied? then
      f.WeightsApplied? && a.address == b.address && h == h' && a.index == b.index
    else if e.ProposalCreated? then
      f.ProposalCreated? && CappedI64(e.proposalId) == CappedI64(f.proposalId)
    else
      e.VoteCast? && f.VoteCast? && CappedI64(e.proposalId) == CappedI64(f.proposalId) && e.voter == f.voter
  }

  /** No earlier log the indexer fetches writes under the same key. */
  ghost predicate FirstOfItsKey(cfg: Config, c: Chain, p: Place)
    requires OnChain(c, p)
  {
    forall q :: OnChain(c, q) && Ahead(q, p) && Subscribed(cfg, LogAt(c, q)) ==>
      !Contend(q.height, LogAt(c, q), p.height, LogAt(c, p))
  }

  lemma {:induction false} ContendIff(cfg: Config, h: nat, a: Log, h': nat, b: Log)
    requires WritesRow(b.event)
    ensures EntryOf(cfg, Located(h', b)).Some?
    ensures Contributes(cfg, Located(h, a), EntryOf(cfg, Located(h', b)).value.0) <==> Contend(h, a, h', b)
  {
  }

  /** A stored row that agrees with the fold's, running columns aside. */
  lemma {:induction false} EntryShows(cfg: Config, db: Db, h: nat, log: Log)
    requires EntryOf(cfg, Located(h, log)).Some?
    requires var e := EntryOf(cfg, Located(h, log)).value; e.0 in db && Fixed(db[e.0]) == e.1
    ensures RowShows(cfg, db, h, log)
  {
    if log.event.AgentDepositRouted? {
      SaturatesOnce(log.event.sharesPerLeg);
    }
  }

  /** The first log under a key decides the fold's row. */
  lemma {:induction false} FirstAt(cfg: Config, ls: seq<Located>, j: nat, k: Key)
    requires j < |ls| && Contributes(cfg, ls[j], k) && forall i :: 0 <= i < j ==> !Contributes(cfg, ls[i], k)
    ensures First(cfg, ls, k) == Some(EntryOf(cfg, ls[j]).value.1)
  {
    if j == |ls| - 1 {
      FirstIff(cfg, ls[..j], k);
    } else {
      FirstAt(cfg, ls[..|ls| - 1], j, k);
    }
  }

  /** On the chain: the row of a log that is the first of its key. */
  lemma {:induction false} FirstOnChain(cfg: Config, c: Chain, n: nat, p: Place)
    requires n <= |c| && OnChain(c, p) && p.height < n && Subscribed(cfg, LogAt(c, p)) && WritesRow(LogAt(c, p).event)
    requires FirstOfItsKey(cfg, c, p)
    ensures var e := EntryOf(cfg, Located(p.height, LogAt(c, p)));
            e.Some? && First(cfg, Logs(cfg, c, 0, n), e.value.0) == Some(e.value.1)
  {
    var ls := Logs(cfg, c, 0, n);
    var places := LogsArePlaces(cfg, c, 0, n);
    assert Wanted(cfg, c, 0, n, p);
    var j :| 0 <= j < |places| && places[j] == p;
    ContendIff(cfg, p.height, LogAt(c, p), p.height, LogAt(c, p));
    var k := EntryOf(cfg, ls[j]).value.0;
    forall i | 0 <= i < j
      ensures !Contributes(cfg, ls[i], k)
    {
      assert Wanted(cfg, c, 0, n, places[i]) && Ahead(places[i], p);
      ContendIff(cfg, places[i].height, LogAt(c, places[i]), p.height, LogAt(c, p));
    }
    FirstAt(cfg, ls, j, k);
  }

  // ---------------------------------------------------------------- histories

  /** After `n` ticks the index describes chain `c`: the view of a healthy history, or the growing chain of any. */
  ghost predicate Describes(cfg: Config, stores: seq<Store>, chains: seq<Chain>, outcomes: seq<Outcome>,
                            views: seq<Chain>, n: nat, c: Chain)
  {
    && History(cfg, stores, chains, outcomes, views) && n <= |chains|
    && (|| (c == views[n] && forall i :: 0 <= i < n ==> Healthy(cfg, chains[i], stores[i], outcomes[i], stores[i + 1]))
        || (c == LastChain(chains, n) && Growing(chains)))
  }

  lemma {:induction false} DescribesSynced(cfg: Config, stores: seq<Store>, chains: seq<Chain>, outcomes: seq<Outcome>,
                                           views: seq<Chain>, n: nat, c: Chain)
    requires Describes(cfg, stores, chains, outcomes, views, n, c)
    ensures Synced(cfg, stores[n].db, Cursor(stores[n].runs, cfg.chainId), c)
  {
    if c == LastChain(chains, n) && Growing(chains) {
      StableAlways(cfg, stores, chains, outcomes, views, n);
      StableSynced(cfg, stores[n], c);
    } else {
      IndexRefinesChain(cfg, stores, chains, outcomes, views, n);
    }
  }

  lemma {:induction false} SyncedShows(cfg: Config, db: Db, cur: int, c: Chain, p: Place)
    requires Synced(cfg, db, cur, c) && OnChain(c, p) && p.height <= cur
    requires Subscribed(cfg, LogAt(c, p)) && WritesRow(LogAt(c, p).event) && FirstOfItsKey(cfg, c, p)
    ensures RowShows(cfg, db, p.height, LogAt(c, p))
  {
    var l := Located(p.height, LogAt(c, p));
    FirstOnChain(cfg, c, cur + 1, p);
    var k := EntryOf(cfg, l).value.0;
    CanonicalLookup(cfg, c, cur, k);
    assert k in UpTo(Events(db, cfg.chainId), cur);
    EntryShows(cfg, db, p.height, LogAt(c, p));
  }

  /** Every watched log of the chain up to the cursor has its row, unless an earlier one took its key: over any healthy
      history, and over any history on a growing chain, each column of the row is the field of the event. */
  lemma {:induction false} EveryEventHasItsRow(cfg: Config, stores: seq<Store>, chains: seq<Chain>,
                                               outcomes: seq<Outcome>, views: seq<Chain>, n: nat, c: Chain, p: Place)
    requires Describes(cfg, stores, chains, outcomes, views, n, c)
    requires OnChain(c, p) && p.height <= Cursor(stores[n].runs, cfg.chainId)
    requires Subscribed(cfg, LogAt(c, p)) && WritesRow(LogAt(c, p).event) && FirstOfItsKey(cfg, c, p)
    ensures RowShows(cfg, stores[n].db, p.height, LogAt(c, p))
  {
    DescribesSynced(cfg, stores, chains, outcomes, views, n, c);
    SyncedShows(cfg, stores[n].db, Cursor(stores[n].runs, cfg.chainId), c, p);
  }

  /** And no other row: every event row up to the cursor is that of some watched log of the chain. */
  lemma {:induction false} EveryRowHasItsEvent(cfg: Config, stores: seq<Store>, chains: seq<Chain>,
                                               outcomes: seq<Outcome>, views: seq<Chain>, n: nat, c: Chain, k: Key)
    returns (p: Place)
    requires Describes(cfg, stores, chains, outcomes, views, n, c)
    requires k in stores[n].db && k.cid == cfg.chainId && stores[n].db[k].block <= Cursor(stores[n].runs, cfg.chainId)
    requires k.DepositKey? || k.PolicyKey? || k.LegKey? || k.WeightKey? || k.VoteKey? || k.ProposalKey?
    ensures OnChain(c, p) && Subscribed(cfg, LogAt(c, p)) && WritesRow(LogAt(c, p).event)
    ensures p.height == stores[n].db[k].block && RowShows(cfg, stores[n].db, p.height, LogAt(c, p))
  {
    var db, cur := stores[n].db, Cursor(stores[n].runs, cfg.chainId);
    DescribesSynced(cfg, stores, chains, outcomes, views, n, c);
    assert k in UpTo(Events(db, cfg.chainId), cur);
    CanonicalLookup(cfg, c, cur, k);
    p := RowPlace(cfg, db, c, cur, k);
  }

  lemma {:induction false} RowPlace(cfg: Config, db: Db, c: Chain, cur: int, k: Key) returns (p: Place)
    requires 0 <= cur < |c| && k in db && First(cfg, Logs(cfg, c, 0, cur + 1), k) == Some(Fixed(db[k]))
    ensures OnChain(c, p) && Subscribed(cfg, LogAt(c, p)) && WritesRow(LogAt(c, p).event)
    ensures p.height == db[k].block && RowShows(cfg, db, p.height, LogAt(c, p))
  {
    var ls := Logs(cfg, c, 0, cur + 1);
    var places := LogsArePlaces(cfg, c, 0, cur + 1);
    var j := FirstFrom(cfg, ls, k);
    p := places[j];
    assert Wanted(cfg, c, 0, cur + 1, p);
    EntryShows(cfg, db, p.height, LogAt(c, p));
  }

  lemma {:induction false} FirstFrom(cfg: Config, ls: seq<Located>, k: Key) returns (j: nat)
    requires First(cfg, ls, k).Some?
    ensures j < |ls| && EntryOf(cfg, ls[j]) == Some((k, First(cfg, ls, k).value))
  {
    if First(cfg, ls[..|ls| - 1], k).Some? {
      j := FirstFrom(cfg, ls[..|ls| - 1], k);
    } else {
      j := |ls| - 1;
    }
  }
}
