/** The API's answer about an agent's policy, against a replay of the agent's authorisations and revocations. */
module PolicyRead {
  import opened Wrappers
  import opened Ledger
  import opened Tables
  import opened EventFold
  import opened TickPlan
  import opened PlanFacts
  import opened TickContract
  import opened Sync
  import opened StableChain

  /** What `get_agent` reports: the flag, the window cap, and the block it was set in. */
  datatype Policy = Policy(authorized: bool, cap: Option<Word>, block: nat)

  // ---------------------------------------------------------------- the query

  /** The row is a policy row of this agent on this chain. */
  predicate Candidate(db: Db, cid: nat, agent: Address, k: Key) {
    k in db && k.PolicyKey? && k.cid == cid && db[k].cols.PolicyCols? && db[k].cols.agent == agent
  }

  function PolicyOf(r: Row): Policy
    requires r.cols.PolicyCols?
  {
    Policy(!r.cols.revoked, r.cols.maxPerWindow, r.block)
  }

  /** `ORDER BY block_number, log_index`. */
  predicate UpToRow(db: Db, a: Key, b: Key)
    requires a in db && b in db && a.PolicyKey? && b.PolicyKey?
  {
    db[a].block < db[b].block || (db[a].block == db[b].block && a.index <= b.index)
  }

  ghost predicate Newest(db: Db, cid: nat, agent: Address, k: Key) {
    Candidate(db, cid, agent, k) && forall a :: Candidate(db, cid, agent, a) ==> UpToRow(db, a, k)
  }

  /** The answer is that of the newest row, or none if there is no row. */
  ghost predicate IsAnswer(db: Db, cid: nat, agent: Address, answer: Option<Policy>) {
    match answer
    case None => forall k :: !Candidate(db, cid, agent, k)
    case Some(p) => exists k :: Newest(db, cid, agent, k) && p == PolicyOf(db[k])
  }

  method GetAgent(db: Db, cid: nat, agent: Address) returns (answer: Option<Policy>)
    ensures IsAnswer(db, cid, agent, answer)
  {
    var best: Option<Key>, todo := None, db.Keys;
    while todo != {}
      invariant todo <= db.Keys
      invariant best.None? ==> forall a :: a !in todo ==> !Candidate(db, cid, agent, a)
      invariant best.Some? ==> Candidate(db, cid, agent, best.value) &&
                               forall a :: a !in todo && Candidate(db, cid, agent, a) ==> UpToRow(db, a, best.value)
      decreases |todo|
    {
      var k :| k in todo;
      if Candidate(db, cid, agent, k) && (best.None? || UpToRow(db, best.value, k)) {
        best := Some(k);
      }
      todo := todo - {k};
    }
    if best.None? {
      return None;
    }
    assert Newest(db, cid, agent, best.value);
    return Some(PolicyOf(db[best.value]));
  }

  // ---------------------------------------------------------------- the replay

  /** The log sets or clears this agent's policy. */
  predicate Sets(l: Located, agent: Address) {
    (l.log.event.AgentAuthorized? || l.log.event.AgentRevoked?) && l.log.event.agent == agent
  }

  /** The policy after replaying `ls` in order. */
  function Replay(ls: seq<Located>, agent: Address): Option<Policy> {
    if ls == [] then
      None
    else
      var l := ls[|ls| - 1];
      if !Sets(l, agent) then
        Replay(ls[..|ls| - 1], agent)
      else if l.log.event.AgentRevoked? then
        Some(Policy(false, None, l.height))
      else
        Some(Policy(true, Some(l.log.event.maxPerWindow), l.height))
  }

  predicate Earlier(a: Located, b: Located) {
    a.height < b.height || (a.height == b.height && a.log.index < b.log.index)
  }

  /** Logs come in (block, log index) order without repetition. */
  ghost predicate Ordered(ls: seq<Located>) {
    forall i, j :: 0 <= i < j < |ls| ==> Earlier(ls[i], ls[j])
  }

  /** Within each block, log indices increase. */
  ghost predicate Numbered(c: Chain) {
    forall h, i, j :: 0 <= h < |c| && 0 <= i < j < |c[h].logs| ==> c[h].logs[i].index < c[h].logs[j].index
  }

  lemma {:induction false} BlockLogsOrdered(cfg: Config, h: nat, logs: seq<Log>)
    requires forall i, j :: 0 <= i < j < |logs| ==> logs[i].index < logs[j].index
    ensures Ordered(BlockLogs(cfg, h, logs))
    ensures forall l :: l in BlockLogs(cfg, h, logs) ==> l.height == h && l.log in logs
  {
    if logs != [] {
      var front := logs[..|logs| - 1];
      BlockLogsOrdered(cfg, h, front);
      assert forall l :: l in BlockLogs(cfg, h, front) ==> l.log.index < logs[|logs| - 1].index;
    }
  }

  lemma {:induction false} OrderedConcat(a: seq<Located>, b: seq<Located>, h: nat)
    requires Ordered(a) && Ordered(b)
    requires (forall l :: l in a ==> l.height < h) && (forall l :: l in b ==> l.height == h)
    ensures Ordered(a + b)
  {
    forall i, j | 0 <= i < j < |a + b|
      ensures Earlier((a + b)[i], (a + b)[j])
    {
      if i < |a| <= j {
        assert a[i] in a && b[j - |a|] in b;
      }
    }
  }

  lemma {:induction false} LogsOrdered(cfg: Config, c: Chain, hi: nat)
    requires hi <= |c| && Numbered(c)
    ensures Ordered(Logs(cfg, c, 0, hi))
  {
    if hi > 0 {
      LogsOrdered(cfg, c, hi - 1);
      LogsInRange(cfg, c, 0, hi - 1);
      BlockLogsOrdered(cfg, hi - 1, c[hi - 1].logs);
      OrderedConcat(Logs(cfg, c, 0, hi - 1), BlockLogs(cfg, hi - 1, c[hi - 1].logs), hi - 1);
    }
  }

  // ---------------------------------------------------------------- agreement

  /** A policy row of the fold comes from the one log at its height and index. */
  lemma {:induction false} RowFromLog(cfg: Config, ls: seq<Located>, k: Key) returns (i: nat)
    requires First(cfg, ls, k).Some?
    ensures i < |ls| && EntryOf(cfg, ls[i]) == Some((k, First(cfg, ls, k).value))
  {
    var front := ls[..|ls| - 1];
    if First(cfg, front, k).Some? {
      i := RowFromLog(cfg, front, k);
    } else {
      i := |ls| - 1;
    }
  }

  lemma {:induction false} SameKeySameLog(cfg: Config, ls: seq<Located>, j: nat, i: nat)
    requires Ordered(ls) && j <= i < |ls| && EntryOf(cfg, ls[j]).Some?
    requires EntryOf(cfg, ls[j]).value.0 == PolicyKey(cfg.chainId, ls[i].height, ls[i].log.index)
    ensures j == i
  {
  }

  /** In ordered logs no two logs contend for a policy key. */
  lemma {:induction false} FirstIsOnly(cfg: Config, ls: seq<Located>, i: nat)
    requires Ordered(ls) && i < |ls| && (ls[i].log.event.AgentAuthorized? || ls[i].log.event.AgentRevoked?)
    ensures First(cfg, ls, PolicyKey(cfg.chainId, ls[i].height, ls[i].log.index)) == Some(EntryOf(cfg, ls[i]).value.1)
  {
    var k := PolicyKey(cfg.chainId, ls[i].height, ls[i].log.index);
    var front := ls[..|ls| - 1];
    if i < |ls| - 1 {
      FirstIsOnly(cfg, front, i);
    } else if First(cfg, front, k).Some? {
      var j := RowFromLog(cfg, front, k);
      SameKeySameLog(cfg, ls, j, i);
    }
  }

  /** The last log that sets the policy gives the replay's answer. */
  lemma {:induction false} LastSetting(ls: seq<Located>, agent: Address) returns (i: int)
    ensures Replay(ls, agent).None? <==> i == -1
    ensures -1 <= i < |ls| && forall j :: i < j < |ls| ==> !Sets(ls[j], agent)
    ensures i >= 0 ==> Sets(ls[i], agent) && Replay(ls[..i + 1], agent) == Replay(ls, agent)
  {
    if ls == [] {
      i := -1;
    } else if Sets(ls[|ls| - 1], agent) {
      i := |ls| - 1;
      assert ls[..i + 1] == ls;
    } else {
      i := LastSetting(ls[..|ls| - 1], agent);
      if i >= 0 {
        assert ls[..|ls| - 1][..i + 1] == ls[..i + 1];
      }
    }
  }

  /** The policy rows of the tables are exactly the policy logs of the view, when nothing lies above the cursor. */
  ghost predicate NoPolicyAbove(cfg: Config, db: Db, cur: int) {
    forall k :: k in db && k.PolicyKey? && k.cid == cfg.chainId ==> db[k].block <= cur
  }

  lemma {:induction false} PolicyRows(cfg: Config, db: Db, cur: int, v: Chain, k: Key)
    requires Synced(cfg, db, cur, v) && NoPolicyAbove(cfg, db, cur) && k.PolicyKey? && k.cid == cfg.chainId
    ensures k in db <==> First(cfg, Logs(cfg, v, 0, cur + 1), k).Some?
    ensures k in db ==> First(cfg, Logs(cfg, v, 0, cur + 1), k) == Some(Fixed(db[k]))
  {
    CanonicalLookup(cfg, v, cur, k);
    assert k in db <==> k in UpTo(Events(db, cfg.chainId), cur);
    assert k in db ==> UpTo(Events(db, cfg.chainId), cur)[k] == Fixed(db[k]);
  }

  lemma {:induction false} CandidateLog(cfg: Config, db: Db, cur: int, v: Chain, agent: Address, k: Key)
    returns (i: nat)
    requires Synced(cfg, db, cur, v) && NoPolicyAbove(cfg, db, cur) && Candidate(db, cfg.chainId, agent, k)
    ensures var ls := Logs(cfg, v, 0, cur + 1);
            i < |ls| && Sets(ls[i], agent) && EntryOf(cfg, ls[i]) == Some((k, db[k]))
  {
    PolicyRows(cfg, db, cur, v, k);
    i := RowFromLog(cfg, Logs(cfg, v, 0, cur + 1), k);
  }

  lemma {:induction false} LogCandidate(cfg: Config, db: Db, cur: int, v: Chain, agent: Address, i: nat)
    returns (k: Key)
    requires Synced(cfg, db, cur, v) && NoPolicyAbove(cfg, db, cur) && Ordered(Logs(cfg, v, 0, cur + 1))
    requires i < |Logs(cfg, v, 0, cur + 1)| && Sets(Logs(cfg, v, 0, cur + 1)[i], agent)
    ensures Candidate(db, cfg.chainId, agent, k) && EntryOf(cfg, Logs(cfg, v, 0, cur + 1)[i]) == Some((k, db[k]))
  {
    var ls := Logs(cfg, v, 0, cur + 1);
    k := PolicyKey(cfg.chainId, ls[i].height, ls[i].log.index);
    FirstIsOnly(cfg, ls, i);
    PolicyRows(cfg, db, cur, v, k);
  }

  /** The row of the last policy log is the newest row. */
  lemma {:induction false} LastIsNewest(cfg: Config, db: Db, cur: int, v: Chain, agent: Address, ls: seq<Located>,
                                        i: nat)
    returns (k: Key)
    requires Synced(cfg, db, cur, v) && NoPolicyAbove(cfg, db, cur) && ls == Logs(cfg, v, 0, cur + 1) && Ordered(ls)
    requires i < |ls| && Sets(ls[i], agent) && forall j :: i < j < |ls| ==> !Sets(ls[j], agent)
    ensures Newest(db, cfg.chainId, agent, k) && EntryOf(cfg, ls[i]) == Some((k, db[k]))
  {
    k := LogCandidate(cfg, db, cur, v, agent, i);
    forall a | Candidate(db, cfg.chainId, agent, a)
      ensures UpToRow(db, a, k)
    {
      var j := CandidateLog(cfg, db, cur, v, agent, a);
      if j != i {
        assert Earlier(ls[j], ls[i]);
      }
    }
  }

  lemma {:induction false} NewestUnique(cfg: Config, db: Db, cur: int, v: Chain, agent: Address, a: Key, b: Key)
    requires Synced(cfg, db, cur, v) && NoPolicyAbove(cfg, db, cur)
    requires Newest(db, cfg.chainId, agent, a) && Newest(db, cfg.chainId, agent, b)
    ensures a == b
  {
    var i := CandidateLog(cfg, db, cur, v, agent, a);
    var j := CandidateLog(cfg, db, cur, v, agent, b);
  }

  /** Policy read agrees with replay: with the index synced and no policy row above the cursor, `get_agent` has
      exactly one answer for every agent, the replay of its authorisations and revocations in chain order,
      whatever other agents and chains share the table. */
  lemma {:induction false} PolicyReadAgrees(cfg: Config, db: Db, cur: int, v: Chain, agent: Address,
                                            answer: Option<Policy>)
    requires Synced(cfg, db, cur, v) && NoPolicyAbove(cfg, db, cur) && Numbered(v)
    ensures IsAnswer(db, cfg.chainId, agent, answer) <==> answer == Replay(Logs(cfg, v, 0, cur + 1), agent)
  {
    var ls := Logs(cfg, v, 0, cur + 1);
    LogsOrdered(cfg, v, cur + 1);
    var i := LastSetting(ls, agent);
    if i == -1 {
      forall k
        ensures !Candidate(db, cfg.chainId, agent, k)
      {
        if Candidate(db, cfg.chainId, agent, k) {
          var j := CandidateLog(cfg, db, cur, v, agent, k);
        }
      }
    } else {
      var k := LastIsNewest(cfg, db, cur, v, agent, ls, i);
      assert Replay(ls, agent) == Some(PolicyOf(db[k]));
      if answer.Some? && IsAnswer(db, cfg.chainId, agent, answer) {
        var k' :| Newest(db, cfg.chainId, agent, k') && answer.value == PolicyOf(db[k']);
        NewestUnique(cfg, db, cur, v, agent, k, k');
      }
    }
  }

  // ---------------------------------------------------------------- from the ticks to the answer

  /** After a completed tick the event tables hold nothing above the cursor. */
  lemma {:induction false} IndexedPolicies(cfg: Config, s: Store, c: Chain)
    requires Indexed(cfg, s, c)
    ensures NoPolicyAbove(cfg, s.db, Cursor(s.runs, cfg.chainId))
  {
    var cur := Cursor(s.runs, cfg.chainId);
    forall k | k in s.db && k.PolicyKey? && k.cid == cfg.chainId
      ensures s.db[k].block <= cur
    {
      assert k in Events(s.db, cfg.chainId) && Events(s.db, cfg.chainId)[k].block == s.db[k].block;
      CanonicalLookup(cfg, c, cur, k);
    }
  }

  /** End to end: on a growing chain, whatever crashed before and whatever the order of its logs, after a completed
      tick the API answers for every agent with the replay of the chain's logs up to the cursor. */
  lemma {:induction false} AgentAfterTick(cfg: Config, stores: seq<Store>, chains: seq<Chain>, outcomes: seq<Outcome>,
                                          views: seq<Chain>, n: nat, agent: Address, answer: Option<Policy>)
    requires History(cfg, stores, chains, outcomes, views) && n < |chains| && Growing(chains)
    requires outcomes[n].Done? && Numbered(chains[n])
    ensures Cursor(stores[n + 1].runs, cfg.chainId) < |chains[n]|
    ensures IsAnswer(stores[n + 1].db, cfg.chainId, agent, answer) <==>
            answer == Replay(Logs(cfg, chains[n], 0, Cursor(stores[n + 1].runs, cfg.chainId) + 1), agent)
  {
    StableHistory(cfg, stores, chains, outcomes, views, n);
    StableAlways(cfg, stores, chains, outcomes, views, n + 1);
    assert LastChain(chains, n + 1) == chains[n];
    StableSynced(cfg, stores[n + 1], chains[n]);
    IndexedPolicies(cfg, stores[n + 1], chains[n]);
    PolicyReadAgrees(cfg, stores[n + 1].db, Cursor(stores[n + 1].runs, cfg.chainId), chains[n], agent, answer);
  }
}
