/** The indexer's relational tables and the effect of each statement the indexer issues on them. */
module Tables {
  import opened Wrappers
  import opened Ledger

  /** Primary keys.  Each constructor names a table; every key starts with the chain id. */
  datatype Key =
    | BlockKey(cid: nat, height: nat)
    | TxKey(cid: nat, hash: Word)
    | DepositKey(cid: nat, height: nat, index: nat)
    | PolicyKey(cid: nat, height: nat, index: nat)
    | LegKey(cid: nat, height: nat, index: nat)
    | WeightKey(cid: nat, router: Address, height: nat, index: nat)
    | VoteKey(cid: nat, proposal: nat, voter: Address)
    | ProposalKey(cid: nat, proposal: nat)
    | SnapshotKey(cid: nat, contract: Address, height: nat)
    | PositionKey(cid: nat, contract: Address, owner: Address, height: nat)
    | VaultKey(cid: nat, vault: Address)

  /** The columns besides the primary key and `block_number` (`indexed_at` is left out). */
  datatype Columns =
    | BlockCols(hash: Digest, parent: Digest, timestamp: nat)
    | TxCols(txIndex: nat, from: Address, to: Option<Address>, txStatus: nat)
    | DepositCols(txHash: Word, paymentId: Word, orderId: Word, agent: Address, receiver: Address, amount: Word,
                  shares: Word, windowId: int, depositVault: Option<Address>)
    | PolicyCols(txHash: Word, agent: Address, revoked: bool, validUntil: Option<int>, maxPerPayment: Option<Word>,
                 maxPerWindow: Option<Word>, policyReceiver: Option<Address>)
    | LegCols(txHash: Word, paymentId: Word, depositor: Address, legVault: Address, amount: Word, shares: Word,
              weightBps: Word)
    | WeightCols(txHash: Word, vaults: seq<Address>, bps: seq<nat>)
    | VoteCols(logIndex: nat, txHash: Word, support: bool, weight: Word)
    | ProposalCols(logIndex: nat, txHash: Word, proposer: Address, createdAt: nat, deadline: int, status: nat,
                   executedBlock: Option<nat>, votesFor: nat, votesAgainst: nat)
    | SnapshotCols(totalAssets: Word, totalSupply: Word)
    | PositionCols(positionShares: Word)
    | VaultCols(name: string, registeredTx: Word, vaultStatus: nat, statusChangedAt: Option<nat>)

  /** `block` is the `block_number` column (`registered_block` in `vaults`). */
  datatype Row = Row(block: nat, cols: Columns)

  type Db = map<Key, Row>

  const I64_MAX: nat := 0x7FFF_FFFF_FFFF_FFFF
  const U256_MAX: nat :=
    0xFFFF_FFFF_FFFF_FFFF_FFFF_FFFF_FFFF_FFFF_FFFF_FFFF_FFFF_FFFF_FFFF_FFFF_FFFF_FFFF

  /** `try_into().unwrap_or(i64::MAX)`. */
  function ClampI64(w: Word): nat {
    if w <= I64_MAX then w else I64_MAX
  }

  /** `u64 as i64`: wraps above the signed range. */
  function WrapI64(w: nat): int {
    if w <= I64_MAX then w else w - 0x1_0000_0000_0000_0000
  }

  function SaturatingAdd(a: Word, b: Word): Word {
    if a + b <= U256_MAX then a + b else U256_MAX
  }

  function SaturatingSum(ws: seq<Word>): Word {
    if ws == [] then 0 else SaturatingAdd(SaturatingSum(ws[..|ws| - 1]), ws[|ws| - 1])
  }

  function Sum(ws: seq<Word>): Word {
    if ws == [] then 0 else Sum(ws[..|ws| - 1]) + ws[|ws| - 1]
  }

  /** Saturating at every step is saturating once, at the end. */
  lemma {:induction false} SaturatesOnce(ws: seq<Word>)
    ensures SaturatingSum(ws) == if Sum(ws) <= U256_MAX then Sum(ws) else U256_MAX
  {
    if ws != [] {
      SaturatesOnce(ws[..|ws| - 1]);
    }
  }

  lemma {:induction false} SumAdds(a: seq<Word>, b: seq<Word>)
    ensures Sum([]) == 0 && (forall w :: Sum([w]) == w) && Sum(a + b) == Sum(a) + Sum(b)
    decreases |b|
  {
    assert forall w: Word :: [w][..0] == [] && [w][0] == w;
    if b == [] {
      assert a + b == a;
    } else {
      SumAdds(a, b[..|b| - 1]);
      assert (a + b)[..|a + b| - 1] == a + b[..|b| - 1];
    }
  }

  /** `INSERT … ON CONFLICT DO NOTHING`. */
  function Put(db: Db, k: Key, r: Row): Db {
    if k in db then db else db[k := r]
  }

  /** The tables whose rows are written once per log and never updated by a later log, except for the
      running columns of a proposal. */
  predicate IsEventKey(k: Key) {
    k.DepositKey? || k.PolicyKey? || k.LegKey? || k.WeightKey? || k.VoteKey? || k.ProposalKey?
  }

  /** The row a log contributes to an event table, if any. */
  function EntryOf(cfg: Config, l: Located): (e: Option<(Key, Row)>)
    ensures e.Some? ==> IsEventKey(e.value.0) && e.value.0.cid == cfg.chainId && e.value.1.block == l.height
  {
    var id, h, log := cfg.chainId, l.height, l.log;
    match log.event
    case AgentDeposit(pid, oid, agent, receiver, amount, shares, window) =>
      Some((DepositKey(id, h, log.index),
            Row(h, DepositCols(log.txHash, pid, oid, agent, receiver, amount, shares, WrapI64(window),
                               Some(cfg.vault)))))
    case AgentDepositRouted(pid, oid, agent, receiver, amount, legs, window) =>
      Some((DepositKey(id, h, log.index),
            Row(h, DepositCols(log.txHash, pid, oid, agent, receiver, amount, SaturatingSum(legs), WrapI64(window),
                               None))))
    case AgentAuthorized(agent, until, perPayment, perWindow, receiver) =>
      Some((PolicyKey(id, h, log.index),
            Row(h, PolicyCols(log.txHash, agent, false, Some(WrapI64(until)), Some(perPayment), Some(perWindow),
                              Some(receiver)))))
    case AgentRevoked(agent) =>
      Some((PolicyKey(id, h, log.index), Row(h, PolicyCols(log.txHash, agent, true, None, None, None, None))))
    case RouterDeposit(depositor, vault, amount, shares, weight) =>
      Some((LegKey(id, h, log.index),
            Row(h, LegCols(log.txHash, log.txHash, depositor, vault, amount, shares, weight))))
    case ProposalCreated(pid, proposer, deadline) =>
      Some((ProposalKey(id, ClampI64(pid)),
            Row(h, ProposalCols(log.index, log.txHash, proposer, h, WrapI64(deadline), 0, None, 0, 0))))
    case VoteCast(pid, voter, power) =>
      Some((VoteKey(id, ClampI64(pid), voter), Row(h, VoteCols(log.index, log.txHash, true, power))))
    case WeightsApplied(_, vaults, bps) =>
      Some((WeightKey(id, log.address, h, log.index),
            Row(h, WeightCols(log.txHash, vaults, seq(|bps|, i requires 0 <= i < |bps| => ClampI64(bps[i]))))))
    case _ => None
  }

  /** `UPDATE governance_proposals SET votes_for = votes_for + 1` (or `votes_against`). */
  function Tally(db: Db, k: Key, support: bool): Db {
    if k in db && db[k].cols.ProposalCols? then
      var c := db[k].cols;
      db[k := db[k].(cols := if support then c.(votesFor := c.votesFor + 1)
                             else c.(votesAgainst := c.votesAgainst + 1))]
    else
      db
  }

  /** `insert_vote`: one transaction that inserts the vote and, only when the row is new, bumps the tally.
      The foreign key of `governance_votes` makes a new vote for an unknown proposal an error. */
  function InsertVote(db: Db, cid: nat, proposal: nat, voter: Address, r: Row, support: bool): Result<Db> {
    var vote, parent := VoteKey(cid, proposal, voter), ProposalKey(cid, proposal);
    if vote in db then
      Ok(db)
    else if parent !in db then
      Err
    else
      Ok(Tally(db[vote := r], parent, support))
  }

  /** `execute_proposal`: a no-op for an unknown or already executed proposal. */
  function Execute(db: Db, cid: nat, proposal: nat, height: nat): Db {
    var k := ProposalKey(cid, proposal);
    if k in db && db[k].cols.ProposalCols? && db[k].cols.status < 2 then
      db[k := db[k].(cols := db[k].cols.(status := 2, executedBlock := Some(height)))]
    else
      db
  }

  /** `update_vault_status`: a no-op for an unknown vault. */
  function SetVaultStatus(db: Db, cid: nat, vault: Address, status: nat, changedAt: nat): Db {
    var k := VaultKey(cid, vault);
    if k in db && db[k].cols.VaultCols? then
      db[k := db[k].(cols := db[k].cols.(vaultStatus := status, statusChangedAt := Some(changedAt)))]
    else
      db
  }

  /** The effect of `handle_log`. */
  function ApplyLog(cfg: Config, db: Db, l: Located): Result<Db> {
    var id, h, log := cfg.chainId, l.height, l.log;
    match log.event
    case Undecodable => Err
    case Unwatched => Ok(db)
    case VaultActivity => Ok(db)
    case VaultRegistered(vault, name) =>
      Ok(Put(db, VaultKey(id, vault), Row(h, VaultCols(name, log.txHash, 0, None))))
    case VaultStatusChanged(vault, status, timestamp) =>
      Ok(SetVaultStatus(db, id, vault, status, ClampI64(timestamp)))
    case ProposalExecuted(pid) => Ok(Execute(db, id, ClampI64(pid), h))
    case VoteCast(pid, voter, _) => InsertVote(db, id, ClampI64(pid), voter, EntryOf(cfg, l).value.1, true)
    case _ => var e := EntryOf(cfg, l).value; Ok(Put(db, e.0, e.1))
  }

  /** Handling a sequence of logs, stopping at the first error. */
  function ApplyLogs(cfg: Config, db: Db, ls: seq<Located>): Result<Db> {
    if ls == [] then
      Ok(db)
    else
      var before :- ApplyLogs(cfg, db, ls[..|ls| - 1]);
      ApplyLog(cfg, before, ls[|ls| - 1])
  }

  lemma {:induction false} ApplyLogsConcat(cfg: Config, db: Db, a: seq<Located>, b: seq<Located>)
    ensures ApplyLogs(cfg, db, a + b) ==
            (match ApplyLogs(cfg, db, a) case Ok(mid) => ApplyLogs(cfg, mid, b) case Err => Err)
    decreases |b|
  {
    if b == [] {
      assert a + b == a;
    } else {
      ApplyLogsConcat(cfg, db, a, b[..|b| - 1]);
      assert (a + b)[..|a + b| - 1] == a + b[..|b| - 1];
    }
  }

  /** The tables `delete_above_block` clears, in its order. */
  datatype Table =
    | WalletPositions | VaultSnapshots | AgentDeposits | AgentPolicies | GovernanceVotes | GovernanceProposals
    | RouterWeightSnapshots | RouterDepositLegs | Transactions | Blocks | Vaults

  function TableOf(k: Key): Table {
    match k
    case BlockKey(_, _) => Blocks
    case TxKey(_, _) => Transactions
    case DepositKey(_, _, _) => AgentDeposits
    case PolicyKey(_, _, _) => AgentPolicies
    case LegKey(_, _, _) => RouterDepositLegs
    case WeightKey(_, _, _, _) => RouterWeightSnapshots
    case VoteKey(_, _, _) => GovernanceVotes
    case ProposalKey(_, _) => GovernanceProposals
    case SnapshotKey(_, _, _) => VaultSnapshots
    case PositionKey(_, _, _, _) => WalletPositions
    case VaultKey(_, _) => Vaults
  }

  const ROLLBACK_TABLES: seq<Table> :=
    [WalletPositions, VaultSnapshots, AgentDeposits, AgentPolicies, GovernanceVotes, GovernanceProposals,
     RouterWeightSnapshots, RouterDepositLegs, Transactions, Blocks]

  /** The rows a rollback to `root` removes: everything of this chain above `root` outside `vaults`. */
  predicate Orphaned(db: Db, cid: nat, root: int, k: Key)
    requires k in db
  {
    k.cid == cid && !k.VaultKey? && db[k].block > root
  }

  function DeleteAbove(db: Db, cid: nat, root: int): Db {
    map k | k in db && !Orphaned(db, cid, root, k) :: db[k]
  }

  /** Deleting a proposal while one of its votes stays violates the foreign key of `governance_votes`. */
  predicate Dangles(db: Db, cid: nat, root: int) {
    exists k | k in db && k.VoteKey? && k.cid == cid && db[k].block <= root ::
      var parent := ProposalKey(cid, k.proposal);
      parent in db && db[parent].block > root
  }

  /** `delete_above_block`: the rollback, unless the foreign key refuses it. */
  function RollBack(db: Db, cid: nat, root: int): Result<Db> {
    if Dangles(db, cid, root) then Err else Ok(DeleteAbove(db, cid, root))
  }
}
