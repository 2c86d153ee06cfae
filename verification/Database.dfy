/** The indexer's database handle: every statement it issues, over tables and run records updated in place.
    Any call may fail, before or after taking effect. */
module Database {
  import opened Wrappers
  import opened Ledger
  import opened Tables
  import opened TickPlan
  import opened Sync

  /** How one call ends: answered, refused without effect, or carried out with the answer lost. */
  datatype Reply = Served | Refused | Lost

  /** A statement with result `want` was issued on `before` and reported `ok`, leaving `after`.  If it failed
      although every call was `served`, the statement itself is an error. */
  ghost predicate Issued(before: Db, want: Result<Db>, ok: bool, served: bool, after: Db) {
    if ok then
      want == Ok(after)
    else
      (after == before || want == Ok(after)) && (served ==> want.Err?)
  }

  // ---------------------------------------------------------------- rollback, table by table

  /** The rows left after clearing the first `n` rollback tables. */
  function Cleared(db: Db, cid: nat, root: int, n: nat): Db
    requires n <= |ROLLBACK_TABLES|
  {
    map k | k in db && !(Orphaned(db, cid, root, k) && TableOf(k) in ROLLBACK_TABLES[..n]) :: db[k]
  }

  /** Some vote still refers to a proposal about to be deleted. */
  predicate Referenced(db: Db, cid: nat, root: int) {
    exists k | k in db && k.VoteKey? && k.cid == cid ::
      var parent := ProposalKey(cid, k.proposal);
      parent in db && db[parent].block > root
  }

  /** `DELETE FROM table WHERE chain_id = … AND block_number > root`, with the foreign key on proposals. */
  function DeleteFrom(db: Db, table: Table, cid: nat, root: int): Result<Db> {
    if table == GovernanceProposals && Referenced(db, cid, root) then
      Err
    else
      Ok(map k | k in db && !(Orphaned(db, cid, root, k) && TableOf(k) == table) :: db[k])
  }

  lemma {:induction false} ClearedNext(db: Db, cid: nat, root: int, n: nat)
    requires n < |ROLLBACK_TABLES|
    ensures var work := Cleared(db, cid, root, n);
            var next := DeleteFrom(work, ROLLBACK_TABLES[n], cid, root);
            next.Ok? ==> next.value == Cleared(db, cid, root, n + 1) &&
                         |work| - |next.value| == |work.Keys - next.value.Keys|
  {
    var tables := ROLLBACK_TABLES;
    assert tables[..n + 1] == tables[..n] + [tables[n]];
    var work := Cleared(db, cid, root, n);
    var next := DeleteFrom(work, tables[n], cid, root);
    if next.Ok? {
      SubmapSize(next.value, work);
    }
  }

  /** Clearing every rollback table is the rollback. */
  lemma {:induction false} ClearedAll(db: Db, cid: nat, root: int)
    ensures Cleared(db, cid, root, |ROLLBACK_TABLES|) == DeleteAbove(db, cid, root)
  {
    var tables := ROLLBACK_TABLES;
    assert tables[..|tables|] == tables;
    forall k: Key
      ensures TableOf(k) in tables <==> !k.VaultKey?
    {
      TableListed(k);
    }
  }

  lemma {:induction false} TableListed(k: Key)
    ensures TableOf(k) in ROLLBACK_TABLES <==> !k.VaultKey?
  {
    var tables := ROLLBACK_TABLES;
    assert tables[0] == WalletPositions && tables[1] == VaultSnapshots && tables[2] == AgentDeposits;
    assert tables[3] == AgentPolicies && tables[4] == GovernanceVotes && tables[5] == GovernanceProposals;
    assert tables[6] == RouterWeightSnapshots && tables[7] == RouterDepositLegs && tables[8] == Transactions;
    assert tables[9] == Blocks;
  }

  /** Because votes are cleared first, only a vote that stays can block the deletion of a proposal. */
  lemma {:induction false} VotesClearedFirst(db: Db, cid: nat, root: int)
    ensures Referenced(Cleared(db, cid, root, 5), cid, root) <==> Dangles(db, cid, root)
  {
    var tables := ROLLBACK_TABLES;
    var work := Cleared(db, cid, root, 5);
    assert tables[..5] == [WalletPositions, VaultSnapshots, AgentDeposits, AgentPolicies, GovernanceVotes];
    forall k: Key
      ensures k.VoteKey? && k.cid == cid ==> (k in work <==> k in db && db[k].block <= root)
      ensures k.ProposalKey? ==> (k in work <==> k in db) && (k in work ==> work[k] == db[k])
    {
      assert k.VoteKey? ==> TableOf(k) == tables[4];
      assert k.ProposalKey? ==> TableOf(k) == GovernanceProposals;
    }
    if Dangles(db, cid, root) {
      var k :| k in db && k.VoteKey? && k.cid == cid && db[k].block <= root &&
               ProposalKey(cid, k.proposal) in db && db[ProposalKey(cid, k.proposal)].block > root;
      assert k in work && ProposalKey(cid, k.proposal) in work;
    }
    if Referenced(work, cid, root) {
      var k :| k in work && k.VoteKey? && k.cid == cid &&
               ProposalKey(cid, k.proposal) in work && work[ProposalKey(cid, k.proposal)].block > root;
      assert k in db && db[k].block <= root && ProposalKey(cid, k.proposal) in db;
    }
  }

  /** Of all the statements only the one on proposals can be refused. */
  lemma {:induction false} OnlyProposalsRefuse(db: Db, i: nat, cid: nat, root: int)
    requires i < |ROLLBACK_TABLES|
    ensures DeleteFrom(db, ROLLBACK_TABLES[i], cid, root).Err? ==> i == 5 && Referenced(db, cid, root)
  {
    var tables := ROLLBACK_TABLES;
    assert tables[0] == WalletPositions && tables[1] == VaultSnapshots && tables[2] == AgentDeposits;
    assert tables[3] == AgentPolicies && tables[4] == GovernanceVotes && tables[6] == RouterWeightSnapshots;
    assert tables[7] == RouterDepositLegs && tables[8] == Transactions && tables[9] == Blocks;
  }

  lemma {:induction false} SubmapSize(small: Db, large: Db)
    requires small.Keys <= large.Keys
    ensures |large| - |small| == |large.Keys - small.Keys|
  {
    assert large.Keys == small.Keys + (large.Keys - small.Keys);
  }

  // ---------------------------------------------------------------- the handle

  class Connection {
    var rows: Db
    var runs: seq<Run>
    const replies: nat -> Reply
    var calls: nat

    constructor (replies: nat -> Reply)
      ensures rows == map[] && runs == []
    {
      rows, runs, calls := map[], [], 0;
      this.replies := replies;
    }

    /** Every call from number `lo` to `hi` (exclusive) was answered. */
    ghost predicate Served(lo: nat, hi: nat) {
      forall n: nat :: lo <= n < hi ==> replies(n).Served?
    }

    /** The fate of the next call. */
    method Next() returns (r: Reply)
      modifies this`calls
      ensures calls == old(calls) + 1 && r == replies(old(calls))
    {
      r := replies(calls);
      calls := calls + 1;
    }

    /** Every `INSERT … ON CONFLICT DO NOTHING`; the result is the number of rows affected. */
    method Insert(k: Key, r: Row) returns (res: Result<nat>)
      modifies this`rows, this`calls
      ensures calls >= old(calls)
      ensures Issued(old(rows), Ok(Put(old(rows), k, r)), res.Ok?, Served(old(calls), calls), rows)
      ensures res.Ok? ==> res.value == if k in old(rows) then 0 else 1
    {
      var reply := Next();
      assert reply == replies(old(calls));
      if reply == Reply.Refused {
        return Err;
      }
      var affected := 0;
      if k !in rows {
        rows := rows[k := r];
        affected := 1;
      }
      return if reply == Reply.Served then Ok(affected) else Err;
    }

    /** `get_block_hash`. */
    method GetBlockHash(cid: nat, height: nat) returns (res: Result<Option<Digest>>)
      modifies this`calls
      ensures calls >= old(calls) && (Served(old(calls), calls) ==> res.Ok?)
      ensures res.Ok? && res.value.Some? ==>
                BlockKey(cid, height) in rows && rows[BlockKey(cid, height)].cols.BlockCols? &&
                rows[BlockKey(cid, height)].cols.hash == res.value.value
      ensures res.Ok? && res.value.None? ==>
                !(BlockKey(cid, height) in rows && rows[BlockKey(cid, height)].cols.BlockCols?)
    {
      var reply := Next();
      if reply != Reply.Served {
        return Err;
      }
      var k := BlockKey(cid, height);
      return Ok(if k in rows && rows[k].cols.BlockCols? then Some(rows[k].cols.hash) else None);
    }

    /** `delete_above_block`: one transaction over the ten tables; the result is the number of rows deleted.  It
        fails exactly when a call fails or a kept vote needs a deleted proposal. */
    method DeleteAboveBlock(cid: nat, root: int) returns (res: Result<nat>)
      modifies this`rows, this`calls
      ensures calls >= old(calls)
      ensures Issued(old(rows), RollBack(old(rows), cid, root), res.Ok?, Served(old(calls), calls), rows)
      ensures res.Ok? ==> res.value == |old(rows)| - |rows|
    {
      var work: Db, total: nat, i: nat := rows, 0, 0;
      assert work == Cleared(rows, cid, root, 0);
      while i < |ROLLBACK_TABLES|
        invariant i <= |ROLLBACK_TABLES| && rows == old(rows) && calls >= old(calls)
        invariant work == Cleared(rows, cid, root, i)
        invariant total == |rows| - |work|
        invariant i > 5 ==> !Dangles(rows, cid, root)
      {
        ghost var call := calls;
        var reply := Next();
        ClearedNext(rows, cid, root, i);
        if i == 5 {
          VotesClearedFirst(rows, cid, root);
        }
        var next := DeleteFrom(work, ROLLBACK_TABLES[i], cid, root);
        if reply != Reply.Served || next.Err? {
          OnlyProposalsRefuse(work, i, cid, root);
          assert !replies(call).Served? || Dangles(rows, cid, root);
          return Err;
        }
        total := total + |work.Keys - next.value.Keys|;
        work := next.value;
        i := i + 1;
      }
      ClearedAll(rows, cid, root);
      ghost var call := calls;
      var reply := Next();
      assert reply == replies(call);
      if reply == Reply.Refused {
        return Err;
      }
      rows := work;
      return if reply == Reply.Served then Ok(total) else Err;
    }

    /** `insert_vote`: the vote and the counter move in one transaction. */
    method InsertVote(cid: nat, proposal: nat, voter: Address, r: Row, support: bool) returns (res: Result<nat>)
      modifies this`rows, this`calls
      ensures calls >= old(calls)
      ensures Issued(old(rows), Tables.InsertVote(old(rows), cid, proposal, voter, r, support), res.Ok?,
                     Served(old(calls), calls), rows)
      ensures res.Ok? ==> res.value == if VoteKey(cid, proposal, voter) in old(rows) then 0 else 1
    {
      var vote, parent := VoteKey(cid, proposal, voter), ProposalKey(cid, proposal);
      var work, affected := rows, 0;
      var reply := Next();
      assert reply == replies(old(calls));
      if reply != Reply.Served {
        return Err;
      }
      if vote !in work {
        if parent !in work {
          return Err;
        }
        work := work[vote := r];
        affected := 1;
      }
      ghost var call := calls;
      if affected == 1 {
        reply := Next();
        assert reply == replies(call);
        if reply != Reply.Served {
          return Err;
        }
        if work[parent].cols.ProposalCols? {
          var c := work[parent].cols;
          var bumped := if support then c.(votesFor := c.votesFor + 1) else c.(votesAgainst := c.votesAgainst + 1);
          work := work[parent := work[parent].(cols := bumped)];
        }
      }
      call := calls;
      reply := Next();
      assert reply == replies(call);
      if reply == Reply.Refused {
        return Err;
      }
      rows := work;
      return if reply == Reply.Served then Ok(affected) else Err;
    }

    /** `execute_proposal`: one row is affected exactly if the proposal exists and is not executed yet. */
    method ExecuteProposal(cid: nat, proposal: nat, height: nat) returns (res: Result<nat>)
      modifies this`rows, this`calls
      ensures calls >= old(calls)
      ensures Issued(old(rows), Ok(Execute(old(rows), cid, proposal, height)), res.Ok?, Served(old(calls), calls), rows)
      ensures res.Ok? ==> res.value == if rows == old(rows) then 0 else 1
    {
      var reply := Next();
      assert reply == replies(old(calls));
      if reply == Reply.Refused {
        return Err;
      }
      var k, affected := ProposalKey(cid, proposal), 0;
      if k in rows && rows[k].cols.ProposalCols? && rows[k].cols.status < 2 {
        rows := rows[k := rows[k].(cols := rows[k].cols.(status := 2, executedBlock := Some(height)))];
        assert rows[k] != old(rows)[k];
        affected := 1;
      }
      return if reply == Reply.Served then Ok(affected) else Err;
    }

    /** `update_vault_status`: one row is affected exactly if the vault is registered. */
    method UpdateVaultStatus(cid: nat, vault: Address, status: nat, changedAt: nat) returns (res: Result<nat>)
      modifies this`rows, this`calls
      ensures calls >= old(calls)
      ensures Issued(old(rows), Ok(SetVaultStatus(old(rows), cid, vault, status, changedAt)), res.Ok?,
                     Served(old(calls), calls), rows)
      ensures res.Ok? ==> var k := VaultKey(cid, vault);
                          res.value == if k in old(rows) && old(rows)[k].cols.VaultCols? then 1 else 0
    {
      var reply := Next();
      assert reply == replies(old(calls));
      if reply == Reply.Refused {
        return Err;
      }
      var k, affected := VaultKey(cid, vault), 0;
      if k in rows && rows[k].cols.VaultCols? {
        var cols := rows[k].cols.(vaultStatus := status, statusChangedAt := Some(changedAt));
        rows := rows[k := rows[k].(cols := cols)];
        affected := 1;
      }
      return if reply == Reply.Served then Ok(affected) else Err;
    }

    /** The active registered vaults, `ORDER BY vault_address`. */
    method RegisteredVaults(cid: nat) returns (res: Result<seq<Address>>)
      modifies this`calls
      ensures calls >= old(calls) && (Served(old(calls), calls) ==> res.Ok?)
      ensures res.Ok? ==> res.value == Ascending(ActiveVaults(rows, cid))
    {
      var reply := Next();
      return if reply == Reply.Served then Ok(Ascending(ActiveVaults(rows, cid))) else Err;
    }

    /** `SELECT MAX(block_number) FROM vault_snapshots`. */
    method LastSnapshot(cid: nat, contract: Address) returns (res: Result<Option<nat>>)
      modifies this`calls
      ensures calls >= old(calls) && (Served(old(calls), calls) ==> res.Ok?)
      ensures res.Ok? && res.value.None? ==>
                forall k :: k in rows && k.SnapshotKey? ==> !(k.cid == cid && k.contract == contract)
      ensures res.Ok? && res.value.Some? ==>
                && (exists k :: k in rows && k.SnapshotKey? && k.cid == cid && k.contract == contract &&
                                rows[k].block == res.value.value)
                && (forall k :: k in rows && k.SnapshotKey? && k.cid == cid && k.contract == contract ==>
                      rows[k].block <= res.value.value)
    {
      var reply := Next();
      if reply != Reply.Served {
        return Err;
      }
      var last, todo := None, rows.Keys;
      while todo != {}
        invariant todo <= rows.Keys
        invariant last.None? ==> forall k :: k in rows && k !in todo && k.SnapshotKey? ==>
                                   !(k.cid == cid && k.contract == contract)
        invariant last.Some? ==>
                    && (exists k :: k in rows && k.SnapshotKey? && k.cid == cid && k.contract == contract &&
                                    rows[k].block == last.value)
                    && (forall k :: (k in rows && k !in todo && k.SnapshotKey? && k.cid == cid && k.contract == contract)
                          ==> rows[k].block <= last.value)
        decreases |todo|
      {
        var k :| k in todo;
        if k.SnapshotKey? && k.cid == cid && k.contract == contract && (last.None? || last.value < rows[k].block) {
          last := Some(rows[k].block);
        }
        todo := todo - {k};
      }
      return Ok(last);
    }

    // -------------------------------------------------------------- run records

    method StartRun(cid: nat, from: nat) returns (res: Result<nat>)
      modifies this`runs, this`calls
      ensures calls >= old(calls) && (Served(old(calls), calls) ==> res.Ok?)
      ensures res.Ok? ==> res.value == |old(runs)| && runs == old(runs) + [Run(cid, from, None, false)]
      ensures res.Err? ==> runs == old(runs) || runs == old(runs) + [Run(cid, from, None, false)]
    {
      var reply := Next();
      if reply == Reply.Refused {
        return Err;
      }
      runs := runs + [Run(cid, from, None, false)];
      return if reply == Reply.Served then Ok(|runs| - 1) else Err;
    }

    method FinishRun(id: nat, last: Option<nat>, failed: bool) returns (res: Result<()>)
      requires id < |runs|
      modifies this`runs, this`calls
      ensures calls >= old(calls) && (Served(old(calls), calls) ==> res.Ok?)
      ensures res.Ok? ==> runs == old(runs)[id := old(runs)[id].(last := last, failed := failed)]
      ensures res.Err? ==> runs == old(runs) || runs == old(runs)[id := old(runs)[id].(last := last, failed := failed)]
    {
      var reply := Next();
      if reply == Reply.Refused {
        return Err;
      }
      runs := runs[id := runs[id].(last := last, failed := failed)];
      return if reply == Reply.Served then Ok(()) else Err;
    }

    /** `last_indexed_block`: the highest level any error-free run of this chain recorded. */
    method LastIndexedBlock(cid: nat) returns (res: Result<int>)
      modifies this`calls
      ensures calls >= old(calls) && (Served(old(calls), calls) ==> res.Ok?)
      ensures res.Ok? ==> res.value == Cursor(runs, cid)
    {
      var reply := Next();
      if reply != Reply.Served {
        return Err;
      }
      var last: int, i: nat := -1, 0;
      while i < |runs|
        invariant i <= |runs| && last == Cursor(runs[..i], cid)
      {
        assert runs[..i + 1][..i] == runs[..i];
        if runs[i].cid == cid && !runs[i].failed && runs[i].last.Some? && runs[i].last.value > last {
          last := runs[i].last.value;
        }
        i := i + 1;
      }
      assert runs[..|runs|] == runs;
      return Ok(last);
    }
  }
}
