/** What one tick decides to do: reorg root, block range, and the ordered list of writes it then issues. */
module TickPlan {
  import opened Wrappers
  import opened Ledger
  import opened Tables
  import opened EventFold

  const CONFIRMATIONS: nat := 5
  const HEARTBEAT_BLOCKS: nat := 7200

  /** One atomic statement of the ingest phase.  `state` is what `eth_call` returned (`None`: it failed). */
  datatype Write =
    | Insert(key: Key, row: Row)
    | Handle(log: Located)
    | Snap(contract: Address, height: nat, state: Option<VaultState>)

  function SnapshotRow(height: nat, s: VaultState): Row {
    Row(height, SnapshotCols(s.totalAssets, s.totalSupply))
  }

  function ApplyWrite(cfg: Config, db: Db, w: Write): Result<Db> {
    match w
    case Insert(k, r) => Ok(Put(db, k, r))
    case Handle(l) => ApplyLog(cfg, db, l)
    case Snap(a, h, s) =>
      if s.None? then Err else Ok(Put(db, SnapshotKey(cfg.chainId, a, h), SnapshotRow(h, s.value)))
  }

  function Exec(cfg: Config, db: Db, ws: seq<Write>): Result<Db> {
    if ws == [] then
      Ok(db)
    else
      var before :- Exec(cfg, db, ws[..|ws| - 1]);
      ApplyWrite(cfg, before, ws[|ws| - 1])
  }

  lemma {:induction false} ExecConcat(cfg: Config, db: Db, a: seq<Write>, b: seq<Write>)
    ensures Exec(cfg, db, a + b) == (match Exec(cfg, db, a) case Ok(mid) => Exec(cfg, mid, b) case Err => Err)
    decreases |b|
  {
    if b == [] {
      assert a + b == a;
    } else {
      ExecConcat(cfg, db, a, b[..|b| - 1]);
      assert (a + b)[..|a + b| - 1] == a + b[..|b| - 1];
    }
  }

  function HeaderRow(c: Chain, h: nat): Row
    requires h < |c|
  {
    Row(h, BlockCols(BlockHash(c, h), HashOf(c[..h]), c[h].timestamp))
  }

  function Header(cfg: Config, c: Chain, h: nat): Write
    requires h < |c|
  {
    Insert(BlockKey(cfg.chainId, h), HeaderRow(c, h))
  }

  function TxWrite(cfg: Config, h: nat, t: Tx): Write {
    Insert(TxKey(cfg.chainId, t.hash), Row(h, TxCols(t.index, t.from, t.to, t.status)))
  }

  function TxWrites(cfg: Config, h: nat, txs: seq<Tx>): seq<Write> {
    if txs == [] then [] else TxWrites(cfg, h, txs[..|txs| - 1]) + [TxWrite(cfg, h, txs[|txs| - 1])]
  }

  lemma {:induction false} TxWritesEach(cfg: Config, h: nat, txs: seq<Tx>)
    ensures |TxWrites(cfg, h, txs)| == |txs|
    ensures forall i :: 0 <= i < |txs| ==> TxWrites(cfg, h, txs)[i] == TxWrite(cfg, h, txs[i])
  {
    if txs != [] {
      TxWritesEach(cfg, h, txs[..|txs| - 1]);
    }
  }

  /** The block at `h` carries at least one watched log. */
  predicate HasLogs(cfg: Config, c: Chain, h: nat)
    requires h < |c|
  {
    BlockLogs(cfg, h, c[h].logs) != []
  }

  /** The header and transactions of a block that carries watched logs. */
  function OneBlock(cfg: Config, c: Chain, h: nat): seq<Write>
    requires h < |c|
  {
    if HasLogs(cfg, c, h) then [Header(cfg, c, h)] + TxWrites(cfg, h, c[h].txs) else []
  }

  function BlockWrites(cfg: Config, c: Chain, lo: nat, hi: nat): seq<Write>
    requires lo <= hi <= |c|
    decreases hi
  {
    if lo == hi then [] else BlockWrites(cfg, c, lo, hi - 1) + OneBlock(cfg, c, hi - 1)
  }

  function CursorWrites(cfg: Config, c: Chain, target: nat): seq<Write>
    requires target < |c|
  {
    if HasLogs(cfg, c, target) then [] else [Header(cfg, c, target)]
  }

  function LogWrites(ls: seq<Located>): seq<Write> {
    if ls == [] then [] else LogWrites(ls[..|ls| - 1]) + [Handle(ls[|ls| - 1])]
  }

  predicate VaultTouched(cfg: Config, c: Chain, h: nat)
    requires h < |c|
  {
    exists l :: l in BlockLogs(cfg, h, c[h].logs) && l.log.address == cfg.vault
  }

  function StateAt(c: Chain, h: nat, a: Address): Option<VaultState>
    requires h < |c|
  {
    if a in c[h].vaults then Some(c[h].vaults[a]) else None
  }

  function SnapWrites(cfg: Config, c: Chain, lo: nat, hi: nat): seq<Write>
    requires lo <= hi <= |c|
    decreases hi
  {
    if lo == hi then
      []
    else
      SnapWrites(cfg, c, lo, hi - 1) +
      if VaultTouched(cfg, c, hi - 1) then [Snap(cfg.vault, hi - 1, StateAt(c, hi - 1, cfg.vault))] else []
  }

  /** Everything up to the heartbeat, in the order it is issued. */
  function Ingest(cfg: Config, c: Chain, from: nat, target: nat): seq<Write>
    requires from <= target < |c|
  {
    BlockWrites(cfg, c, from, target + 1) + CursorWrites(cfg, c, target) +
    LogWrites(Logs(cfg, c, from, target + 1)) + SnapWrites(cfg, c, from, target + 1)
  }

  predicate IsLeast(s: set<Address>, least: Address) {
    least in s && forall a :: a in s ==> least <= a
  }

  lemma {:induction false} LeastExists(s: set<Address>) returns (least: Address)
    requires s != {}
    ensures IsLeast(s, least)
  {
    var x :| x in s;
    if s == {x} {
      least := x;
    } else {
      var y := LeastExists(s - {x});
      least := if x <= y then x else y;
      forall a | a in s
        ensures least <= a
      {
        assert a == x || a in s - {x};
      }
    }
  }

  function Least(s: set<Address>): (least: Address)
    requires s != {}
    ensures IsLeast(s, least)
  {
    assert exists least :: IsLeast(s, least) by { var least := LeastExists(s); }
    var least :| IsLeast(s, least);
    least
  }

  /** Ascending enumeration of a finite set of addresses (`ORDER BY vault_address`). */
  function Ascending(s: set<Address>): seq<Address> {
    if s == {} then [] else var least := Least(s); [least] + Ascending(s - {least})
  }

  predicate Rising(r: seq<Address>) {
    forall i, j :: 0 <= i < j < |r| ==> r[i] < r[j]
  }

  lemma {:induction false} AscendingLists(s: set<Address>)
    ensures Rising(Ascending(s)) && forall a :: a in Ascending(s) <==> a in s
  {
    if s != {} {
      var least := Least(s);
      var rest := Ascending(s - {least});
      AscendingLists(s - {least});
      forall j | 0 <= j < |rest|
        ensures least < rest[j]
      {
        assert rest[j] in s - {least};
      }
    }
  }

  function ActiveVaults(db: Db, cid: nat): set<Address> {
    set k | k in db && k.VaultKey? && k.cid == cid && db[k].cols.VaultCols? && db[k].cols.vaultStatus == 0 :: k.vault
  }

  /** The configured vault first, then every other active registered vault. */
  function HeartbeatVaults(cfg: Config, db: Db): seq<Address> {
    [cfg.vault] + Ascending(ActiveVaults(db, cfg.chainId) - {cfg.vault})
  }

  predicate Distinct(r: seq<Address>) {
    forall i, j :: 0 <= i < j < |r| ==> r[i] != r[j]
  }

  /** Each heartbeat vault is listed once. */
  lemma {:induction false} HeartbeatVaultsListed(cfg: Config, db: Db)
    ensures Distinct(HeartbeatVaults(cfg, db))
    ensures forall a :: a in HeartbeatVaults(cfg, db) <==> a == cfg.vault || a in ActiveVaults(db, cfg.chainId)
  {
    var others := Ascending(ActiveVaults(db, cfg.chainId) - {cfg.vault});
    AscendingLists(ActiveVaults(db, cfg.chainId) - {cfg.vault});
    forall j | 0 <= j < |others|
      ensures others[j] != cfg.vault
    {
      assert others[j] in others;
    }
  }

  /** No snapshot of `a` lies within the heartbeat interval below `target` (or above it). */
  predicate NeedsBeat(db: Db, cid: nat, a: Address, target: nat) {
    forall k :: k in db && k.SnapshotKey? && k.cid == cid && k.contract == a ==>
      target - db[k].block >= HEARTBEAT_BLOCKS
  }

  function Beats(cfg: Config, db: Db, c: Chain, target: nat, vaults: seq<Address>): seq<Write>
    requires target < |c|
  {
    if vaults == [] then
      []
    else
      var a := vaults[|vaults| - 1];
      Beats(cfg, db, c, target, vaults[..|vaults| - 1]) +
      if NeedsBeat(db, cfg.chainId, a, target) then [Snap(a, target, StateAt(c, target, a))] else []
  }

  /** All writes of a tick over `from..target`, starting from tables `db`. */
  function TickWrites(cfg: Config, db: Db, c: Chain, from: nat, target: nat): seq<Write>
    requires from <= target < |c|
  {
    var ingest := Ingest(cfg, c, from, target);
    match Exec(cfg, db, ingest)
    case Err => ingest
    case Ok(mid) => ingest + Beats(cfg, mid, c, target, HeartbeatVaults(cfg, mid))
  }

  // ---------------------------------------------------------------- reorg check and range

  /** The stored hash at height `h` is the chain's. */
  predicate Matches(cfg: Config, db: Db, c: Chain, h: nat) {
    var k := BlockKey(cfg.chainId, h);
    k in db && db[k].cols.BlockCols? && h < |c| && db[k].cols.hash == BlockHash(c, h)
  }

  /** The cursor comparison sees a reorg: both hashes exist and differ. */
  predicate Mismatch(cfg: Config, db: Db, c: Chain, last: int) {
    last >= 0 &&
    var k := BlockKey(cfg.chainId, last);
    k in db && db[k].cols.BlockCols? && last < |c| && db[k].cols.hash != BlockHash(c, last)
  }

  /** The highest stored height at or below `start` whose hash is the chain's, or -1. */
  function Root(cfg: Config, db: Db, c: Chain, start: int): (r: int)
    requires -1 <= start
    ensures -1 <= r <= start
    ensures r >= 0 ==> Matches(cfg, db, c, r)
    decreases start
  {
    if start < 0 then -1 else if Matches(cfg, db, c, start) then start else Root(cfg, db, c, start - 1)
  }

  /** No stored height between the root and the start of the walk matches the chain. */
  lemma {:induction false} RootMaximal(cfg: Config, db: Db, c: Chain, start: int, h: nat)
    requires -1 <= start && Root(cfg, db, c, start) < h <= start
    ensures !Matches(cfg, db, c, h)
    decreases start
  {
    if h < start {
      RootMaximal(cfg, db, c, start - 1, h);
    }
  }

  /** The level the tick resumes from: the cursor, or the reorg root. */
  function Resume(cfg: Config, db: Db, c: Chain, last: int): (r: int)
    requires -1 <= last
    ensures -1 <= r <= last
  {
    if Mismatch(cfg, db, c, last) then Root(cfg, db, c, last) else last
  }

  /** The tables after the reorg check. */
  function Base(cfg: Config, db: Db, c: Chain, last: int): Db
    requires -1 <= last
  {
    if Mismatch(cfg, db, c, last) then DeleteAbove(db, cfg.chainId, Root(cfg, db, c, last)) else db
  }

  function SafeHead(tip: nat): nat {
    if tip >= CONFIRMATIONS then tip - CONFIRMATIONS else 0
  }

  function Min(a: nat, b: nat): nat {
    if a <= b then a else b
  }

  /** The last height of this tick, if the tick advances at all. */
  function Target(cfg: Config, from: nat, tip: nat): (r: Option<nat>)
    ensures r.Some? ==> from <= r.value <= SafeHead(tip) && r.value < from + cfg.maxBlocks
    ensures r.Some? && cfg.endBlock.Some? ==> r.value <= cfg.endBlock.value
    ensures r.None? <==> from > SafeHead(tip) || (cfg.endBlock.Some? && from > cfg.endBlock.value)
  {
    if from > SafeHead(tip) then
      None
    else
      var capped := if cfg.endBlock.Some? then Min(SafeHead(tip), cfg.endBlock.value) else SafeHead(tip);
      var target := Min(capped, from + (cfg.maxBlocks - 1));
      if from > target then None else Some(target)
  }

  predicate IsTickPlan(cfg: Config, db: Db, c: Chain, from: nat, target: nat, ws: seq<Write>)
    requires from <= target < |c|
  {
    ws == TickWrites(cfg, db, c, from, target)
  }

  /** `ws` are the writes planned for the range.  (The quantifier keeps the plan out of proofs that need only its
      name.) */
  ghost predicate Planned(cfg: Config, db: Db, c: Chain, from: nat, target: nat, ws: seq<Write>)
    requires from <= target < |c|
  {
    forall plan :: IsTickPlan(cfg, db, c, from, target, plan) ==> ws == plan
  }

  lemma {:induction false} PlannedIs(cfg: Config, db: Db, c: Chain, from: nat, target: nat, ws: seq<Write>)
    requires from <= target < |c|
    ensures Planned(cfg, db, c, from, target, ws) <==> ws == TickWrites(cfg, db, c, from, target)
  {
    assert IsTickPlan(cfg, db, c, from, target, TickWrites(cfg, db, c, from, target));
  }

  /** All planned writes succeed and lead to `db'`. */
  ghost predicate Runs(cfg: Config, db: Db, c: Chain, from: nat, target: nat, db': Db)
    requires from <= target < |c|
  {
    forall ws :: Planned(cfg, db, c, from, target, ws) ==> Exec(cfg, db, ws) == Ok(db')
  }

  /** Some first part of the planned writes led to `db'`. */
  ghost predicate CutShort(cfg: Config, db: Db, c: Chain, from: nat, target: nat, db': Db)
    requires from <= target < |c|
  {
    forall ws :: Planned(cfg, db, c, from, target, ws) ==> exists n: nat :: StopsAfter(cfg, db, ws, n, db')
  }

  /** Exactly the first `n` writes took effect. */
  predicate StopsAfter(cfg: Config, db: Db, ws: seq<Write>, n: nat, db': Db) {
    n <= |ws| && Exec(cfg, db, ws[..n]) == Ok(db')
  }

  /** The ingest phase of a successful tick resuming from tables `base` at level `resume`: the tables it leaves
      and the `last_indexed_block` it records. */
  ghost predicate Finishes(cfg: Config, c: Chain, base: Db, resume: int, db': Db, recorded: int)
    requires |c| > 0 && -1 <= resume
  {
    var target := Target(cfg, resume + 1, |c| - 1);
    if target.None? then
      db' == base && recorded == resume
    else
      recorded == target.value && Runs(cfg, base, c, resume + 1, target.value, db')
  }

  /** The ingest phase cut short after any number of writes. */
  ghost predicate Breaks(cfg: Config, c: Chain, base: Db, resume: int, db': Db)
    requires |c| > 0 && -1 <= resume
  {
    var target := Target(cfg, resume + 1, |c| - 1);
    if target.None? then db' == base else CutShort(cfg, base, c, resume + 1, target.value, db')
  }

  /** A successful tick. */
  ghost predicate Completes(cfg: Config, c: Chain, db: Db, last: int, db': Db, recorded: int)
    requires |c| > 0 && -1 <= last
  {
    Finishes(cfg, c, Base(cfg, db, c, last), Resume(cfg, db, c, last), db', recorded)
  }

  /** A tick cut short anywhere: nothing happened, or the reorg check and some first writes did. */
  ghost predicate Interrupted(cfg: Config, c: Chain, db: Db, last: int, db': Db)
    requires |c| > 0 && -1 <= last
  {
    db' == db || Breaks(cfg, c, Base(cfg, db, c, last), Resume(cfg, db, c, last), db')
  }
}
