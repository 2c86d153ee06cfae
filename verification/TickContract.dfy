/** What every tick guarantees about its writes, however early it stops: the contract the history theorems
    rest on, proved of the write plan. */
module TickContract {
  import opened Wrappers
  import opened Ledger
  import opened Tables
  import opened EventFold
  import opened TickPlan
  import opened PlanFacts
  import opened TickCopies

  predicate IsHeader(w: Write) {
    w.Insert? && w.key.BlockKey?
  }

  function HeightOf(w: Write): nat {
    match w
    case Insert(_, r) => r.block
    case Handle(l) => l.height
    case Snap(_, h, _) => h
  }

  /** The heights whose header is among the writes. */
  function Headers(ws: seq<Write>): set<nat> {
    if ws == [] then
      {}
    else
      Headers(ws[..|ws| - 1]) + if IsHeader(ws[|ws| - 1]) then {HeightOf(ws[|ws| - 1])} else {}
  }

  /** Every other write comes after the header of its block. */
  predicate HeadersFirst(ws: seq<Write>) {
    ws == [] ||
    (HeadersFirst(ws[..|ws| - 1]) &&
     (IsHeader(ws[|ws| - 1]) || HeightOf(ws[|ws| - 1]) in Headers(ws[..|ws| - 1])))
  }

  lemma {:induction false} HeadersConcat(a: seq<Write>, b: seq<Write>)
    ensures Headers(a + b) == Headers(a) + Headers(b)
    decreases |b|
  {
    if b == [] {
      assert a + b == a;
    } else {
      HeadersConcat(a, b[..|b| - 1]);
      assert (a + b)[..|a + b| - 1] == a + b[..|b| - 1];
    }
  }

  lemma {:induction false} HeadersFirstAppend(a: seq<Write>, b: seq<Write>)
    requires HeadersFirst(a) && forall w :: w in b ==> IsHeader(w) || HeightOf(w) in Headers(a)
    ensures HeadersFirst(a + b)
    decreases |b|
  {
    if b == [] {
      assert a + b == a;
    } else {
      var front := b[..|b| - 1];
      HeadersFirstAppend(a, front);
      HeadersConcat(a, front);
      assert (a + b)[..|a + b| - 1] == a + front;
      assert b[|b| - 1] in b;
    }
  }

  lemma {:induction false} HeadersFirstPrefix(ws: seq<Write>, n: nat)
    requires HeadersFirst(ws) && n <= |ws|
    ensures HeadersFirst(ws[..n])
    decreases |ws|
  {
    if n == |ws| {
      assert ws[..n] == ws;
    } else {
      HeadersFirstPrefix(ws[..|ws| - 1], n);
      assert ws[..|ws| - 1][..n] == ws[..n];
    }
  }

  lemma {:induction false} HeaderThenRest(before: seq<Write>, header: Write, rest: seq<Write>)
    requires HeadersFirst(before) && IsHeader(header)
    requires forall w :: w in rest ==> HeightOf(w) == HeightOf(header)
    ensures HeadersFirst(before + ([header] + rest))
  {
    assert [header][..0] == [];
    HeadersFirstAppend(before, [header]);
    HeadersConcat(before, [header]);
    HeadersConcat([header], rest);
    HeadersFirstAppend(before + [header], rest);
    assert (before + [header]) + rest == before + ([header] + rest);
  }

  lemma {:induction false} OneBlockOrder(cfg: Config, c: Chain, h: nat, before: seq<Write>)
    requires h < |c| && HeadersFirst(before)
    ensures HeadersFirst(before + OneBlock(cfg, c, h))
  {
    if HasLogs(cfg, c, h) {
      TxWritesEach(cfg, h, c[h].txs);
      HeaderThenRest(before, Header(cfg, c, h), TxWrites(cfg, h, c[h].txs));
    } else {
      assert before + [] == before;
    }
  }

  lemma {:induction false} SingleHeader(header: Write)
    requires IsHeader(header)
    ensures Headers([header]) == {HeightOf(header)}
  {
    assert [header][..0] == [];
  }

  lemma {:induction false} OneBlockHeader(cfg: Config, c: Chain, h: nat)
    requires h < |c| && HasLogs(cfg, c, h)
    ensures h in Headers(OneBlock(cfg, c, h))
  {
    SingleHeader(Header(cfg, c, h));
    HeadersConcat([Header(cfg, c, h)], TxWrites(cfg, h, c[h].txs));
  }

  lemma {:induction false} BlockWritesOrder(cfg: Config, c: Chain, lo: nat, hi: nat)
    requires lo <= hi <= |c|
    ensures HeadersFirst(BlockWrites(cfg, c, lo, hi))
    decreases hi
  {
    if lo < hi {
      BlockWritesOrder(cfg, c, lo, hi - 1);
      var before := BlockWrites(cfg, c, lo, hi - 1);
      OneBlockOrder(cfg, c, hi - 1, before);
      assert BlockWrites(cfg, c, lo, hi) == before + OneBlock(cfg, c, hi - 1);
    }
  }

  lemma {:induction false} BlockWritesHeaders(cfg: Config, c: Chain, lo: nat, hi: nat, h: nat)
    requires lo <= h < hi <= |c| && HasLogs(cfg, c, h)
    ensures h in Headers(BlockWrites(cfg, c, lo, hi))
    decreases hi
  {
    HeadersConcat(BlockWrites(cfg, c, lo, hi - 1), OneBlock(cfg, c, hi - 1));
    if h != hi - 1 {
      BlockWritesHeaders(cfg, c, lo, hi - 1, h);
    } else {
      OneBlockHeader(cfg, c, hi - 1);
    }
  }

  /** A handled log's block has its header among the block writes. */
  lemma {:induction false} LogHasHeader(cfg: Config, c: Chain, lo: nat, hi: nat, l: Located)
    requires lo <= hi <= |c| && l in Logs(cfg, c, lo, hi)
    ensures lo <= l.height < hi && HasLogs(cfg, c, l.height)
    decreases hi
  {
    if l in Logs(cfg, c, lo, hi - 1) {
      LogHasHeader(cfg, c, lo, hi - 1, l);
    } else {
      BlockLogsWatched(cfg, hi - 1, c[hi - 1].logs);
    }
  }

  lemma {:induction false} LogWritesHeights(ls: seq<Located>)
    ensures forall w :: w in LogWrites(ls) ==> w.Handle? && w.log in ls
  {
    if ls != [] {
      LogWritesHeights(ls[..|ls| - 1]);
    }
  }

  lemma {:induction false} SnapWritesHeights(cfg: Config, c: Chain, lo: nat, hi: nat)
    requires lo <= hi <= |c|
    ensures forall w :: w in SnapWrites(cfg, c, lo, hi) ==> lo <= HeightOf(w) < hi && HasLogs(cfg, c, HeightOf(w))
    decreases hi
  {
    if lo < hi {
      SnapWritesHeights(cfg, c, lo, hi - 1);
    }
  }

  lemma {:induction false} BeatsHeights(cfg: Config, db: Db, c: Chain, target: nat, vaults: seq<Address>)
    requires target < |c|
    ensures forall w :: w in Beats(cfg, db, c, target, vaults) ==> HeightOf(w) == target
  {
    if vaults != [] {
      BeatsHeights(cfg, db, c, target, vaults[..|vaults| - 1]);
    }
  }

  lemma {:induction false} OrderParts(a: seq<Write>, b: seq<Write>, c: seq<Write>, d: seq<Write>)
    requires HeadersFirst(a) && forall w :: w in b ==> IsHeader(w)
    requires forall w :: w in c || w in d ==> HeightOf(w) in Headers(a)
    ensures HeadersFirst(a + b + c + d)
  {
    HeadersFirstAppend(a, b);
    HeadersConcat(a, b);
    HeadersFirstAppend(a + b, c);
    HeadersConcat(a + b, c);
    HeadersFirstAppend(a + b + c, d);
  }

  lemma {:induction false} LogsAnchored(cfg: Config, c: Chain, from: nat, hi: nat)
    requires from <= hi <= |c|
    ensures forall w :: w in LogWrites(Logs(cfg, c, from, hi)) || w in SnapWrites(cfg, c, from, hi) ==>
              HeightOf(w) in Headers(BlockWrites(cfg, c, from, hi))
  {
    var logs := Logs(cfg, c, from, hi);
    LogWritesHeights(logs);
    SnapWritesHeights(cfg, c, from, hi);
    forall w | w in LogWrites(logs) || w in SnapWrites(cfg, c, from, hi)
      ensures HeightOf(w) in Headers(BlockWrites(cfg, c, from, hi))
    {
      if w in LogWrites(logs) {
        LogHasHeader(cfg, c, from, hi, w.log);
      }
      BlockWritesHeaders(cfg, c, from, hi, HeightOf(w));
    }
  }

  lemma {:induction false} IngestOrder(cfg: Config, c: Chain, from: nat, target: nat)
    requires from <= target < |c|
    ensures HeadersFirst(Ingest(cfg, c, from, target))
  {
    BlockWritesOrder(cfg, c, from, target + 1);
    LogsAnchored(cfg, c, from, target + 1);
    OrderParts(BlockWrites(cfg, c, from, target + 1), CursorWrites(cfg, c, target),
               LogWrites(Logs(cfg, c, from, target + 1)), SnapWrites(cfg, c, from, target + 1));
  }

  lemma {:induction false} HeadersOfParts(a: seq<Write>, b: seq<Write>, c: seq<Write>, d: seq<Write>)
    ensures Headers(a) + Headers(b) <= Headers(a + b + c + d)
  {
    HeadersConcat(a, b);
    HeadersConcat(a + b, c);
    HeadersConcat(a + b + c, d);
  }

  lemma {:induction false} CursorHeader(cfg: Config, c: Chain, target: nat)
    requires target < |c| && !HasLogs(cfg, c, target)
    ensures Headers(CursorWrites(cfg, c, target)) == {target}
  {
    SingleHeader(Header(cfg, c, target));
  }

  /** The headers of the blocks with watched logs, and of the last block, are among the writes. */
  lemma {:induction false} IngestHeaders(cfg: Config, c: Chain, from: nat, target: nat, h: nat)
    requires from <= h <= target < |c| && StoresHeader(cfg, c, target, h)
    ensures h in Headers(Ingest(cfg, c, from, target))
  {
    HeadersOfParts(BlockWrites(cfg, c, from, target + 1), CursorWrites(cfg, c, target),
                   LogWrites(Logs(cfg, c, from, target + 1)), SnapWrites(cfg, c, from, target + 1));
    if HasLogs(cfg, c, h) {
      BlockWritesHeaders(cfg, c, from, target + 1, h);
    } else {
      CursorHeader(cfg, c, target);
    }
  }

  lemma {:induction false} TickHeaders(cfg: Config, db: Db, c: Chain, from: nat, target: nat, h: nat)
    requires from <= h <= target < |c| && StoresHeader(cfg, c, target, h)
    ensures h in Headers(TickWrites(cfg, db, c, from, target))
  {
    var ingest := Ingest(cfg, c, from, target);
    IngestHeaders(cfg, c, from, target, h);
    match Exec(cfg, db, ingest)
    case Err =>
    case Ok(mid) => HeadersConcat(ingest, Beats(cfg, mid, c, target, HeartbeatVaults(cfg, mid)));
  }

  /** A header among the writes is stored by them. */
  lemma {:induction false} ExecHeaders(cfg: Config, c: Chain, from: nat, t: nat, db: Db, ws: seq<Write>, h: nat)
    requires t < |c| && (forall w :: w in ws ==> Faithful(cfg, c, from, t, w))
    requires h in Headers(ws) && Exec(cfg, db, ws).Ok?
    ensures BlockKey(cfg.chainId, h) in Exec(cfg, db, ws).value
  {
    var front, w := ws[..|ws| - 1], ws[|ws| - 1];
    assert w in ws;
    if h in Headers(front) {
      ExecHeaders(cfg, c, from, t, db, front, h);
      ApplyWriteState(cfg, c, from, t, Exec(cfg, db, front).value, w, BlockKey(cfg.chainId, h));
    }
  }

  lemma {:induction false} TickWritesOrder(cfg: Config, db: Db, c: Chain, from: nat, target: nat)
    requires from <= target < |c|
    ensures HeadersFirst(TickWrites(cfg, db, c, from, target))
  {
    var ingest := Ingest(cfg, c, from, target);
    IngestOrder(cfg, c, from, target);
    IngestHeaders(cfg, c, from, target, target);
    match Exec(cfg, db, ingest)
    case Err =>
    case Ok(mid) =>
      BeatsHeights(cfg, mid, c, target, HeartbeatVaults(cfg, mid));
      HeadersFirstAppend(ingest, Beats(cfg, mid, c, target, HeartbeatVaults(cfg, mid)));
  }

  // ---------------------------------------------------------------- heartbeat

  /** Every heartbeat vault has a snapshot fewer than the heartbeat interval behind `t`. */
  ghost predicate Fresh(cfg: Config, db: Db, t: nat) {
    forall a :: a == cfg.vault || a in ActiveVaults(db, cfg.chainId) ==> !NeedsBeat(db, cfg.chainId, a, t)
  }

  lemma {:induction false} BeatsOnlySnap(cfg: Config, db: Db, c: Chain, target: nat, vaults: seq<Address>)
    requires target < |c|
    ensures forall w :: w in Beats(cfg, db, c, target, vaults) ==> w.Snap?
  {
    if vaults != [] {
      BeatsOnlySnap(cfg, db, c, target, vaults[..|vaults| - 1]);
    }
  }

  /** Snapshot writes touch no vault row and keep every snapshot. */
  lemma {:induction false} SnapsKeep(cfg: Config, db: Db, ws: seq<Write>, k: Key)
    requires (forall w :: w in ws ==> w.Snap?) && Exec(cfg, db, ws).Ok?
    ensures k in db ==> k in Exec(cfg, db, ws).value && Exec(cfg, db, ws).value[k] == db[k]
    ensures k.VaultKey? && k !in db ==> k !in Exec(cfg, db, ws).value
  {
    if ws != [] {
      assert ws[|ws| - 1] in ws;
      SnapsKeep(cfg, db, ws[..|ws| - 1], k);
    }
  }

  lemma {:induction false} BeatsCover(cfg: Config, db: Db, c: Chain, target: nat, vaults: seq<Address>, a: Address)
    requires target < |c| && a in vaults && NeedsBeat(db, cfg.chainId, a, target)
    requires Exec(cfg, db, Beats(cfg, db, c, target, vaults)).Ok?
    ensures SnapshotKey(cfg.chainId, a, target) in Exec(cfg, db, Beats(cfg, db, c, target, vaults)).value
  {
    var front, last := vaults[..|vaults| - 1], vaults[|vaults| - 1];
    var before := Beats(cfg, db, c, target, front);
    var beat := if NeedsBeat(db, cfg.chainId, last, target) then [Snap(last, target, StateAt(c, target, last))] else [];
    ExecConcat(cfg, db, before, beat);
    assert beat != [] ==> beat[..0] == [];
    if a != last {
      BeatsCover(cfg, db, c, target, front, a);
    }
  }

  lemma {:induction false} BeatsFresh(cfg: Config, mid: Db, c: Chain, target: nat, db': Db)
    requires target < |c|
    requires Exec(cfg, mid, Beats(cfg, mid, c, target, HeartbeatVaults(cfg, mid))) == Ok(db')
    requires forall k :: k in mid && k.SnapshotKey? && k.cid == cfg.chainId ==> mid[k].block == k.height
    ensures Fresh(cfg, db', target)
  {
    var vaults := HeartbeatVaults(cfg, mid);
    HeartbeatVaultsListed(cfg, mid);
    BeatsOnlySnap(cfg, mid, c, target, vaults);
    forall a | a == cfg.vault || a in ActiveVaults(db', cfg.chainId)
      ensures !NeedsBeat(db', cfg.chainId, a, target)
    {
      SnapsKeep(cfg, mid, Beats(cfg, mid, c, target, vaults), VaultKey(cfg.chainId, a));
      FreshVault(cfg, mid, c, target, db', a);
    }
  }

  lemma {:induction false} FreshVault(cfg: Config, mid: Db, c: Chain, target: nat, db': Db, a: Address)
    requires target < |c| && a in HeartbeatVaults(cfg, mid)
    requires Exec(cfg, mid, Beats(cfg, mid, c, target, HeartbeatVaults(cfg, mid))) == Ok(db')
    requires forall k :: k in mid && k.SnapshotKey? && k.cid == cfg.chainId ==> mid[k].block == k.height
    ensures !NeedsBeat(db', cfg.chainId, a, target)
  {
    var vaults := HeartbeatVaults(cfg, mid);
    var ws := Beats(cfg, mid, c, target, vaults);
    BeatsOnlySnap(cfg, mid, c, target, vaults);
    if NeedsBeat(mid, cfg.chainId, a, target) {
      var k := SnapshotKey(cfg.chainId, a, target);
      BeatsCover(cfg, mid, c, target, vaults, a);
      BeatsFaithful(cfg, mid, c, target, target, vaults);
      ExecState(cfg, c, target, target, mid, ws, k);
      assert k in db' && db'[k].block == target;
    } else {
      var k :| k in mid && k.SnapshotKey? && k.cid == cfg.chainId && k.contract == a &&
               target - mid[k].block < HEARTBEAT_BLOCKS;
      SnapsKeep(cfg, mid, ws, k);
    }
  }

  // ---------------------------------------------------------------- anchoring

  /** State rows carry the height of their key. */
  ghost predicate StateKeyed(cfg: Config, db: Db) {
    forall k :: k in db && k.cid == cfg.chainId && IsStateKey(k) ==>
      db[k].block == k.height && (k.BlockKey? ==> db[k].cols.BlockCols?)
  }

  /** The tables whose rows refer to a block: all but `blocks`, `vaults` and `wallet_positions`. */
  predicate IsAnchoredKey(k: Key) {
    !k.BlockKey? && !k.VaultKey? && !k.PositionKey?
  }

  ghost predicate Anchored(cfg: Config, db: Db) {
    forall k :: k in db && k.cid == cfg.chainId && IsAnchoredKey(k) ==> BlockKey(cfg.chainId, db[k].block) in db
  }

  ghost predicate Sound(cfg: Config, db: Db) {
    Anchored(cfg, db) && StateKeyed(cfg, db)
  }

  /** A log only adds rows at its own height. */
  lemma {:induction false} ApplyLogRows(cfg: Config, db: Db, l: Located, k: Key)
    requires ApplyLog(cfg, db, l).Ok? && k in ApplyLog(cfg, db, l).value
    ensures var db' := ApplyLog(cfg, db, l).value;
            || (k in db && db'[k].block == db[k].block)
            || (k !in db && db'[k].block == l.height && k.cid == cfg.chainId && !k.BlockKey? && !k.SnapshotKey?)
  {
  }

  lemma {:induction false} ApplyWriteRows(cfg: Config, c: Chain, from: nat, t: nat, db: Db, w: Write, k: Key)
    requires t < |c| && Faithful(cfg, c, from, t, w) && ApplyWrite(cfg, db, w).Ok?
    ensures var db' := ApplyWrite(cfg, db, w).value;
            && (k in db ==> k in db' && db'[k].block == db[k].block)
            && (k !in db && k in db' ==> db'[k].block == HeightOf(w) && k.cid == cfg.chainId)
            && (IsHeader(w) ==> BlockKey(cfg.chainId, HeightOf(w)) in db')
  {
    if w.Handle? && k in ApplyLog(cfg, db, w.log).value {
      ApplyLogRows(cfg, db, w.log, k);
    }
  }

  /** One write after its header keeps every row anchored. */
  lemma {:induction false} ApplyWriteAnchored(cfg: Config, c: Chain, from: nat, t: nat, db: Db, w: Write, db': Db)
    requires t < |c| && Faithful(cfg, c, from, t, w) && ApplyWrite(cfg, db, w) == Ok(db')
    requires Sound(cfg, db)
    requires IsHeader(w) || BlockKey(cfg.chainId, HeightOf(w)) in db
    ensures Sound(cfg, db')
    ensures IsHeader(w) ==> BlockKey(cfg.chainId, HeightOf(w)) in db'
    ensures forall k :: k in db ==> k in db'
  {
    forall k
      ensures k in db ==> k in db' && db'[k].block == db[k].block
      ensures k !in db && k in db' ==> db'[k].block == HeightOf(w) && k.cid == cfg.chainId
      ensures IsHeader(w) ==> BlockKey(cfg.chainId, HeightOf(w)) in db'
    {
      ApplyWriteRows(cfg, c, from, t, db, w, k);
    }
    forall k | k in db' && IsStateKey(k)
      ensures k in db ==> db'[k] == db[k]
      ensures k !in db ==> Mirrors(c, k, db'[k])
    {
      ApplyWriteState(cfg, c, from, t, db, w, k);
    }
  }

  /** Anchoring holds after every single write of a pass. */
  lemma {:induction false} ExecAnchored(cfg: Config, c: Chain, from: nat, t: nat, db: Db, ws: seq<Write>)
    requires t < |c| && (forall w :: w in ws ==> Faithful(cfg, c, from, t, w)) && HeadersFirst(ws)
    requires Exec(cfg, db, ws).Ok? && Sound(cfg, db)
    ensures Sound(cfg, Exec(cfg, db, ws).value)
    ensures forall h :: h in Headers(ws) ==> BlockKey(cfg.chainId, h) in Exec(cfg, db, ws).value
  {
    if ws != [] {
      var front, w := ws[..|ws| - 1], ws[|ws| - 1];
      assert w in ws;
      ExecAnchored(cfg, c, from, t, db, front);
      ApplyWriteAnchored(cfg, c, from, t, Exec(cfg, db, front).value, w, Exec(cfg, db, ws).value);
    }
  }


  // ---------------------------------------------------------------- the contract

  /** Headers and snapshots are kept once written; new ones are what `c` shows at a height of the range. */
  ghost predicate StateEffect(cfg: Config, c: Chain, from: nat, t: nat, db: Db, db': Db) {
    forall k :: IsStateKey(k) ==>
      && (k in db ==> k in db' && db'[k] == db[k])
      && (k in db' && k !in db ==>
          && k.cid == cfg.chainId && Mirrors(c, k, db'[k]) && from <= db'[k].block <= t
          && (k.BlockKey? ==> StoresHeader(cfg, c, t, k.height)))
  }

  ghost predicate SameElsewhere(cfg: Config, db: Db, db': Db) {
    forall k: Key :: k.cid != cfg.chainId ==> (k in db <==> k in db') && (k in db ==> db'[k] == db[k])
  }

  /** What ingesting some logs of the range `from..t` of chain `c` does to the tables. */
  ghost predicate Effect(cfg: Config, c: Chain, from: nat, t: nat, db: Db, logs: seq<Located>, db': Db) {
    && from <= t < |c|
    && Events(db', cfg.chainId) == FoldEvents(cfg, Events(db, cfg.chainId), logs)
    && DerivedEffect(cfg, db, logs, db')
    && StateEffect(cfg, c, from, t, db, db')
    && SameElsewhere(cfg, db, db')
    && (Sound(cfg, db) ==> Sound(cfg, db'))
  }

  /** `logs` are the watched logs of the range. */
  predicate RangeLogs(cfg: Config, c: Chain, from: nat, t: nat, logs: seq<Located>)
    requires from <= t < |c|
  {
    logs == Logs(cfg, c, from, t + 1)
  }

  /** Transactions are kept once written; new ones are the chain's, of blocks of the range with watched logs. */
  ghost predicate TxEffect(cfg: Config, c: Chain, from: nat, t: nat, db: Db, db': Db)
    requires t < |c|
  {
    forall k: Key :: k.TxKey? ==>
      && (k in db ==> k in db' && db'[k] == db[k])
      && (k in db' && k !in db ==>
          && k.cid == cfg.chainId && from <= db'[k].block <= t && HasLogs(cfg, c, db'[k].block)
          && TxShown(c, k, db'[k]))
  }

  /** Every transaction of a block of the range with watched logs has a row, and every block of the range that touches
      the configured vault has its snapshot. */
  ghost predicate Whole(cfg: Config, c: Chain, from: nat, t: nat, db': Db)
    requires t < |c|
  {
    forall h: nat :: from <= h <= t ==> WholeBlock(cfg, c, h, db')
  }

  ghost predicate WholeBlock(cfg: Config, c: Chain, h: nat, db': Db)
    requires h < |c|
  {
    && (HasLogs(cfg, c, h) ==> forall j: nat :: j < |c[h].txs| ==> TxKey(cfg.chainId, c[h].txs[j].hash) in db')
    && (VaultTouched(cfg, c, h) ==> SnapshotKey(cfg.chainId, cfg.vault, h) in db')
  }

  /** A full pass handles all the range's logs, stores the headers of their blocks and of its last block, their
      transactions and the snapshots of the blocks that touch the vault, and leaves every heartbeat vault with a recent
      snapshot. */
  ghost predicate FullPass(cfg: Config, c: Chain, from: nat, t: nat, db: Db, db': Db) {
    && from <= t < |c| && TxEffect(cfg, c, from, t, db, db') && Whole(cfg, c, from, t, db')
    && (forall logs :: RangeLogs(cfg, c, from, t, logs) ==> Effect(cfg, c, from, t, db, logs, db'))
    && (forall h: nat :: from <= h <= t && StoresHeader(cfg, c, t, h) ==> BlockKey(cfg.chainId, h) in db')
    && (StateKeyed(cfg, db) ==> Fresh(cfg, db', t))
  }

  /** A pass cut short has handled a prefix of the range's logs. */
  ghost predicate PartPass(cfg: Config, c: Chain, from: nat, t: nat, db: Db, db': Db) {
    && from <= t < |c| && TxEffect(cfg, c, from, t, db, db')
    && (forall all :: RangeLogs(cfg, c, from, t, all) ==>
          exists logs :: logs <= all && Effect(cfg, c, from, t, db, logs, db'))
  }

  lemma {:induction false} FullPassEffect(cfg: Config, c: Chain, from: nat, t: nat, db: Db, db': Db)
    requires FullPass(cfg, c, from, t, db, db')
    ensures Effect(cfg, c, from, t, db, Logs(cfg, c, from, t + 1), db')
  {
    assert RangeLogs(cfg, c, from, t, Logs(cfg, c, from, t + 1));
  }

  lemma {:induction false} PartPassEffect(cfg: Config, c: Chain, from: nat, t: nat, db: Db, db': Db)
    returns (logs: seq<Located>)
    requires PartPass(cfg, c, from, t, db, db')
    ensures logs <= Logs(cfg, c, from, t + 1) && Effect(cfg, c, from, t, db, logs, db')
  {
    var all := Logs(cfg, c, from, t + 1);
    assert RangeLogs(cfg, c, from, t, all);
    logs :| logs <= all && Effect(cfg, c, from, t, db, logs, db');
  }

  /** The ingest phase of a tick that completes, resuming at level `resume` from tables `base`. */
  ghost predicate Advances(cfg: Config, c: Chain, base: Db, resume: int, db': Db, recorded: int)
    requires |c| > 0 && -1 <= resume
  {
    var target := Target(cfg, resume + 1, |c| - 1);
    if target.None? then
      recorded == resume && db' == base
    else
      recorded == target.value && FullPass(cfg, c, resume + 1, target.value, base, db')
  }

  /** The ingest phase of a tick that stops anywhere. */
  ghost predicate Stops(cfg: Config, c: Chain, base: Db, resume: int, db': Db)
    requires |c| > 0 && -1 <= resume
  {
    var target := Target(cfg, resume + 1, |c| - 1);
    if target.None? then db' == base else PartPass(cfg, c, resume + 1, target.value, base, db')
  }

  // ---------------------------------------------------------------- the plan meets the contract

  lemma {:induction false} ExecEffect(cfg: Config, c: Chain, from: nat, t: nat, db: Db, ws: seq<Write>, db': Db)
    requires from <= t < |c| && (forall w :: w in ws ==> Faithful(cfg, c, from, t, w)) && HeadersFirst(ws)
    requires Exec(cfg, db, ws) == Ok(db')
    ensures Effect(cfg, c, from, t, db, LogsIn(ws), db')
  {
    ExecEvents(cfg, db, ws);
    ExecDerived(cfg, db, ws);
    assert StateEffect(cfg, c, from, t, db, db') && SameElsewhere(cfg, db, db') by {
      forall k
        ensures IsStateKey(k) && k in db ==> k in db' && db'[k] == db[k]
        ensures IsStateKey(k) && k in db' && k !in db ==>
                  && k.cid == cfg.chainId && Mirrors(c, k, db'[k]) && from <= db'[k].block <= t
                  && (k.BlockKey? ==> StoresHeader(cfg, c, t, k.height))
        ensures k.cid != cfg.chainId ==> (k in db <==> k in db') && (k in db ==> db'[k] == db[k])
      {
        ExecState(cfg, c, from, t, db, ws, k);
      }
    }
    if Sound(cfg, db) {
      ExecAnchored(cfg, c, from, t, db, ws);
    }
  }

  lemma {:induction false} PrefixEffect(cfg: Config, c: Chain, from: nat, t: nat, db: Db, ws: seq<Write>, n: nat,
                                        db': Db)
    requires from <= t < |c| && (forall w :: w in ws ==> Faithful(cfg, c, from, t, w)) && HeadersFirst(ws)
    requires StopsAfter(cfg, db, ws, n, db')
    ensures Effect(cfg, c, from, t, db, LogsIn(ws[..n]), db') && LogsIn(ws[..n]) <= LogsIn(ws)
  {
    HeadersFirstPrefix(ws, n);
    assert LogsIn(ws[..n]) <= LogsIn(ws) by {
      LogsInConcat(ws[..n], ws[n..]);
      assert ws[..n] + ws[n..] == ws;
    }
    ExecEffect(cfg, c, from, t, db, ws[..n], db');
  }

  /** Any part of the plan copies transactions from the chain. */
  lemma {:induction false} PlanTxEffect(cfg: Config, db: Db, c: Chain, from: nat, t: nat, ws: seq<Write>, db': Db)
    requires from <= t < |c| && ws <= TickWrites(cfg, db, c, from, t) && Exec(cfg, db, ws) == Ok(db')
    ensures TxEffect(cfg, c, from, t, db, db')
  {
    TickCopiesTxs(cfg, db, c, from, t);
    forall w | w in ws
      ensures CopiesTx(cfg, c, from, t, w)
    {
      assert w in TickWrites(cfg, db, c, from, t);
    }
    forall k: Key | k.TxKey?
      ensures k in db ==> k in db' && db'[k] == db[k]
      ensures k in db' && k !in db ==>
                && k.cid == cfg.chainId && from <= db'[k].block <= t && HasLogs(cfg, c, db'[k].block)
                && TxShown(c, k, db'[k])
    {
      ExecTx(cfg, c, from, t, db, ws, k);
    }
  }

  /** The whole plan leaves nothing out. */
  lemma {:induction false} PlanWhole(cfg: Config, db: Db, c: Chain, from: nat, t: nat, h: nat, db': Db)
    requires from <= h <= t < |c| && Exec(cfg, db, TickWrites(cfg, db, c, from, t)) == Ok(db')
    ensures WholeBlock(cfg, c, h, db')
  {
    var ws := TickWrites(cfg, db, c, from, t);
    TickIncludes(cfg, db, c, from, t, h);
    if HasLogs(cfg, c, h) {
      forall j: nat | j < |c[h].txs|
        ensures TxKey(cfg.chainId, c[h].txs[j].hash) in db'
      {
        ExecLeaves(cfg, db, ws, TxWrite(cfg, h, c[h].txs[j]));
      }
    }
    if VaultTouched(cfg, c, h) {
      ExecLeaves(cfg, db, ws, Snap(cfg.vault, h, StateAt(c, h, cfg.vault)));
    }
  }

  lemma {:induction false} CutShortPartPass(cfg: Config, db: Db, c: Chain, from: nat, t: nat, db': Db)
    requires from <= t < |c| && CutShort(cfg, db, c, from, t, db')
    ensures PartPass(cfg, c, from, t, db, db')
  {
    var ws := TickWrites(cfg, db, c, from, t);
    PlannedIs(cfg, db, c, from, t, ws);
    TickWritesFaithful(cfg, db, c, from, t);
    TickWritesOrder(cfg, db, c, from, t);
    var n: nat :| StopsAfter(cfg, db, ws, n, db');
    PrefixEffect(cfg, c, from, t, db, ws, n, db');
    PlanTxEffect(cfg, db, c, from, t, ws[..n], db');
  }

  lemma {:induction false} SnapshotsStayKeyed(cfg: Config, c: Chain, from: nat, t: nat, db: Db, ws: seq<Write>, db': Db)
    requires t < |c| && (forall w :: w in ws ==> Faithful(cfg, c, from, t, w))
    requires Exec(cfg, db, ws) == Ok(db') && StateKeyed(cfg, db)
    ensures forall k :: k in db' && k.SnapshotKey? && k.cid == cfg.chainId ==> db'[k].block == k.height
  {
    forall k | k in db' && k.SnapshotKey? && k.cid == cfg.chainId
      ensures db'[k].block == k.height
    {
      ExecState(cfg, c, from, t, db, ws, k);
    }
  }

  lemma {:induction false} RunsFresh(cfg: Config, db: Db, c: Chain, from: nat, t: nat, db': Db)
    requires from <= t < |c| && Exec(cfg, db, TickWrites(cfg, db, c, from, t)) == Ok(db') && StateKeyed(cfg, db)
    ensures Fresh(cfg, db', t)
  {
    var ingest := Ingest(cfg, c, from, t);
    if Exec(cfg, db, ingest).Ok? {
      var mid := Exec(cfg, db, ingest).value;
      IngestFaithful(cfg, c, from, t);
      SnapshotsStayKeyed(cfg, c, from, t, db, ingest, mid);
      ExecConcat(cfg, db, ingest, Beats(cfg, mid, c, t, HeartbeatVaults(cfg, mid)));
      BeatsFresh(cfg, mid, c, t, db');
    }
  }

  lemma {:induction false} RunsFullPass(cfg: Config, db: Db, c: Chain, from: nat, t: nat, db': Db)
    requires from <= t < |c| && Runs(cfg, db, c, from, t, db')
    ensures FullPass(cfg, c, from, t, db, db')
  {
    PlannedIs(cfg, db, c, from, t, TickWrites(cfg, db, c, from, t));
    TickWritesFaithful(cfg, db, c, from, t);
    TickWritesOrder(cfg, db, c, from, t);
    ExecEffect(cfg, c, from, t, db, TickWrites(cfg, db, c, from, t), db');
    forall h: nat | from <= h <= t && StoresHeader(cfg, c, t, h)
      ensures BlockKey(cfg.chainId, h) in db'
    {
      TickHeaders(cfg, db, c, from, t, h);
      ExecHeaders(cfg, c, from, t, db, TickWrites(cfg, db, c, from, t), h);
    }
    if StateKeyed(cfg, db) {
      RunsFresh(cfg, db, c, from, t, db');
    }
    RunsWhole(cfg, db, c, from, t, db');
  }

  lemma {:induction false} RunsWhole(cfg: Config, db: Db, c: Chain, from: nat, t: nat, db': Db)
    requires from <= t < |c| && Exec(cfg, db, TickWrites(cfg, db, c, from, t)) == Ok(db')
    ensures TxEffect(cfg, c, from, t, db, db') && Whole(cfg, c, from, t, db')
  {
    PlanTxEffect(cfg, db, c, from, t, TickWrites(cfg, db, c, from, t), db');
    forall h: nat | from <= h <= t
      ensures WholeBlock(cfg, c, h, db')
    {
      PlanWhole(cfg, db, c, from, t, h, db');
    }
  }

  /** The write plan of a completed tick meets the contract. */
  lemma {:induction false} FinishesAdvances(cfg: Config, c: Chain, base: Db, resume: int, db': Db, recorded: int)
    requires |c| > 0 && -1 <= resume && Finishes(cfg, c, base, resume, db', recorded)
    ensures Advances(cfg, c, base, resume, db', recorded)
  {
    var target := Target(cfg, resume + 1, |c| - 1);
    if target.Some? {
      RunsFullPass(cfg, base, c, resume + 1, target.value, db');
    }
  }

  /** So does every prefix of it. */
  lemma {:induction false} BreaksStops(cfg: Config, c: Chain, base: Db, resume: int, db': Db)
    requires |c| > 0 && -1 <= resume && Breaks(cfg, c, base, resume, db')
    ensures Stops(cfg, c, base, resume, db')
  {
    var target := Target(cfg, resume + 1, |c| - 1);
    if target.Some? {
      CutShortPartPass(cfg, base, c, resume + 1, target.value, db');
    }
  }
}
