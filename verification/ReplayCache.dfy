/** The payment client's replay cache: one JSON file shared by any number of processes under advisory locks. */
module ReplayCache {
  import opened Wrappers
  import opened Division

  // ---------------------------------------------------------------- the cache key

  type Byte = b: nat | b < 256

  /** The `n`-byte big-endian form of `v`; higher bytes are lost. */
  function BigEndian(v: nat, n: nat): seq<Byte> {
    if n == 0 then [] else BigEndian(v / 256, n - 1) + [v % 256]
  }

  function Value(bytes: seq<Byte>): nat {
    if bytes == [] then 0 else Value(bytes[..|bytes| - 1]) * 256 + bytes[|bytes| - 1]
  }

  function Pow256(n: nat): (p: nat)
    ensures p > 0
  {
    if n == 0 then 1 else 256 * Pow256(n - 1)
  }

  /** A word that fits is recovered from its bytes. */
  lemma {:induction false} BigEndianValue(v: nat, n: nat)
    requires v < Pow256(n)
    ensures |BigEndian(v, n)| == n && Value(BigEndian(v, n)) == v
  {
    if n > 0 {
      BigEndianValue(v / 256, n - 1);
    }
  }

  lemma {:induction false} PowGrows(m: nat, n: nat)
    requires m <= n
    ensures Pow256(m) <= Pow256(n)
  {
    if m < n {
      PowGrows(m, n - 1);
    }
  }

  /** The inputs of the gateway's paymentId: a u64, two 20-byte addresses and three 32-byte words. */
  datatype Inputs = Inputs(chainId: nat, gateway: nat, agent: nat, orderId: nat, amount: nat, idempotencyKey: nat) {
    predicate Fits() {
      && chainId < Pow256(8) && gateway < Pow256(20) && agent < Pow256(20)
      && orderId < Pow256(32) && amount < Pow256(32) && idempotencyKey < Pow256(32)
    }
  }

  type Id = seq<Byte>

  /** The `abi.encode` of the six static words.  The hash is taken to be injective, so the encoding stands for it. */
  function PaymentId(x: Inputs): Id {
    BigEndian(x.chainId, 32) + BigEndian(x.gateway, 32) + BigEndian(x.agent, 32) +
    BigEndian(x.orderId, 32) + BigEndian(x.amount, 32) + BigEndian(x.idempotencyKey, 32)
  }

  lemma {:induction false} WordsSplit(a: seq<Byte>, b: seq<Byte>, s: seq<Byte>, t: seq<Byte>)
    requires |a| == |s| && a + b == s + t
    ensures a == s && b == t
  {
    assert a == (a + b)[..|a|] && b == (a + b)[|a|..];
    assert s == (s + t)[..|s|] && t == (s + t)[|s|..];
  }

  lemma {:induction false} Widens(v: nat, m: nat, n: nat)
    requires v < Pow256(m) && m <= n
    ensures v < Pow256(n)
  {
    PowGrows(m, n);
  }

  lemma {:induction false} FitsWords(x: Inputs)
    requires x.Fits()
    ensures x.chainId < Pow256(32) && x.gateway < Pow256(32) && x.agent < Pow256(32)
  {
    Widens(x.chainId, 8, 32);
    Widens(x.gateway, 20, 32);
    Widens(x.agent, 20, 32);
  }

  lemma {:induction false} WordEqual(a: nat, b: nat)
    requires a < Pow256(32) && b < Pow256(32) && BigEndian(a, 32) == BigEndian(b, 32)
    ensures a == b
  {
    BigEndianValue(a, 32);
    BigEndianValue(b, 32);
  }

  lemma {:induction false} WordLength(v: nat, n: nat)
    ensures |BigEndian(v, n)| == n
  {
    if n > 0 {
      WordLength(v / 256, n - 1);
    }
  }

  lemma {:induction false} PeelWord(a: nat, b: nat, front: seq<Byte>, front': seq<Byte>)
    requires a < Pow256(32) && b < Pow256(32) && front + BigEndian(a, 32) == front' + BigEndian(b, 32)
    ensures a == b && front == front'
  {
    WordLength(a, 32);
    WordLength(b, 32);
    assert |front + BigEndian(a, 32)| == |front' + BigEndian(b, 32)|;
    WordsSplit(front, BigEndian(a, 32), front', BigEndian(b, 32));
    WordEqual(a, b);
  }

  /** The cache key is exact: equal keys mean all six inputs are equal. */
  lemma {:induction false} PaymentIdInjective(x: Inputs, y: Inputs)
    requires x.Fits() && y.Fits()
    ensures PaymentId(x) == PaymentId(y) <==> x == y
  {
    if PaymentId(x) == PaymentId(y) {
      var a1, b1 := BigEndian(x.chainId, 32), BigEndian(y.chainId, 32);
      var a2, b2 := a1 + BigEndian(x.gateway, 32), b1 + BigEndian(y.gateway, 32);
      var a3, b3 := a2 + BigEndian(x.agent, 32), b2 + BigEndian(y.agent, 32);
      var a4, b4 := a3 + BigEndian(x.orderId, 32), b3 + BigEndian(y.orderId, 32);
      var a5, b5 := a4 + BigEndian(x.amount, 32), b4 + BigEndian(y.amount, 32);
      FitsWords(x);
      FitsWords(y);
      PeelWord(x.idempotencyKey, y.idempotencyKey, a5, b5);
      PeelWord(x.amount, y.amount, a4, b4);
      PeelWord(x.orderId, y.orderId, a3, b3);
      PeelWord(x.agent, y.agent, a2, b2);
      PeelWord(x.gateway, y.gateway, a1, b1);
      WordEqual(x.chainId, y.chainId);
    }
  }

  // ---------------------------------------------------------------- the key, byte by byte

  lemma {:induction false} PowAdds(m: nat, n: nat)
    ensures Pow256(m + n) == Pow256(m) * Pow256(n)
  {
    if m > 0 {
      PowAdds(m - 1, n);
      var p, q := Pow256(m - 1), Pow256(n);
      assert 256 * (p * q) == (256 * p) * q;
    }
  }

  lemma {:induction false} PowProduct(m: nat, n: nat, p: nat, q: nat, r: nat)
    requires Pow256(m) == p && Pow256(n) == q && r == p * q
    ensures Pow256(m + n) == r
  {
    PowAdds(m, n);
  }

  /** A u64, two 160-bit addresses and three 256-bit words. */
  lemma {:induction false} FitsIff(x: Inputs)
    ensures x.Fits() <==>
            && x.chainId <= 0xFFFF_FFFF_FFFF_FFFF
            && x.gateway <= 0xFFFF_FFFF_FFFF_FFFF_FFFF_FFFF_FFFF_FFFF_FFFF_FFFF
            && x.agent <= 0xFFFF_FFFF_FFFF_FFFF_FFFF_FFFF_FFFF_FFFF_FFFF_FFFF
            && x.orderId <= 0xFFFF_FFFF_FFFF_FFFF_FFFF_FFFF_FFFF_FFFF_FFFF_FFFF_FFFF_FFFF_FFFF_FFFF_FFFF_FFFF
            && x.amount <= 0xFFFF_FFFF_FFFF_FFFF_FFFF_FFFF_FFFF_FFFF_FFFF_FFFF_FFFF_FFFF_FFFF_FFFF_FFFF_FFFF
            && x.idempotencyKey <= 0xFFFF_FFFF_FFFF_FFFF_FFFF_FFFF_FFFF_FFFF_FFFF_FFFF_FFFF_FFFF_FFFF_FFFF_FFFF_FFFF
  {
    var p16 := 0x1_0000_0000_0000_0000_0000_0000_0000_0000;
    assert Pow256(2) == 0x1_0000;
    PowProduct(2, 2, 0x1_0000, 0x1_0000, 0x1_0000_0000);
    PowProduct(4, 4, 0x1_0000_0000, 0x1_0000_0000, 0x1_0000_0000_0000_0000);
    PowProduct(8, 8, 0x1_0000_0000_0000_0000, 0x1_0000_0000_0000_0000, p16);
    PowProduct(16, 4, p16, 0x1_0000_0000, 0x1_0000_0000_0000_0000_0000_0000_0000_0000_0000_0000);
    PowProduct(16, 16, p16, p16,
               0x1_0000_0000_0000_0000_0000_0000_0000_0000_0000_0000_0000_0000_0000_0000_0000_0000);
  }

  /** The most significant byte comes first: byte `i` of `n` has weight 256 to the `n - 1 - i`. */
  lemma {:induction false} ByteAt(v: nat, n: nat, i: nat)
    requires i < n
    ensures |BigEndian(v, n)| == n && BigEndian(v, n)[i] == (v / Pow256(n - 1 - i)) % 256
  {
    WordLength(v, n);
    WordLength(v / 256, n - 1);
    if i < n - 1 {
      ByteAt(v / 256, n - 1, i);
      DivideTwice(v, 256, Pow256(n - 2 - i), Pow256(n - 1 - i));
    }
  }

  /** Bytes `from` to `from + 31` of `id` are the word `v`, most significant byte first; they read back as `v`. */
  ghost predicate HoldsWord(id: Id, from: nat, v: nat)
    requires from + 32 <= |id|
  {
    && (forall i :: from <= i < from + 32 ==> id[i] == (v / Pow256(from + 31 - i)) % 256)
    && Value(id[from..from + 32]) == v
  }

  /** `w` is the 32-byte word of `v`. */
  ghost predicate IsWord(w: seq<Byte>, v: nat) {
    |w| == 32 && Value(w) == v && forall i :: 0 <= i < 32 ==> w[i] == (v / Pow256(31 - i)) % 256
  }

  lemma {:induction false} WordOf(v: nat)
    requires v < Pow256(32)
    ensures IsWord(BigEndian(v, 32), v)
  {
    BigEndianValue(v, 32);
    forall i | 0 <= i < 32
      ensures BigEndian(v, 32)[i] == (v / Pow256(31 - i)) % 256
    {
      ByteAt(v, 32, i);
    }
  }

  lemma {:induction false} Slot(id: Id, from: nat, w: seq<Byte>, v: nat)
    requires from + 32 <= |id| && id[from..from + 32] == w && IsWord(w, v)
    ensures HoldsWord(id, from, v)
  {
    forall i | from <= i < from + 32
      ensures id[i] == (v / Pow256(from + 31 - i)) % 256
    {
      assert id[i] == w[i - from];
    }
  }

  lemma {:induction false} SixWords(id: Id, x: Inputs, w0: Id, w1: Id, w2: Id, w3: Id, w4: Id, w5: Id)
    requires IsWord(w0, x.chainId) && IsWord(w1, x.gateway) && IsWord(w2, x.agent)
    requires IsWord(w3, x.orderId) && IsWord(w4, x.amount) && IsWord(w5, x.idempotencyKey)
    requires id == w0 + w1 + w2 + w3 + w4 + w5
    ensures |id| == 192
    ensures HoldsWord(id, 0, x.chainId) && HoldsWord(id, 32, x.gateway) && HoldsWord(id, 64, x.agent)
    ensures HoldsWord(id, 96, x.orderId) && HoldsWord(id, 128, x.amount) && HoldsWord(id, 160, x.idempotencyKey)
  {
    Slot(id, 0, w0, x.chainId);
    Slot(id, 32, w1, x.gateway);
    Slot(id, 64, w2, x.agent);
    Slot(id, 96, w3, x.orderId);
    Slot(id, 128, w4, x.amount);
    Slot(id, 160, w5, x.idempotencyKey);
  }

  /** The layout of the key: 192 bytes, the six inputs in the order of the gateway's encoding, each as one 32-byte word,
      most significant byte first. */
  lemma {:induction false} PaymentIdLayout(x: Inputs)
    requires x.Fits()
    ensures |PaymentId(x)| == 192
    ensures HoldsWord(PaymentId(x), 0, x.chainId) && HoldsWord(PaymentId(x), 32, x.gateway)
    ensures HoldsWord(PaymentId(x), 64, x.agent) && HoldsWord(PaymentId(x), 96, x.orderId)
    ensures HoldsWord(PaymentId(x), 128, x.amount) && HoldsWord(PaymentId(x), 160, x.idempotencyKey)
  {
    FitsWords(x);
    WordOf(x.chainId);
    WordOf(x.gateway);
    WordOf(x.agent);
    WordOf(x.orderId);
    WordOf(x.amount);
    WordOf(x.idempotencyKey);
    SixWords(PaymentId(x), x, BigEndian(x.chainId, 32), BigEndian(x.gateway, 32), BigEndian(x.agent, 32),
             BigEndian(x.orderId, 32), BigEndian(x.amount, 32), BigEndian(x.idempotencyKey, 32));
  }

  // ---------------------------------------------------------------- the file

  datatype Entry = Entry(paymentId: Id, orderId: nat, idempotencyKey: nat, deadline: nat, txHash: string)

  type Entries = map<Id, Entry>

  /** What the file holds: nothing yet, blank, a well-formed list, or text that does not parse. */
  datatype Text = Missing | Blank | Json(entries: seq<Entry>) | Garbage

  /** Later entries win, as in the loading loop. */
  function ToMap(entries: seq<Entry>): Entries {
    if entries == [] then
      map[]
    else
      var e := entries[|entries| - 1];
      ToMap(entries[..|entries| - 1])[e.paymentId := e]
  }

  function Load(t: Text): Result<Entries> {
    match t
    case Missing => Ok(map[])
    case Blank => Ok(map[])
    case Json(entries) => Ok(ToMap(entries))
    case Garbage => Err
  }

  /** Lexicographic order of ids. */
  predicate Before(a: Id, b: Id) {
    b != [] && (a == [] || a[0] < b[0] || (a[0] == b[0] && Before(a[1..], b[1..])))
  }

  lemma {:induction false} BeforeTotal(a: Id, b: Id)
    ensures a == b || Before(a, b) || Before(b, a)
    ensures Before(a, b) ==> a != b && !Before(b, a)
  {
    if a != [] && b != [] && a[0] == b[0] {
      BeforeTotal(a[1..], b[1..]);
      assert a == [a[0]] + a[1..] && b == [b[0]] + b[1..];
    }
  }

  lemma {:induction false} BeforeTransitive(a: Id, b: Id, c: Id)
    requires Before(a, b) && Before(b, c)
    ensures Before(a, c)
  {
    if a != [] && a[0] == b[0] == c[0] {
      BeforeTransitive(a[1..], b[1..], c[1..]);
    }
  }

  /** The first byte in which two ids differ decides, and a proper prefix comes first. */
  lemma {:induction false} BeforeIff(a: Id, b: Id)
    ensures Before(a, b) <==>
            exists i: nat :: i <= |a| && i < |b| && a[..i] == b[..i] && (i == |a| || a[i] < b[i])
  {
    if a == [] {
      if b != [] {
        assert a[..0] == b[..0];
      }
    } else if b != [] {
      if a[0] == b[0] {
        BeforeIff(a[1..], b[1..]);
        if Before(a[1..], b[1..]) {
          var i: nat :| i <= |a[1..]| && i < |b[1..]| && a[1..][..i] == b[1..][..i] &&
                        (i == |a[1..]| || a[1..][i] < b[1..][i]);
          assert a[..i + 1] == [a[0]] + a[1..][..i] && b[..i + 1] == [b[0]] + b[1..][..i];
        }
        if i: nat :| i <= |a| && i < |b| && a[..i] == b[..i] && (i == |a| || a[i] < b[i]) {
          assert a[1..][..i - 1] == a[..i][1..] && b[1..][..i - 1] == b[..i][1..];
        }
      } else {
        assert a[..0] == b[..0];
        forall i: nat | 0 < i <= |a| && i < |b|
          ensures a[..i] != b[..i]
        {
          assert a[..i][0] == a[0] && b[..i][0] == b[0];
        }
      }
    }
  }

  /** Sorted by id, without duplicates. */
  predicate Sorted(entries: seq<Entry>) {
    forall i, j :: 0 <= i < j < |entries| ==> Before(entries[i].paymentId, entries[j].paymentId)
  }

  /** Every entry is stored under its own id. */
  predicate Keyed(m: Entries) {
    forall id :: id in m ==> m[id].paymentId == id
  }

  /** `entries` are what `write_back` stores for `m`. */
  ghost predicate IsFileOf(entries: seq<Entry>, m: Entries) {
    Sorted(entries) && forall e :: e in entries <==> e.paymentId in m && m[e.paymentId] == e
  }

  /** Whatever list the file holds, every loaded entry is stored under its own id. */
  lemma {:induction false} LoadedKeyed(entries: seq<Entry>)
    ensures Keyed(ToMap(entries))
  {
    if entries != [] {
      LoadedKeyed(entries[..|entries| - 1]);
    }
  }

  /** Entry `i` has this id, and no later one does. */
  predicate IsLast(entries: seq<Entry>, id: Id, i: nat) {
    i < |entries| && entries[i].paymentId == id && forall j :: i < j < |entries| ==> entries[j].paymentId != id
  }

  /** Whatever the list, an id is loaded iff some entry has it, and the last such entry wins. */
  lemma {:induction false} LastEntryWins(entries: seq<Entry>, id: Id)
    ensures id in ToMap(entries) <==> exists i :: 0 <= i < |entries| && entries[i].paymentId == id
    ensures forall i: nat :: IsLast(entries, id, i) ==> id in ToMap(entries) && ToMap(entries)[id] == entries[i]
  {
    if entries != [] {
      var front := entries[..|entries| - 1];
      LastEntryWins(front, id);
      forall i: nat | IsLast(entries, id, i)
        ensures id in ToMap(entries) && ToMap(entries)[id] == entries[i]
      {
        if i < |front| {
          assert IsLast(front, id, i);
        }
      }
      assert forall i :: 0 <= i < |front| ==> front[i] == entries[i];
    }
  }

  lemma {:induction false} ToMapLookup(entries: seq<Entry>, id: Id)
    requires Sorted(entries)
    ensures id in ToMap(entries) <==> exists e :: e in entries && e.paymentId == id
    ensures forall e :: e in entries && e.paymentId == id ==> id in ToMap(entries) && ToMap(entries)[id] == e
  {
    LastEntryWins(entries, id);
    forall i | 0 <= i < |entries| && entries[i].paymentId == id
      ensures IsLast(entries, id, i)
    {
      forall j | i < j < |entries|
        ensures entries[j].paymentId != id
      {
        BeforeTotal(entries[i].paymentId, entries[j].paymentId);
      }
    }
  }

  /** Round trip: loading what was written back gives the same map. */
  lemma {:induction false} LoadWriteBack(entries: seq<Entry>, m: Entries)
    requires IsFileOf(entries, m) && Keyed(m)
    ensures Load(Json(entries)) == Ok(m)
  {
    forall id
      ensures id in ToMap(entries) <==> id in m
      ensures id in m ==> ToMap(entries)[id] == m[id]
    {
      ToMapLookup(entries, id);
      if id in m {
        assert m[id] in entries;
      }
    }
    assert ToMap(entries) == m;
  }

  // ---------------------------------------------------------------- the file operations

  /** Where `e` belongs in a sorted list. */
  method InsertSorted(entries: seq<Entry>, e: Entry) returns (r: seq<Entry>)
    requires Sorted(entries) && forall x :: x in entries ==> x.paymentId != e.paymentId
    ensures Sorted(r) && forall x :: x in r <==> x in entries || x == e
  {
    var i := 0;
    while i < |entries| && Before(entries[i].paymentId, e.paymentId)
      invariant 0 <= i <= |entries|
      invariant forall j :: 0 <= j < i ==> Before(entries[j].paymentId, e.paymentId)
    {
      i := i + 1;
    }
    r := entries[..i] + [e] + entries[i..];
    assert entries == entries[..i] + entries[i..];
    forall j | i <= j < |entries|
      ensures Before(e.paymentId, entries[j].paymentId)
    {
      assert entries[i] in entries;
      BeforeTotal(entries[i].paymentId, e.paymentId);
      if i < j {
        BeforeTransitive(e.paymentId, entries[i].paymentId, entries[j].paymentId);
      }
    }
  }

  class CacheFile {
    var text: Text

    constructor (text: Text)
      ensures this.text == text
    {
      this.text := text;
    }

    /** `read_locked` and the lookup in the resulting map. */
    method Lookup(id: Id) returns (res: Result<Option<string>>)
      ensures (res.Err? <==> text.Garbage?) && (text.Missing? || text.Blank? ==> res == Ok(None))
      ensures res == match Load(text) case Err => Err
                                      case Ok(m) => Ok(if id in m then Some(m[id].txHash) else None)
    {
      var loaded := ReadEntries();
      if loaded.Err? {
        return Err;
      }
      var m := loaded.value;
      return Ok(if id in m then Some(m[id].txHash) else None);
    }

    /** The parsing half of both operations. */
    method ReadEntries() returns (res: Result<Entries>)
      ensures res == Load(text)
    {
      match text {
        case Missing => return Ok(map[]);
        case Blank => return Ok(map[]);
        case Garbage => return Err;
        case Json(entries) =>
          var m: Entries := map[];
          for i := 0 to |entries|
            invariant m == ToMap(entries[..i])
          {
            assert entries[..i + 1][..i] == entries[..i];
            m := m[entries[i].paymentId := entries[i]];
          }
          assert entries[..|entries|] == entries;
          return Ok(m);
      }
    }

    /** `insert`: read, add or replace one entry, write everything back sorted.  A file that does not parse is left
        as it is. */
    method Insert(e: Entry) returns (res: Result<()>)
      modifies this
      ensures (res.Ok? <==> old(Load(text)).Ok?) && (res.Err? <==> old(text).Garbage?)
      ensures res.Err? ==> text == old(text)
      ensures res.Ok? ==> Load(text) == Ok(old(Load(text)).value[e.paymentId := e]) && text.Json? && Sorted(text.entries)
    {
      var loaded := ReadEntries();
      if loaded.Err? {
        return Err;
      }
      if text.Json? {
        LoadedKeyed(text.entries);
      }
      var m := loaded.value[e.paymentId := e];
      var entries := WriteBack(m);
      LoadWriteBack(entries, m);
      text := Json(entries);
      return Ok(());
    }
  }

  /** `write_back`: the values of the map, sorted by id. */
  method WriteBack(m: Entries) returns (entries: seq<Entry>)
    requires Keyed(m)
    ensures IsFileOf(entries, m)
  {
    entries := [];
    var todo := m.Keys;
    while todo != {}
      invariant todo <= m.Keys && Sorted(entries)
      invariant forall e :: e in entries <==> e.paymentId in m && e.paymentId !in todo && m[e.paymentId] == e
      decreases |todo|
    {
      var id :| id in todo;
      entries := InsertSorted(entries, m[id]);
      todo := todo - {id};
    }
  }
}
