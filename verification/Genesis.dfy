/** The genesis allocation of the smoke-test chain and its USDC grant. */
module Genesis {
  import opened Wrappers
  import opened Division

  type Address = nat
  type Storage = map<string, string>

  // ---------------------------------------------------------------- storage words as text

  const HEX: string := "0123456789abcdef"
  const WORD_MAX: nat := 0xFFFF_FFFF_FFFF_FFFF_FFFF_FFFF_FFFF_FFFF_FFFF_FFFF_FFFF_FFFF_FFFF_FFFF_FFFF_FFFF

  /** The value of one hexadecimal digit of either case. */
  function DigitValue(c: char): Option<nat> {
    if '0' <= c <= '9' then Some(c as nat - '0' as nat)
    else if 'a' <= c <= 'f' then Some(c as nat - 'a' as nat + 10)
    else if 'A' <= c <= 'F' then Some(c as nat - 'A' as nat + 10)
    else None
  }

  function Digits(v: nat, n: nat): string {
    if n == 0 then "" else Digits(v / 16, n - 1) + [HEX[v % 16]]
  }

  /** `u256_hex`, `b256_hex` and `slot_index_hex`: 0x and 64 lower-case digits. */
  function WordHex(v: nat): string {
    "0x" + Digits(v, 64)
  }

  /** `from_str_radix(…, 16)` without the bound. */
  function ParseHex(s: string): Option<nat> {
    if s == "" then
      Some(0)
    else
      var front, last := ParseHex(s[..|s| - 1]), DigitValue(s[|s| - 1]);
      if front.Some? && last.Some? then Some(front.value * 16 + last.value) else None
  }

  /** `trim_start_matches("0x")`: every leading 0x goes. */
  function Trim0x(s: string): string {
    if |s| >= 2 && s[0] == '0' && s[1] == 'x' then Trim0x(s[2..]) else s
  }

  /** `read_slot_u256`: absent, malformed and oversized values all read as zero. */
  function ReadSlot(storage: Storage, key: string): (v: nat)
    ensures v <= WORD_MAX
  {
    if key !in storage then
      0
    else
      match ParseHex(Trim0x(storage[key]))
      case None => 0
      case Some(v) => if v <= WORD_MAX then v else 0
  }

  function Pow16(n: nat): (p: nat)
    ensures p > 0
  {
    if n == 0 then 1 else 16 * Pow16(n - 1)
  }

  lemma {:induction false} DigitRoundTrip(d: nat)
    requires d < 16
    ensures DigitValue(HEX[d]) == Some(d) && HEX[d] != 'x'
  {
    DigitChar(d);
  }

  lemma {:induction false} DigitsRoundTrip(v: nat, n: nat)
    requires v < Pow16(n)
    ensures |Digits(v, n)| == n && 'x' !in Digits(v, n) && ParseHex(Digits(v, n)) == Some(v)
  {
    if n > 0 {
      DigitsRoundTrip(v / 16, n - 1);
      DigitRoundTrip(v % 16);
      assert Digits(v, n)[..n - 1] == Digits(v / 16, n - 1);
    }
  }

  lemma {:induction false} PowDoubles(m: nat, n: nat)
    ensures Pow16(m + n) == Pow16(m) * Pow16(n)
  {
    if m > 0 {
      PowDoubles(m - 1, n);
      var p, q := Pow16(m - 1), Pow16(n);
      assert 16 * (p * q) == (16 * p) * q;
    }
  }

  lemma {:induction false} PowSquare(n: nat, p: nat, q: nat)
    requires Pow16(n) == p && q == p * p
    ensures Pow16(n + n) == q
  {
    PowDoubles(n, n);
  }

  lemma {:induction false} WordBound()
    ensures Pow16(64) == WORD_MAX + 1
  {
    assert Pow16(4) == 0x1_0000;
    PowSquare(4, 0x1_0000, 0x1_0000_0000);
    PowSquare(8, 0x1_0000_0000, 0x1_0000_0000_0000_0000);
    PowSquare(16, 0x1_0000_0000_0000_0000, 0x1_0000_0000_0000_0000_0000_0000_0000_0000);
    PowSquare(32, 0x1_0000_0000_0000_0000_0000_0000_0000_0000, WORD_MAX + 1);
  }

  /** Reading back a written word gives the word, for every 256-bit value. */
  lemma {:induction false} ReadWritten(storage: Storage, key: string, v: nat)
    requires v <= WORD_MAX
    ensures ReadSlot(storage[key := WordHex(v)], key) == v
  {
    WordBound();
    DigitsRoundTrip(v, 64);
    var digits := Digits(v, 64);
    assert WordHex(v)[2..] == digits;
    assert digits[1] in digits;
    assert Trim0x(WordHex(v)) == digits;
  }

  /** Distinct slots have distinct keys. */
  lemma {:induction false} KeysDistinct(a: nat, b: nat)
    requires a <= WORD_MAX && b <= WORD_MAX
    ensures WordHex(a) == WordHex(b) <==> a == b
  {
    WordBound();
    DigitsRoundTrip(a, 64);
    DigitsRoundTrip(b, 64);
    assert WordHex(a)[2..] == Digits(a, 64) && WordHex(b)[2..] == Digits(b, 64);
  }

  // ---------------------------------------------------------------- the text of a word

  /** `c` is the lower-case hexadecimal digit `d`: '0' to '9' are characters 48 to 57, 'a' to 'f' are 97 to 102. */
  predicate LowerDigit(c: char, d: nat) {
    c as nat == if d < 10 then 48 + d else 87 + d
  }

  /** The same in either case: 'A' to 'F' are 65 to 70. */
  predicate EitherDigit(c: char, d: nat) {
    LowerDigit(c, d) || (d >= 10 && c as nat == 55 + d)
  }

  /** `t` is 0x and 64 lower-case digits of `v`, most significant first. */
  ghost predicate SlotText(t: string, v: nat) {
    && |t| == 66 && t[0] == '0' && t[1] == 'x'
    && forall i :: 2 <= i < 66 ==> LowerDigit(t[i], (v / Pow16(65 - i)) % 16)
  }

  /** The same with digits of either case. */
  ghost predicate WordText(t: string, v: nat) {
    && |t| == 66 && t[0] == '0' && t[1] == 'x'
    && forall i :: 2 <= i < 66 ==> EitherDigit(t[i], (v / Pow16(65 - i)) % 16)
  }

  lemma {:induction false} DigitsLower(v: nat, n: nat)
    ensures |Digits(v, n)| == n
    ensures forall i :: 0 <= i < n ==> LowerDigit(Digits(v, n)[i], (v / Pow16(n - 1 - i)) % 16)
  {
    if n > 0 {
      DigitsLower(v / 16, n - 1);
      DigitChar(v % 16);
      forall i | 0 <= i < n
        ensures LowerDigit(Digits(v, n)[i], (v / Pow16(n - 1 - i)) % 16)
      {
        if i < n - 1 {
          DivideTwice(v, 16, Pow16(n - 2 - i), Pow16(n - 1 - i));
        }
      }
    }
  }

  lemma {:induction false} DigitChar(d: nat)
    requires d < 16
    ensures LowerDigit(HEX[d], d)
  {
    assert HEX[0] == '0' && HEX[1] == '1' && HEX[2] == '2' && HEX[3] == '3' && HEX[4] == '4' && HEX[5] == '5';
    assert HEX[6] == '6' && HEX[7] == '7' && HEX[8] == '8' && HEX[9] == '9' && HEX[10] == 'a' && HEX[11] == 'b';
    assert HEX[12] == 'c' && HEX[13] == 'd' && HEX[14] == 'e' && HEX[15] == 'f';
  }

  /** Which text is written: 0x and 64 digits, lower case, and no other text is that of the word. */
  lemma {:induction false} WordHexText(v: nat, t: string)
    ensures t == WordHex(v) <==> SlotText(t, v)
  {
    DigitsLower(v, 64);
    TextOfDigits(Digits(v, 64), WordHex(v), v);
    if SlotText(t, v) {
      SameText(t, WordHex(v), v);
    }
  }

  lemma {:induction false} TextOfDigits(digits: string, t: string, v: nat)
    requires |digits| == 64 && t == "0x" + digits
    requires forall i :: 0 <= i < 64 ==> LowerDigit(digits[i], (v / Pow16(63 - i)) % 16)
    ensures SlotText(t, v)
  {
    forall i | 2 <= i < 66
      ensures LowerDigit(t[i], (v / Pow16(65 - i)) % 16)
    {
      assert t[i] == digits[i - 2];
    }
  }

  lemma {:induction false} SameText(t: string, u: string, v: nat)
    requires SlotText(t, v) && SlotText(u, v)
    ensures t == u
  {
    forall i | 0 <= i < 66
      ensures t[i] == u[i]
    {
      if i >= 2 {
        assert LowerDigit(t[i], (v / Pow16(65 - i)) % 16) && LowerDigit(u[i], (v / Pow16(65 - i)) % 16);
      }
    }
  }

  lemma {:induction false} DigitReads(c: char, d: nat)
    requires EitherDigit(c, d) && d < 16
    ensures DigitValue(c) == Some(d)
  {
  }

  lemma {:induction false} ParseDigits(s: string, v: nat, n: nat)
    requires |s| == n && v < Pow16(n)
    requires forall i :: 0 <= i < n ==> EitherDigit(s[i], (v / Pow16(n - 1 - i)) % 16)
    ensures ParseHex(s) == Some(v)
  {
    if n > 0 {
      var front := s[..n - 1];
      forall i | 0 <= i < n - 1
        ensures EitherDigit(front[i], ((v / 16) / Pow16(n - 2 - i)) % 16)
      {
        DivideTwice(v, 16, Pow16(n - 2 - i), Pow16(n - 1 - i));
        assert front[i] == s[i];
      }
      ParseDigits(front, v / 16, n - 1);
      assert EitherDigit(s[n - 1], (v / Pow16(0)) % 16);
      DigitReads(s[n - 1], v % 16);
      var q, r := Quotient(v, 16);
    }
  }

  /** A stored word reads as its value, in either case. */
  lemma {:induction false} ReadText(storage: Storage, key: string, v: nat)
    requires key in storage && WordText(storage[key], v) && v <= WORD_MAX
    ensures ReadSlot(storage, key) == v
  {
    var t := storage[key];
    var digits := t[2..];
    WordBound();
    forall i | 0 <= i < 64
      ensures EitherDigit(digits[i], (v / Pow16(63 - i)) % 16)
    {
      assert digits[i] == t[i + 2];
    }
    ParseDigits(digits, v, 64);
    assert EitherDigit(t[3], (v / Pow16(62)) % 16);
    assert Trim0x(t) == digits;
  }

  /** Text with any character that is neither a hexadecimal digit nor an x reads as zero. */
  lemma {:induction false} MalformedReadsZero(storage: Storage, key: string, c: char)
    requires key in storage && c in storage[key] && c != 'x'
    requires !('0' <= c <= '9') && !('a' <= c <= 'f') && !('A' <= c <= 'F')
    ensures ReadSlot(storage, key) == 0
  {
    TrimKeeps(storage[key], c);
    ParseFails(Trim0x(storage[key]), c);
  }

  lemma {:induction false} TrimKeeps(s: string, c: char)
    requires c in s && c != '0' && c != 'x'
    ensures c in Trim0x(s)
  {
    if |s| >= 2 && s[0] == '0' && s[1] == 'x' {
      TrimKeeps(s[2..], c);
    }
  }

  lemma {:induction false} ParseFails(s: string, c: char)
    requires c in s && DigitValue(c).None?
    ensures ParseHex(s).None?
  {
    if s[|s| - 1] != c {
      ParseFails(s[..|s| - 1], c);
    }
  }

  // ---------------------------------------------------------------- the grant

  function SaturatingAdd(a: nat, b: nat): nat {
    if a + b <= WORD_MAX then a + b else WORD_MAX
  }

  /** The USDC patch: one balance slot and the supply slot (11 in FiatTokenV2) each gain the grant. */
  function Grant(storage: Storage, slot: nat, supply: nat, grant: nat): Storage {
    var paid := storage[WordHex(slot) := WordHex(SaturatingAdd(ReadSlot(storage, WordHex(slot)), grant))];
    var supplyKey := WordHex(supply);
    paid[supplyKey := WordHex(SaturatingAdd(ReadSlot(paid, supplyKey), grant))]
  }

  function Balance(storage: Storage, slot: nat): nat {
    ReadSlot(storage, WordHex(slot))
  }

  /** The grant in numbers: its two slots gain it, saturating; no other key changes. */
  lemma {:induction false} GrantEffect(storage: Storage, slot: nat, supply: nat, grant: nat)
    requires slot <= WORD_MAX && supply <= WORD_MAX && slot != supply
    ensures var r := Grant(storage, slot, supply, grant);
            && Balance(r, slot) == SaturatingAdd(Balance(storage, slot), grant)
            && Balance(r, supply) == SaturatingAdd(Balance(storage, supply), grant)
            && (forall key :: key != WordHex(slot) && key != WordHex(supply) ==>
                  (key in r <==> key in storage) && (key in r ==> r[key] == storage[key]))
  {
    var key, supplyKey := WordHex(slot), WordHex(supply);
    KeysDistinct(slot, supply);
    var newBalance := SaturatingAdd(ReadSlot(storage, key), grant);
    var paid := storage[key := WordHex(newBalance)];
    ReadWritten(storage, key, newBalance);
    ReadWritten(paid, supplyKey, SaturatingAdd(ReadSlot(paid, supplyKey), grant));
    assert ReadSlot(paid, supplyKey) == ReadSlot(storage, supplyKey);
  }

  /** The values at some slots, summed. */
  function Sum(read: nat -> nat, slots: seq<nat>): nat {
    if slots == [] then 0 else Sum(read, slots[..|slots| - 1]) + read(slots[|slots| - 1])
  }

  lemma {:induction false} SumAdds(read: nat -> nat, a: seq<nat>, b: seq<nat>)
    ensures Sum(read, []) == 0 && (forall slot: nat :: Sum(read, [slot]) == read(slot))
    ensures Sum(read, a + b) == Sum(read, a) + Sum(read, b)
    decreases |b|
  {
    assert forall slot: nat :: [slot][..0] == [] && [slot][0] == slot;
    if b == [] {
      assert a + b == a;
    } else {
      SumAdds(read, a, b[..|b| - 1]);
      assert (a + b)[..|a + b| - 1] == a + b[..|b| - 1];
    }
  }

  function Total(storage: Storage, slots: seq<nat>): nat {
    Sum(slot => Balance(storage, slot), slots)
  }

  /** Slots of distinct holders: within range, pairwise different, none of them the supply slot. */
  predicate HolderSlots(slots: seq<nat>, supply: nat) {
    && (forall i :: 0 <= i < |slots| ==> slots[i] <= WORD_MAX && slots[i] != supply)
    && (forall i, j :: 0 <= i < j < |slots| ==> slots[i] != slots[j])
  }

  /** `r` is `storage` after a grant, read as numbers. */
  ghost predicate Granted(storage: Storage, r: Storage, slot: nat, supply: nat, grant: nat) {
    && Balance(r, slot) == SaturatingAdd(Balance(storage, slot), grant)
    && Balance(r, supply) == SaturatingAdd(Balance(storage, supply), grant)
    && forall other: nat :: other <= WORD_MAX && other != slot && other != supply ==>
         Balance(r, other) == Balance(storage, other)
  }

  lemma {:induction false} OtherBalance(storage: Storage, r: Storage, other: nat)
    requires (WordHex(other) in r <==> WordHex(other) in storage) &&
             (WordHex(other) in r ==> r[WordHex(other)] == storage[WordHex(other)])
    ensures Balance(r, other) == Balance(storage, other)
  {
  }

  lemma {:induction false} GrantLeaves(storage: Storage, slot: nat, supply: nat, grant: nat, other: nat)
    requires slot <= WORD_MAX && supply <= WORD_MAX && slot != supply
    requires other <= WORD_MAX && other != slot && other != supply
    ensures Balance(Grant(storage, slot, supply, grant), other) == Balance(storage, other)
  {
    KeysDistinct(other, slot);
    KeysDistinct(other, supply);
    GrantEffect(storage, slot, supply, grant);
    OtherBalance(storage, Grant(storage, slot, supply, grant), other);
  }

  lemma {:induction false} GrantGrants(storage: Storage, slot: nat, supply: nat, grant: nat)
    requires slot <= WORD_MAX && supply <= WORD_MAX && slot != supply
    ensures Granted(storage, Grant(storage, slot, supply, grant), slot, supply, grant)
  {
    GrantEffect(storage, slot, supply, grant);
    var r := Grant(storage, slot, supply, grant);
    forall other: nat | other <= WORD_MAX && other != slot && other != supply
      ensures Balance(r, other) == Balance(storage, other)
    {
      GrantLeaves(storage, slot, supply, grant, other);
    }
  }

  /** A sum over distinct slots moves by what its one changed slot moves. */
  lemma {:induction false} SumMoves(before: nat -> nat, after: nat -> nat, slots: seq<nat>, slot: nat)
    requires forall i, j :: 0 <= i < j < |slots| ==> slots[i] != slots[j]
    requires forall other :: other in slots && other != slot ==> after(other) == before(other)
    ensures Sum(after, slots) - Sum(before, slots) == if slot in slots then after(slot) - before(slot) else 0
  {
    if slots != [] {
      var front, last := slots[..|slots| - 1], slots[|slots| - 1];
      SumMoves(before, after, front, slot);
      assert slots == front + [last];
      assert last !in front;
    }
  }

  lemma {:induction false} TotalMoves(storage: Storage, r: Storage, slots: seq<nat>, slot: nat, supply: nat, grant: nat)
    requires HolderSlots(slots, supply) && Granted(storage, r, slot, supply, grant) && slot in slots
    ensures Total(r, slots) - Total(storage, slots) == SaturatingAdd(Balance(storage, slot), grant) - Balance(storage, slot)
  {
    SumMoves(s => Balance(storage, s), s => Balance(r, s), slots, slot);
  }

  /** The grant conserves supply minus balances, over any set of holders with the grantee in it, if and only if
      neither addition saturates or the grantee already held the whole supply. */
  lemma {:induction false} GrantConserves(storage: Storage, slots: seq<nat>, slot: nat, supply: nat, grant: nat)
    requires HolderSlots(slots, supply) && slot in slots && supply <= WORD_MAX
    ensures var r := Grant(storage, slot, supply, grant);
            var minted, held := Balance(storage, supply), Balance(storage, slot);
            Balance(r, supply) - Total(r, slots) == minted - Total(storage, slots) <==>
            (minted + grant <= WORD_MAX && held + grant <= WORD_MAX) || minted == held
  {
    GrantGrants(storage, slot, supply, grant);
    TotalMoves(storage, Grant(storage, slot, supply, grant), slots, slot, supply, grant);
  }

  // ---------------------------------------------------------------- the allocation

  datatype SnapshotAccount = SnapshotAccount(nonce: nat, balance: string, code: string, storage: Storage)
  datatype AllocEntry = AllocEntry(balance: string, nonce: Option<nat>, code: Option<string>, storage: Storage)
  datatype Seed = Seed(slots: seq<(string, string)>, implementation: Address, code: string)

  /** The inputs of one build; addresses are compared without regard to case, so they are plain numbers here. */
  datatype Inputs = Inputs(snapshot: map<Address, SnapshotAccount>, ingested: seq<Address>, harness: seq<Address>,
                           factory: Address, factoryCode: string, usdc: Address, seed: Option<Seed>,
                           holderSlot: nat, supplySlot: nat, grant: nat)

  /** `anvil_to_alloc`: empty code, balance and nonce get their defaults. */
  function Ingested(a: SnapshotAccount): AllocEntry {
    AllocEntry(if a.balance == "" then "0x0" else a.balance, if a.nonce == 0 then None else Some(a.nonce),
               if a.code == "" || a.code == "0x" then None else Some(a.code), a.storage)
  }

  const HARNESS_ACCOUNT: AllocEntry := AllocEntry("0x3635c9adc5dea00000", None, None, map[])

  function LowerChar(c: char): char {
    if 'A' <= c <= 'Z' then (c as int - 'A' as int + 'a' as int) as char else c
  }

  function Lower(s: string): string {
    seq(|s|, i requires 0 <= i < |s| => LowerChar(s[i]))
  }

  /** The seed's slots laid over the storage, keys lower-cased. */
  function Overlay(storage: Storage, slots: seq<(string, string)>): Storage {
    if slots == [] then
      storage
    else
      Overlay(storage, slots[..|slots| - 1])[Lower(slots[|slots| - 1].0) := slots[|slots| - 1].1]
  }

  /** The proxy's implementation, if the seed names one. */
  function Implementation(x: Inputs, a: Address): Option<AllocEntry> {
    if x.seed.Some? && a == x.seed.value.implementation then Some(AllocEntry("0x0", None, Some(x.seed.value.code), map[]))
    else None
  }

  /** What account `a` is before the USDC patches, by precedence: ingested, harness, factory, implementation. */
  function Source(x: Inputs, a: Address): Option<AllocEntry> {
    if a in x.ingested && a in x.snapshot then Some(Ingested(x.snapshot[a]))
    else if a in x.harness then Some(HARNESS_ACCOUNT)
    else if a == x.factory then Some(AllocEntry("0x0", Some(1), Some(x.factoryCode), map[]))
    else Implementation(x, a)
  }

  /** The storage USDC ends up with. */
  function UsdcStorage(x: Inputs, storage: Storage): Storage {
    Grant(if x.seed.Some? then Overlay(storage, x.seed.value.slots) else storage, x.holderSlot, x.supplySlot, x.grant)
  }

  /** The account at `a` once the first `n` ingested and `m` harness accounts, and perhaps the factory, are in. */
  function Account(x: Inputs, n: nat, m: nat, factory: bool, a: Address): Option<AllocEntry>
    requires n <= |x.ingested| && m <= |x.harness|
  {
    if a in x.ingested[..n] && a in x.snapshot then Some(Ingested(x.snapshot[a]))
    else if a in x.harness[..m] then Some(HARNESS_ACCOUNT)
    else if factory && a == x.factory then Some(AllocEntry("0x0", Some(1), Some(x.factoryCode), map[]))
    else None
  }

  ghost predicate Collected(x: Inputs, out: map<Address, AllocEntry>, n: nat, m: nat, factory: bool)
    requires n <= |x.ingested| && m <= |x.harness|
  {
    forall a ::
      (a in out <==> Account(x, n, m, factory, a).Some?) && (a in out ==> Some(out[a]) == Account(x, n, m, factory, a))
  }

  /** The ingested accounts, then the harness accounts and the factory where nothing is there yet. */
  method CollectAccounts(x: Inputs) returns (res: Result<map<Address, AllocEntry>>)
    ensures res.Err? <==> exists a :: a in x.ingested && a !in x.snapshot
    ensures res.Ok? ==> Collected(x, res.value, |x.ingested|, |x.harness|, true)
  {
    var out: map<Address, AllocEntry> := map[];
    var n := 0;
    while n != |x.ingested|
      invariant 0 <= n <= |x.ingested| && Collected(x, out, n, 0, false)
      invariant forall a :: a in x.ingested[..n] ==> a in x.snapshot
    {
      var a := x.ingested[n];
      assert a in x.ingested;
      if a !in x.snapshot {
        return Err;
      }
      assert x.ingested[..n + 1] == x.ingested[..n] + [a];
      out := out[a := Ingested(x.snapshot[a])];
      n := n + 1;
    }
    assert x.ingested[..n] == x.ingested;
    var m := 0;
    while m != |x.harness|
      invariant 0 <= m <= |x.harness| && Collected(x, out, n, m, false)
    {
      var a := x.harness[m];
      assert x.harness[..m + 1] == x.harness[..m] + [a];
      if a !in out {
        out := out[a := HARNESS_ACCOUNT];
      }
      m := m + 1;
    }
    if x.factory !in out {
      out := out[x.factory := AllocEntry("0x0", Some(1), Some(x.factoryCode), map[])];
    }
    return Ok(out);
  }

  method OverlaySeed(storage: Storage, slots: seq<(string, string)>) returns (r: Storage)
    ensures r == Overlay(storage, slots)
  {
    var i := 0;
    r := storage;
    while i != |slots|
      invariant 0 <= i <= |slots| && r == Overlay(storage, slots[..i])
    {
      assert slots[..i + 1][..i] == slots[..i];
      r := r[Lower(slots[i].0) := slots[i].1];
      i := i + 1;
    }
    assert slots[..i] == slots;
  }

  lemma {:induction false} CollectedSources(x: Inputs, out: map<Address, AllocEntry>, a: Address)
    requires Collected(x, out, |x.ingested|, |x.harness|, true) && forall b :: b in x.ingested ==> b in x.snapshot
    ensures a in out <==> a in x.ingested || a in x.harness || a == x.factory
    ensures a in out ==> Source(x, a) == Some(out[a])
    ensures a !in out ==> Source(x, a) == Implementation(x, a)
  {
    assert x.ingested[..|x.ingested|] == x.ingested && x.harness[..|x.harness|] == x.harness;
    assert a in out <==> Account(x, |x.ingested|, |x.harness|, true, a).Some?;
  }

  /** Account `a` comes out as its source, with only USDC's storage patched. */
  ghost predicate BuiltAt(x: Inputs, out: map<Address, AllocEntry>, a: Address) {
    var source := Source(x, a);
    && (a in out <==> source.Some?)
    && (a in out ==> out[a] == if a == x.usdc then source.value.(storage := UsdcStorage(x, source.value.storage))
                               else source.value)
  }

  /** `out` are the collected accounts with the implementation added and USDC's storage patched. */
  ghost predicate Patched(x: Inputs, first: map<Address, AllocEntry>, out: map<Address, AllocEntry>, a: Address) {
    && (a in out <==> a in first || Implementation(x, a).Some?)
    && (a in first ==> out[a] == if a == x.usdc then first[a].(storage := UsdcStorage(x, first[a].storage)) else first[a])
    && (a in out && a !in first ==> out[a] == Implementation(x, a).value)
  }

  /** The seed's slots, then the grant, on USDC's storage. */
  method PatchStorage(x: Inputs, storage: Storage) returns (r: Storage)
    ensures r == UsdcStorage(x, storage)
  {
    r := storage;
    if x.seed.Some? {
      r := OverlaySeed(storage, x.seed.value.slots);
    }
    r := Grant(r, x.holderSlot, x.supplySlot, x.grant);
  }

  /** The seed and the grant. */
  method PatchUsdc(x: Inputs, first: map<Address, AllocEntry>) returns (out: map<Address, AllocEntry>)
    requires x.usdc in first
    ensures forall a :: Patched(x, first, out, a)
  {
    out := first;
    if x.seed.Some? && x.seed.value.implementation !in out {
      out := out[x.seed.value.implementation := AllocEntry("0x0", None, Some(x.seed.value.code), map[])];
    }
    var storage := PatchStorage(x, out[x.usdc].storage);
    out := out[x.usdc := out[x.usdc].(storage := storage)];
  }

  /** `build_alloc_from_anvil`: fails exactly if an ingested address is missing from the snapshot or USDC is not
      among the accounts. */
  method BuildAlloc(x: Inputs) returns (res: Result<map<Address, AllocEntry>>)
    ensures res.Err? <==> (exists a :: a in x.ingested && a !in x.snapshot) ||
                          !(x.usdc in x.ingested || x.usdc in x.harness || x.usdc == x.factory)
    ensures res.Ok? ==> x.usdc in res.value && forall a :: BuiltAt(x, res.value, a)
    ensures res.Ok? ==> HarnessDefaults(x, res.value)
  {
    var first :- CollectAccounts(x);
    CollectedSources(x, first, x.usdc);
    if x.usdc !in first {
      return Err;
    }
    var out := PatchUsdc(x, first);
    assert Patched(x, first, out, x.usdc);
    forall a
      ensures BuiltAt(x, out, a)
    {
      SourcesBuilt(x, first, out, a);
    }
    HarnessGetsDefault(x, out);
    return Ok(out);
  }

  lemma {:induction false} SourcesBuilt(x: Inputs, first: map<Address, AllocEntry>, out: map<Address, AllocEntry>,
                                        a: Address)
    requires Collected(x, first, |x.ingested|, |x.harness|, true) && forall b :: b in x.ingested ==> b in x.snapshot
    requires Patched(x, first, out, a) && x.usdc in first
    ensures BuiltAt(x, out, a)
  {
    CollectedSources(x, first, a);
  }

  /** A harness address other than USDC gets the default entry exactly if it is not ingested; otherwise the ingested
      entry stays, balance and nonce included. */
  ghost predicate HarnessDefaults(x: Inputs, out: map<Address, AllocEntry>)
    requires forall a :: a in x.ingested ==> a in x.snapshot
  {
    forall a :: a in x.harness && a != x.usdc ==>
      a in out && out[a] == if a in x.ingested then Ingested(x.snapshot[a]) else HARNESS_ACCOUNT
  }

  lemma {:induction false} HarnessGetsDefault(x: Inputs, out: map<Address, AllocEntry>)
    requires forall a :: a in x.ingested ==> a in x.snapshot
    requires forall a :: BuiltAt(x, out, a)
    ensures HarnessDefaults(x, out)
  {
    forall a | a in x.harness && a != x.usdc
      ensures a in out && out[a] == if a in x.ingested then Ingested(x.snapshot[a]) else HARNESS_ACCOUNT
    {
      assert BuiltAt(x, out, a);
    }
  }

  /** Of the seed's slots that name the same key, the last one decides. */
  lemma {:induction false} OverlayLast(storage: Storage, slots: seq<(string, string)>, i: nat, key: string)
    requires i < |slots| && Lower(slots[i].0) == key && forall j :: i < j < |slots| ==> Lower(slots[j].0) != key
    ensures key in Overlay(storage, slots) && Overlay(storage, slots)[key] == slots[i].1
  {
    if i != |slots| - 1 {
      OverlayLast(storage, slots[..|slots| - 1], i, key);
    }
  }

  /** Storage keys outside the seed and the two granted slots are untouched. */
  lemma {:induction false} OtherSlotsUntouched(x: Inputs, storage: Storage, key: string)
    requires x.holderSlot <= WORD_MAX && x.supplySlot <= WORD_MAX && x.holderSlot != x.supplySlot
    requires key != WordHex(x.holderSlot) && key != WordHex(x.supplySlot)
    requires x.seed.Some? ==> forall i :: 0 <= i < |x.seed.value.slots| ==> Lower(x.seed.value.slots[i].0) != key
    ensures key in UsdcStorage(x, storage) <==> key in storage
    ensures key in storage ==> UsdcStorage(x, storage)[key] == storage[key]
  {
    if x.seed.Some? {
      OverlayFrame(storage, x.seed.value.slots, key);
      GrantEffect(Overlay(storage, x.seed.value.slots), x.holderSlot, x.supplySlot, x.grant);
    } else {
      GrantEffect(storage, x.holderSlot, x.supplySlot, x.grant);
    }
  }

  lemma {:induction false} OverlayFrame(storage: Storage, slots: seq<(string, string)>, key: string)
    requires forall i :: 0 <= i < |slots| ==> Lower(slots[i].0) != key
    ensures key in Overlay(storage, slots) <==> key in storage
    ensures key in storage ==> Overlay(storage, slots)[key] == storage[key]
  {
    if slots != [] {
      OverlayFrame(storage, slots[..|slots| - 1], key);
    }
  }

  // ---------------------------------------------------------------- from the inputs to the written alloc

  /** `Lower` on characters 65 to 90 adds 32; every other character stays. */
  lemma {:induction false} LowerText(s: string)
    ensures |Lower(s)| == |s|
    ensures forall i :: 0 <= i < |s| ==> Lower(s)[i] as nat == s[i] as nat + if 65 <= s[i] as nat <= 90 then 32 else 0
    ensures Lower(Lower(s)) == Lower(s)
  {
  }

  /** Every account of the alloc, field by field, USDC's storage aside. */
  lemma {:induction false} AccountColumns(x: Inputs, out: map<Address, AllocEntry>, a: Address)
    requires (forall b :: b in x.ingested ==> b in x.snapshot) && BuiltAt(x, out, a)
    ensures a in out <==> || a in x.ingested || a in x.harness || a == x.factory
                          || (x.seed.Some? && a == x.seed.value.implementation)
    ensures a in x.ingested ==>
              && out[a].balance == (if x.snapshot[a].balance == "" then "0x0" else x.snapshot[a].balance)
              && out[a].nonce == (if x.snapshot[a].nonce == 0 then None else Some(x.snapshot[a].nonce))
              && (out[a].code.None? <==> x.snapshot[a].code == "" || x.snapshot[a].code == "0x")
              && (out[a].code.Some? ==> out[a].code.value == x.snapshot[a].code)
              && (a != x.usdc ==> out[a].storage == x.snapshot[a].storage)
    ensures a !in x.ingested && a in x.harness ==>
              && out[a].balance == "0x3635c9adc5dea00000" && out[a].nonce == None && out[a].code == None
              && (a != x.usdc ==> out[a].storage == map[])
    ensures a !in x.ingested && a !in x.harness && a == x.factory ==>
              && out[a].balance == "0x0" && out[a].nonce == Some(1) && out[a].code == Some(x.factoryCode)
              && (a != x.usdc ==> out[a].storage == map[])
    ensures a in out && a !in x.ingested && a !in x.harness && a != x.factory ==>
              && out[a].balance == "0x0" && out[a].nonce == None && out[a].code == Some(x.seed.value.code)
              && (a != x.usdc ==> out[a].storage == map[])
  {
  }

  /** Slot `i` is the last of the seed whose key is `t`, without regard to case. */
  predicate LastNamed(slots: seq<(string, string)>, t: string, i: nat) {
    i < |slots| && Lower(slots[i].0) == t && forall j :: i < j < |slots| ==> Lower(slots[j].0) != t
  }

  /** What USDC's storage says under key `t` before the grant: the last seed slot that names it, else the ingested
      storage. */
  ghost predicate SaidBefore(x: Inputs, storage: Storage, t: string, text: Option<string>) {
    || (x.seed.Some? && exists i: nat :: LastNamed(x.seed.value.slots, t, i) && text == Some(x.seed.value.slots[i].1))
    || (&& (x.seed.Some? ==> forall i :: 0 <= i < |x.seed.value.slots| ==> Lower(x.seed.value.slots[i].0) != t)
        && text == if t in storage then Some(storage[t]) else None)
  }

  /** USDC's storage before the patches. */
  function UsdcBefore(x: Inputs): Storage {
    if x.usdc in x.ingested && x.usdc in x.snapshot then x.snapshot[x.usdc].storage else map[]
  }

  /** The storage the grant starts from. */
  function Seeded(x: Inputs, storage: Storage): Storage {
    if x.seed.Some? then Overlay(storage, x.seed.value.slots) else storage
  }

  lemma {:induction false} SeededText(x: Inputs, storage: Storage, t: string, text: Option<string>)
    requires SaidBefore(x, storage, t, text)
    ensures t in Seeded(x, storage) <==> text.Some?
    ensures text.Some? ==> Seeded(x, storage)[t] == text.value
  {
    if x.seed.Some? {
      var slots := x.seed.value.slots;
      if i: nat :| LastNamed(slots, t, i) && text == Some(slots[i].1) {
        OverlayLast(storage, slots, i, t);
      } else {
        OverlayFrame(storage, slots, t);
      }
    }
  }

  lemma {:induction false} GrantTexts(storage: Storage, slot: nat, supply: nat, grant: nat)
    requires slot <= WORD_MAX && supply <= WORD_MAX && slot != supply
    ensures var r := Grant(storage, slot, supply, grant);
            && WordHex(slot) in r && r[WordHex(slot)] == WordHex(SaturatingAdd(ReadSlot(storage, WordHex(slot)), grant))
            && WordHex(supply) in r
            && r[WordHex(supply)] == WordHex(SaturatingAdd(ReadSlot(storage, WordHex(supply)), grant))
  {
    KeysDistinct(slot, supply);
  }

  lemma {:induction false} SlotGranted(storage: Storage, holder: nat, supply: nat, grant: nat, slot: nat, t: string,
                                       n: nat)
    requires holder <= WORD_MAX && supply <= WORD_MAX && holder != supply
    requires (slot == holder || slot == supply) && t == WordHex(slot)
    requires if t in storage then WordText(storage[t], n) && n <= WORD_MAX else n == 0
    ensures var r := Grant(storage, holder, supply, grant); t in r && SlotText(r[t], SaturatingAdd(n, grant))
  {
    if t in storage {
      ReadText(storage, t, n);
    }
    GrantTexts(storage, holder, supply, grant);
    WordHexText(SaturatingAdd(n, grant), Grant(storage, holder, supply, grant)[t]);
  }

  lemma {:induction false} UsdcBuilt(x: Inputs, out: map<Address, AllocEntry>)
    requires x.usdc in out && BuiltAt(x, out, x.usdc)
    ensures out[x.usdc].storage ==
            Grant(Seeded(x, UsdcBefore(x)), x.holderSlot, x.supplySlot, x.grant)
  {
    SourceStorage(x);
    var storage := Source(x, x.usdc).value.storage;
    assert out[x.usdc].storage == UsdcStorage(x, storage);
  }

  lemma {:induction false} SourceStorage(x: Inputs)
    ensures Source(x, x.usdc).Some? ==> Source(x, x.usdc).value.storage == UsdcBefore(x)
  {
  }

  lemma {:induction false} GrantReads(x: Inputs, storage: Storage, r: Storage, slot: nat, t: string,
                                      text: Option<string>, n: nat)
    requires r == Grant(Seeded(x, storage), x.holderSlot, x.supplySlot, x.grant)
    requires x.holderSlot <= WORD_MAX && x.supplySlot <= WORD_MAX && x.holderSlot != x.supplySlot
    requires (slot == x.holderSlot || slot == x.supplySlot) && SlotText(t, slot)
    requires SaidBefore(x, storage, t, text)
    requires if text.Some? then WordText(text.value, n) && n <= WORD_MAX else n == 0
    ensures t in r && SlotText(r[t], SaturatingAdd(n, x.grant))
  {
    WordHexText(slot, t);
    SeededText(x, storage, t, text);
    SlotGranted(Seeded(x, storage), x.holderSlot, x.supplySlot, x.grant, slot, t, n);
  }

  /** End to end: in every alloc, under the text of the holder's slot and under that of the supply's, USDC's storage is
      the text of the word found there before plus the grant, capped at the largest word; no word counts as zero. */
  lemma {:induction false} GrantWritten(x: Inputs, out: map<Address, AllocEntry>, slot: nat, t: string,
                                        text: Option<string>, n: nat) returns (m: nat)
    requires x.usdc in out && BuiltAt(x, out, x.usdc)
    requires x.holderSlot <= WORD_MAX && x.supplySlot <= WORD_MAX && x.holderSlot != x.supplySlot
    requires (slot == x.holderSlot || slot == x.supplySlot) && SlotText(t, slot)
    requires SaidBefore(x, UsdcBefore(x), t, text)
    requires if text.Some? then WordText(text.value, n) && n <= WORD_MAX else n == 0
    ensures t in out[x.usdc].storage && SlotText(out[x.usdc].storage[t], m)
    ensures m == if n + x.grant < 0x1_0000_0000_0000_0000_0000_0000_0000_0000_0000_0000_0000_0000_0000_0000_0000_0000
                 then n + x.grant
                 else 0xFFFF_FFFF_FFFF_FFFF_FFFF_FFFF_FFFF_FFFF_FFFF_FFFF_FFFF_FFFF_FFFF_FFFF_FFFF_FFFF
  {
    UsdcBuilt(x, out);
    m := SaturatingAdd(n, x.grant);
    GrantReads(x, UsdcBefore(x), out[x.usdc].storage, slot, t, text, n);
  }

  lemma {:induction false} SlotTextLower(t: string, v: nat)
    requires SlotText(t, v)
    ensures Lower(t) == t
  {
    forall i | 0 <= i < 66
      ensures LowerChar(t[i]) == t[i]
    {
      if i >= 2 {
        assert LowerDigit(t[i], (v / Pow16(65 - i)) % 16);
      }
    }
  }

  lemma {:induction false} OverlayKeys(storage: Storage, slots: seq<(string, string)>, k: string)
    ensures k in storage ==> k in Overlay(storage, slots)
    ensures k in Overlay(storage, slots) && k !in storage ==> Lower(k) == k
  {
    if slots != [] {
      OverlayKeys(storage, slots[..|slots| - 1], k);
      LowerText(slots[|slots| - 1].0);
    }
  }

  lemma {:induction false} WrittenKey(x: Inputs, storage: Storage, k: string)
    ensures k in storage ==> k in UsdcStorage(x, storage)
    ensures k in UsdcStorage(x, storage) && k !in storage ==> Lower(k) == k
  {
    WordHexText(x.holderSlot, WordHex(x.holderSlot));
    WordHexText(x.supplySlot, WordHex(x.supplySlot));
    SlotTextLower(WordHex(x.holderSlot), x.holderSlot);
    SlotTextLower(WordHex(x.supplySlot), x.supplySlot);
    if x.seed.Some? {
      OverlayKeys(storage, x.seed.value.slots, k);
    }
  }

  /** `t` is the only key that reads `t` without regard to case. */
  ghost predicate OneSpelling(storage: Storage, t: string) {
    forall k :: k in storage && Lower(k) == t ==> k == t
  }

  /** And it is the only entry for that slot, unless the ingested storage already spelled the key another way. */
  lemma {:induction false} GrantSpelledOnce(x: Inputs, out: map<Address, AllocEntry>, t: string)
    requires x.usdc in out && BuiltAt(x, out, x.usdc)
    ensures OneSpelling(out[x.usdc].storage, t) <==> OneSpelling(UsdcBefore(x), t)
  {
    var storage := UsdcBefore(x);
    var built := out[x.usdc].storage;
    forall k
      ensures k in storage ==> k in built
      ensures k in built && k !in storage ==> Lower(k) == k
    {
      WrittenKey(x, storage, k);
    }
  }
}
