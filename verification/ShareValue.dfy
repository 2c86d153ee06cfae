/** Account values: each holder's shares priced at the vault's latest snapshot. */
module ShareValue {
  import opened Wrappers
  import opened Ledger
  import opened Tables

  /** `shares * total_assets / total_supply`, rounded down; no value while there is no supply. */
  function UsdcValue(shares: nat, assets: nat, supply: nat): Option<nat> {
    if supply == 0 then None else Some(shares * assets / supply)
  }

  // ---------------------------------------------------------------- the query

  predicate IsSnapshot(db: Db, cid: nat, a: Address, k: Key) {
    k in db && k.SnapshotKey? && k.cid == cid && k.contract == a && db[k].cols.SnapshotCols?
  }

  /** `ORDER BY block_number DESC LIMIT 1` over the vault's snapshots. */
  ghost predicate Latest(db: Db, cid: nat, a: Address, k: Key) {
    IsSnapshot(db, cid, a, k) && forall x :: IsSnapshot(db, cid, a, x) ==> db[x].block <= db[k].block
  }

  /** What one snapshot makes of `shares`: nothing while there is no supply, and otherwise their part of the assets. */
  predicate ValuedAt(db: Db, k: Key, shares: nat, value: Option<nat>)
    requires k in db && db[k].cols.SnapshotCols?
  {
    value == if db[k].cols.totalSupply == 0 then None
             else Some(shares * db[k].cols.totalAssets / db[k].cols.totalSupply)
  }

  /** The value reported for `shares` of vault `a`: that of a latest snapshot, or none if there is no snapshot. */
  ghost predicate IsValue(db: Db, cid: nat, a: Address, shares: nat, value: Option<nat>) {
    || (value == None && forall k :: !IsSnapshot(db, cid, a, k))
    || exists k :: Latest(db, cid, a, k) && ValuedAt(db, k, shares, value)
  }

  /** One row of `get_account_positions`. */
  method PositionValue(db: Db, cid: nat, a: Address, shares: nat) returns (value: Option<nat>)
    ensures IsValue(db, cid, a, shares, value)
  {
    var best: Option<Key>, todo := None, db.Keys;
    while todo != {}
      invariant todo <= db.Keys
      invariant best.None? ==> forall x :: x !in todo ==> !IsSnapshot(db, cid, a, x)
      invariant best.Some? ==> IsSnapshot(db, cid, a, best.value) &&
                               forall x :: x !in todo && IsSnapshot(db, cid, a, x) ==> db[x].block <= db[best.value].block
      decreases |todo|
    {
      var k :| k in todo;
      if IsSnapshot(db, cid, a, k) && (best.None? || db[best.value].block <= db[k].block) {
        best := Some(k);
      }
      todo := todo - {k};
    }
    if best.None? {
      return None;
    }
    assert Latest(db, cid, a, best.value);
    value := UsdcValue(shares, db[best.value].cols.totalAssets, db[best.value].cols.totalSupply);
    assert ValuedAt(db, best.value, shares, value);
  }

  // ---------------------------------------------------------------- totals

  /** What the API reports for a list of holders, added up. */
  function TotalValue(holdings: seq<nat>, assets: nat, supply: nat): nat
    requires supply > 0
  {
    if holdings == [] then
      0
    else
      TotalValue(holdings[..|holdings| - 1], assets, supply) + UsdcValue(holdings[|holdings| - 1], assets, supply).value
  }

  /** One holder is reported `shares * assets / supply`, and lists of holders add up. */
  lemma {:induction false} TotalAdds(a: seq<nat>, b: seq<nat>, assets: nat, supply: nat)
    requires supply > 0
    ensures TotalValue([], assets, supply) == 0
    ensures forall shares: nat :: TotalValue([shares], assets, supply) == shares * assets / supply
    ensures TotalValue(a + b, assets, supply) == TotalValue(a, assets, supply) + TotalValue(b, assets, supply)
    decreases |b|
  {
    forall shares: nat
      ensures TotalValue([shares], assets, supply) == shares * assets / supply
    {
      assert [shares][..0] == [];
    }
    if b == [] {
      assert a + b == a;
    } else {
      TotalAdds(a, b[..|b| - 1], assets, supply);
      assert (a + b)[..|a + b| - 1] == a + b[..|b| - 1];
    }
  }

  /** Rounding one holder down costs less than one unit. */
  lemma {:induction false} ValueBounds(shares: nat, assets: nat, supply: nat)
    requires supply > 0
    ensures var value := UsdcValue(shares, assets, supply).value;
            value * supply <= shares * assets <= value * supply + supply - 1
  {
    var product := shares * assets;
    assert product == supply * (product / supply) + product % supply;
  }

  lemma {:induction false} Distributes(a: int, b: int, c: int)
    ensures (a + b) * c == a * c + b * c
  {
  }

  /** Over any list of holders the reported total falls short of the exact one by less than one unit each. */
  lemma {:induction false} TotalBounds(holdings: seq<nat>, assets: nat, supply: nat)
    requires supply > 0
    ensures var total := TotalValue(holdings, assets, supply) * supply;
            total <= Sum(holdings) * assets <= total + |holdings| * (supply - 1)
  {
    if holdings != [] {
      var front, last := holdings[..|holdings| - 1], holdings[|holdings| - 1];
      TotalBounds(front, assets, supply);
      ValueBounds(last, assets, supply);
      Distributes(TotalValue(front, assets, supply), UsdcValue(last, assets, supply).value, supply);
      Distributes(Sum(front), last, assets);
      Distributes(|front|, 1, supply - 1);
    }
  }

  lemma {:induction false} TimesMonotone(a: int, b: int, c: nat)
    requires a <= b
    ensures a * c <= b * c
  {
    Distributes(a, b - a, c);
  }

  lemma {:induction false} CancelFactor(a: int, b: int, c: nat)
    requires a * c < b * c
    ensures a < b
  {
    if b <= a {
      TimesMonotone(b, a, c);
    }
  }

  /** Share values never over-allocate: holders who together own no more than the supply are reported no more than
      the vault's assets. */
  lemma {:induction false} NeverOverAllocates(holdings: seq<nat>, assets: nat, supply: nat)
    requires supply > 0 && Sum(holdings) <= supply
    ensures TotalValue(holdings, assets, supply) <= assets
  {
    var total := TotalValue(holdings, assets, supply);
    TotalBounds(holdings, assets, supply);
    TimesMonotone(Sum(holdings), supply, assets);
    if total > assets {
      TimesMonotone(assets + 1, total, supply);
      Distributes(assets, 1, supply);
    }
  }

  /** When the holders own the whole supply, the unreported rest is smaller than their number. */
  lemma {:induction false} ShortfallBelowHolders(holdings: seq<nat>, assets: nat, supply: nat)
    requires supply > 0 && Sum(holdings) == supply
    ensures 0 <= assets - TotalValue(holdings, assets, supply) < |holdings|
  {
    var total, n := TotalValue(holdings, assets, supply), |holdings|;
    NeverOverAllocates(holdings, assets, supply);
    TotalBounds(holdings, assets, supply);
    assert n > 0;
    assert n * (supply - 1) == n * supply - n;
    Distributes(assets - total, total, supply);
    assert (assets - total) * supply < n * supply;
    CancelFactor(assets - total, n, supply);
  }
}
