/**
 * The inventory ledger of backend/api.py: one quantity per batch key
 * (warehouse, drug, expiry month). The database keeps at most one row per
 * key because every writer first looks the key up and only inserts when it
 * is absent, so the table is a finite map from keys to quantities. `Credit`
 * and `Debit` are the two row updates the endpoints perform, and `Total`
 * is the quantity summed over every row, the measure the transfer
 * endpoints conserve.
 */
module Ledger {
  import opened Wrappers

  /**
   * The lookup key of an inventory row. SQLAlchemy turns `column == None`
   * into `IS NULL`, so a key with an absent warehouse or expiry month names
   * the rows whose column is NULL.
   */
  datatype BatchKey = BatchKey(warehouse: Option<int>, drug: int, expire: Option<string>)

  type Stock = map<BatchKey, int>

  /** The quantity on hand for a key; a missing row holds nothing. */
  function Qty(s: Stock, k: BatchKey): int {
    if k in s then s[k] else 0
  }

  /** Every row holds a non-negative quantity. */
  predicate NonNegative(s: Stock) {
    forall k :: k in s ==> s[k] >= 0
  }

  /** The sum of the values of a finite map. */
  ghost function SumValues<K>(m: map<K, int>): int
    decreases |m.Keys|
  {
    if m == map[] then 0
    else
      var k :| k in m;
      assert |(m - {k}).Keys| < |m.Keys| by { assert (m - {k}).Keys == m.Keys - {k}; }
      m[k] + SumValues(m - {k})
  }

  /** The sum does not depend on which key is taken out first. */
  lemma {:induction false} SumRemove<K>(m: map<K, int>, k: K)
    requires k in m
    ensures SumValues(m) == m[k] + SumValues(m - {k})
    decreases |m.Keys|
  {
    var j :| j in m && SumValues(m) == m[j] + SumValues(m - {j});
    if j != k {
      assert (m - {j}).Keys == m.Keys - {j};
      assert (m - {k}).Keys == m.Keys - {k};
      SumRemove(m - {j}, k);
      SumRemove(m - {k}, j);
      assert m - {j} - {k} == m - {k} - {j};
    }
  }

  /** Adding a key adds its value to the sum. */
  lemma {:induction false} SumInsert<K>(m: map<K, int>, k: K, v: int)
    requires k !in m
    ensures SumValues(m[k := v]) == SumValues(m) + v
  {
    SumRemove(m[k := v], k);
    assert m[k := v] - {k} == m;
  }

  /** Changing one value changes the sum by the difference. */
  lemma {:induction false} SumUpdate<K>(m: map<K, int>, k: K, v: int)
    requires k in m
    ensures SumValues(m[k := v]) == SumValues(m) - m[k] + v
  {
    SumRemove(m[k := v], k);
    SumRemove(m, k);
    assert m[k := v] - {k} == m - {k};
  }

  /** A map of non-negative values sums to at least any one of its values. */
  lemma {:induction false} SumCoversEach<K>(m: map<K, int>, k: K)
    requires forall j :: j in m ==> m[j] >= 0
    requires k in m
    ensures SumValues(m) >= m[k]
  {
    SumRemove(m, k);
    SumNonNegative(m - {k});
  }

  /** A map of non-negative values has a non-negative sum. */
  lemma {:induction false} SumNonNegative<K>(m: map<K, int>)
    requires forall j :: j in m ==> m[j] >= 0
    ensures SumValues(m) >= 0
    decreases |m.Keys|
  {
    if m != map[] {
      var k :| k in m;
      SumRemove(m, k);
      assert (m - {k}).Keys == m.Keys - {k};
      SumNonNegative(m - {k});
    }
  }

  /** The quantity held across every warehouse, TRANSIT included. */
  ghost function Total(s: Stock): int {
    SumValues(s)
  }

  /** Setting one row's quantity changes the total by the difference, whether or not the row existed. */
  lemma TotalAfterSet(s: Stock, k: BatchKey, v: int)
    ensures Total(s[k := v]) == Total(s) - Qty(s, k) + v
  {
    if k in s { SumUpdate(s, k, v); } else { SumInsert(s, k, v); }
  }

  /**
   * `row.quantity += q`, inserting a row holding `q` when none exists for
   * the key: the key's quantity grows by `q`, every other key keeps its
   * quantity, and the total grows by `q`.
   */
  function Credit(s: Stock, k: BatchKey, q: int): (r: Stock)
    ensures r.Keys == s.Keys + {k}
    ensures Qty(r, k) == Qty(s, k) + q
    ensures forall j :: j != k ==> Qty(r, j) == Qty(s, j)
    ensures Total(r) == Total(s) + q
  {
    TotalAfterSet(s, k, Qty(s, k) + q);
    s[k := Qty(s, k) + q]
  }

  /**
   * `row.quantity -= q` on an existing row: the key's quantity shrinks by
   * `q`, no row appears or disappears, and the total shrinks by `q`.
   */
  function Debit(s: Stock, k: BatchKey, q: int): (r: Stock)
    requires k in s
    ensures r.Keys == s.Keys
    ensures Qty(r, k) == Qty(s, k) - q
    ensures forall j :: j != k ==> Qty(r, j) == Qty(s, j)
    ensures Total(r) == Total(s) - q
  {
    TotalAfterSet(s, k, s[k] - q);
    s[k := s[k] - q]
  }

  /**
   * `from.quantity -= q` followed by `to.quantity += q` (inserting `to` when
   * absent): `q` units change rows and the total stays the same.
   */
  function Move(s: Stock, from: BatchKey, to: BatchKey, q: int): (r: Stock)
    requires from in s
    ensures r.Keys == s.Keys + {to}
    ensures from != to ==> Qty(r, from) == Qty(s, from) - q && Qty(r, to) == Qty(s, to) + q
    ensures from == to ==> Qty(r, from) == Qty(s, from)
    ensures forall j :: j != from && j != to ==> Qty(r, j) == Qty(s, j)
    ensures Total(r) == Total(s)
  {
    Credit(Debit(s, from, q), to, q)
  }

  /** Moving units back where they came from restores every quantity. */
  lemma MoveBack(s: Stock, a: BatchKey, b: BatchKey, q: int)
    requires a in s
    ensures forall k :: Qty(Move(Move(s, a, b, q), b, a, q), k) == Qty(s, k)
  {
  }

  /** A credit of a non-negative amount keeps every row non-negative. */
  lemma CreditKeepsNonNegative(s: Stock, k: BatchKey, q: int)
    requires NonNegative(s) && q >= 0
    ensures NonNegative(Credit(s, k, q))
  {
    var r := Credit(s, k, q);
    forall j | j in r ensures r[j] >= 0 {
      assert r[j] == Qty(r, j);
    }
  }

  /** A debit the row covers keeps every row non-negative. */
  lemma DebitKeepsNonNegative(s: Stock, k: BatchKey, q: int)
    requires NonNegative(s) && k in s && q <= s[k]
    ensures NonNegative(Debit(s, k, q))
  {
    var r := Debit(s, k, q);
    forall j | j in r ensures r[j] >= 0 {
      assert r[j] == Qty(r, j);
    }
  }

  /** Moving a non-negative amount the source row covers keeps every row non-negative. */
  lemma MoveKeepsNonNegative(s: Stock, from: BatchKey, to: BatchKey, q: int)
    requires NonNegative(s) && from in s && 0 <= q <= s[from]
    ensures NonNegative(Move(s, from, to, q))
  {
    DebitKeepsNonNegative(s, from, q);
    CreditKeepsNonNegative(Debit(s, from, q), to, q);
  }
}
