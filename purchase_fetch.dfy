/**
 * Reading a purchase back (the read path of the purchase service): the line items in
 * query order with their totals recomputed, each holding exactly the shares that name
 * it, and the purchase total recomputed from them.
 */
module PurchaseFetch {
  import opened Wrappers
  import opened OrderedMap
  import opened Models
  import opened PurchaseUtils

  /** What the SQL layer returns for one purchase id: the purchase row, its line items and all their shares. */
  datatype PurchaseRows = PurchaseRows(purchase: Purchase, details: seq<PurchaseDetail>, shares: seq<Share>)

  // ---------------------------------------------------------------------------
  // Reading a purchase back

  /** The shares of line item `id`, in the order the query returned them. */
  function SharesOf(shares: seq<Share>, id: Id): seq<Share> {
    if shares == [] then []
    else
      var last := shares[|shares| - 1];
      SharesOf(shares[..|shares| - 1], id) + (if last.detailId == id then [last] else [])
  }

  /** A line item's shares are exactly the returned shares that name it. */
  lemma {:induction false} SharesOfMembers(shares: seq<Share>)
    ensures forall id, s :: s in SharesOf(shares, id) <==> s in shares && s.detailId == id
  {
    if shares != [] {
      var init := shares[..|shares| - 1];
      SharesOfMembers(init);
      assert shares == init + [shares[|shares| - 1]];
    }
  }

  function FetchedDetail(d: PurchaseDetail, shares: seq<Share>): PurchaseDetail {
    WithTotal(d).(shares := SharesOf(shares, d.id))
  }

  /**
   * The line items as `fetchPurchaseDetailsById` returns them: in query order, with
   * their totals recomputed and each holding exactly the shares that name it.
   */
  function FetchedDetails(rows: seq<PurchaseDetail>, shares: seq<Share>): (r: seq<PurchaseDetail>)
    ensures |r| == |rows|
    ensures forall k :: 0 <= k < |rows| ==>
      r[k].id == rows[k].id && r[k].totalPrice == LineTotal(rows[k]) &&
      r[k].(totalPrice := rows[k].totalPrice, shares := rows[k].shares) == rows[k] &&
      forall s :: s in r[k].shares <==> s in shares && s.detailId == rows[k].id
  {
    SharesOfMembers(shares);
    seq(|rows|, k requires 0 <= k < |rows| => FetchedDetail(rows[k], shares))
  }

  /** The purchase as `fetchCompletePurchaseById` returns it: its line items attached and its total recomputed. */
  function CompletePurchase(rows: PurchaseRows): (p: Purchase)
    ensures p.details == FetchedDetails(rows.details, rows.shares)
    ensures p.totalAmount == TotalAmount(p.details)
    ensures p.(details := rows.purchase.details, totalAmount := rows.purchase.totalAmount) == rows.purchase
  {
    var details := FetchedDetails(rows.details, rows.shares);
    rows.purchase.(details := details, totalAmount := TotalAmount(details))
  }

  // ---------------------------------------------------------------------------
  // The order the queries return the rows in

  /**
   * Neither query orders its rows: `b` holds the same purchase row, line item rows and
   * share rows as `a`, each list in some order.
   */
  predicate SameRows(a: PurchaseRows, b: PurchaseRows) {
    a.purchase == b.purchase && multiset(a.details) == multiset(b.details) && multiset(a.shares) == multiset(b.shares)
  }

  /** A line item holds each returned share that names it as often as it was returned, and no other. */
  lemma {:induction false} SharesOfCount(shares: seq<Share>, id: Id, x: Share)
    ensures multiset(SharesOf(shares, id))[x] == if x.detailId == id then multiset(shares)[x] else 0
  {
    if shares != [] {
      var init := shares[..|shares| - 1];
      SharesOfCount(init, id, x);
      assert shares == init + [shares[|shares| - 1]];
    }
  }

  /** Share rows returned in another order give a line item the same shares, in another order. */
  lemma SharesOfReordered(a: seq<Share>, b: seq<Share>, id: Id)
    requires multiset(a) == multiset(b)
    ensures multiset(SharesOf(a, id)) == multiset(SharesOf(b, id))
  {
    forall x: Share ensures multiset(SharesOf(a, id))[x] == multiset(SharesOf(b, id))[x] {
      SharesOfCount(a, id, x);
      SharesOfCount(b, id, x);
    }
  }

  /** Line item rows are read back one by one. */
  lemma FetchedDetailsAppend(a: seq<PurchaseDetail>, b: seq<PurchaseDetail>, shares: seq<Share>)
    ensures FetchedDetails(a + b, shares) == FetchedDetails(a, shares) + FetchedDetails(b, shares)
  {
    var l, r := FetchedDetails(a + b, shares), FetchedDetails(a, shares) + FetchedDetails(b, shares);
    forall k | 0 <= k < |l| ensures l[k] == r[k] {
      if k < |a| {
        assert (a + b)[k] == a[k];
      } else {
        assert (a + b)[k] == b[k - |a|];
      }
    }
  }

  /**
   * One step of the `reduce` that groups the shares by line item: a key is created
   * (with an empty list) the first time a line item id is seen, then the share is
   * pushed onto its list.
   */
  function Push(m: Map<seq<Share>>, share: Share): Map<seq<Share>> {
    var m1 := if Get(m, share.detailId).None? then Set(m, share.detailId, []) else m;
    Set(m1, share.detailId, m1.values[share.detailId] + [share])
  }

  /** The whole `reduce`, from `new Map()`. */
  function Grouped(shares: seq<Share>): Map<seq<Share>> {
    if shares == [] then Empty() else Push(Grouped(shares[..|shares| - 1]), shares[|shares| - 1])
  }

  /** After the `reduce`, every line item id maps to exactly its shares, in query order. */
  lemma {:induction false} GroupedGet(shares: seq<Share>, id: Id)
    ensures Get(Grouped(shares), id).GetOr([]) == SharesOf(shares, id)
  {
    if shares != [] {
      GroupedGet(shares[..|shares| - 1], id);
    }
  }

  method GroupSharesByDetail(shares: seq<Share>) returns (mapping: Map<seq<Share>>)
    ensures mapping == Grouped(shares)
    ensures forall id :: Get(mapping, id).GetOr([]) == SharesOf(shares, id)
  {
    mapping := Empty();
    for k := 0 to |shares|
      invariant mapping == Grouped(shares[..k])
    {
      var share := shares[k];
      assert shares[..k + 1][..k] == shares[..k];
      if Get(mapping, share.detailId).None? {
        mapping := Set(mapping, share.detailId, []);
      }
      var list := Get(mapping, share.detailId).value;
      mapping := Set(mapping, share.detailId, list + [share]);
    }
    assert shares[..|shares|] == shares;
    forall id | true ensures Get(mapping, id).GetOr([]) == SharesOf(shares, id) {
      GroupedGet(shares, id);
    }
  }

  /** `fetchPurchaseDetailsById`, on the rows the two queries return. */
  method FetchPurchaseDetailsById(rows: seq<PurchaseDetail>, shareRows: seq<Share>)
    returns (details: seq<PurchaseDetail>)
    ensures details == FetchedDetails(rows, shareRows)
  {
    var n := |rows|;
    var work := new PurchaseDetail[n](k requires 0 <= k < n => rows[k]);
    CalculateTotalPrices(work);
    var mapping := GroupSharesByDetail(shareRows);
    for k := 0 to n
      invariant forall m :: 0 <= m < k ==> work[m] == FetchedDetail(rows[m], shareRows)
      invariant forall m :: k <= m < n ==> work[m] == WithTotal(rows[m])
    {
      work[k] := work[k].(shares := Get(mapping, work[k].id).GetOr([]));
    }
    details := work[..];
  }

  /**
   * `fetchPurchaseDetailsByIdThenVerify`: the line items, the purchase with its total
   * replaced by theirs, and whether the stored total disagreed (which is logged).
   */
  method FetchPurchaseDetailsByIdThenVerify(purchase: Purchase, rows: seq<PurchaseDetail>, shareRows: seq<Share>)
    returns (data: seq<PurchaseDetail>, verified: Purchase, mismatch: bool)
    ensures data == FetchedDetails(rows, shareRows)
    ensures verified == purchase.(totalAmount := TotalAmount(data))
    ensures mismatch <==> purchase.totalAmount != TotalAmount(data)
  {
    data := FetchPurchaseDetailsById(rows, shareRows);
    var totalAmount := TotalAmount(data);
    mismatch := purchase.totalAmount != totalAmount;
    verified := purchase.(totalAmount := totalAmount);
  }

  /** `fetchCompletePurchaseById`. */
  method FetchCompletePurchaseById(rows: PurchaseRows) returns (p: Purchase)
    ensures p == CompletePurchase(rows)
  {
    var details := FetchPurchaseDetailsById(rows.details, rows.shares);
    p := rows.purchase.(details := details);
    p := p.(totalAmount := TotalAmount(p.details));
  }
}
