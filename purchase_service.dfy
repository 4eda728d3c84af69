/**
 * The purchase service's operations: `upsertPurchaseWithDetails` and `deletePurchaseById`
 * compute the balance map of the ledger with loops over the line items and their shares,
 * and hand it to the person service.
 */
module PurchaseService {
  import opened Wrappers
  import opened OrderedMap
  import opened Models
  import opened PurchaseUtils
  import opened PersonService
  import opened PurchaseFetch
  import opened PurchaseLedger

  // ---------------------------------------------------------------------------
  // The service operations

  /** Taking back one more share of a stored line item appends that share's posting. */
  lemma ReverseSharesSnoc(total: real, shares: seq<Share>, k: int)
    requires 0 <= k < |shares|
    ensures ReverseShares(total, shares[..k + 1])
         == ReverseShares(total, shares[..k]) + [Posting(shares[k].personId, ShareAmount(total, shares[k].rate))]
  {
    assert shares[..k + 1][..k] == shares[..k];
  }

  /** Applying one more share of an upsert's line item appends that share's posting. */
  lemma ApplySharesSnoc(total: real, shares: seq<ShareUpsert>, k: int)
    requires 0 <= k < |shares|
    ensures ApplyShares(total, shares[..k + 1])
         == ApplyShares(total, shares[..k]) + [Posting(shares[k].personId, -ShareAmount(total, shares[k].rate))]
  {
    assert shares[..k + 1][..k] == shares[..k];
  }

  /** The payer's posting comes first. */
  lemma PostSingle(m: Map<real>, first: Posting)
    ensures Post(m, [first]) == Adjust(m, first)
  {
    PostStep(m, [], first);
    assert [] + [first] == [first];
  }

  /**
   * The inner loop that takes a stored line item back: the payer is debited the line's
   * total, then each holder is credited their part (`Adjust` is one `get ?? 0` and `set`).
   */
  method ReverseDetailInto(m: Map<real>, payer: Id, d: PurchaseDetail) returns (m': Map<real>)
    ensures m' == Post(m, ReverseDetail(payer, d))
  {
    ghost var first := Posting(payer, -d.totalPrice);
    m' := Adjust(m, Posting(payer, -d.totalPrice));
    PostSingle(m, first);
    var shares := d.shares;
    assert shares[..0] == [];
    for k := 0 to |shares|
      invariant m' == Post(m, [first] + ReverseShares(d.totalPrice, shares[..k]))
    {
      var share := shares[k];
      var shareAmount := ShareAmount(d.totalPrice, share.rate);
      ghost var done := [first] + ReverseShares(d.totalPrice, shares[..k]);
      ReverseSharesSnoc(d.totalPrice, shares, k);
      assert [first] + ReverseShares(d.totalPrice, shares[..k + 1]) == done + [Posting(share.personId, shareAmount)];
      PostStep(m, done, Posting(share.personId, shareAmount));
      m' := Adjust(m', Posting(share.personId, shareAmount));
    }
    assert shares[..|shares|] == shares;
  }

  /**
   * The inner loop that applies an upsert's line item: the payer is credited the line's
   * total, then each holder is debited their part; shares still null count as none.
   */
  method ApplyDetailInto(m: Map<real>, payer: Id, d: DetailUpsert) returns (m': Map<real>)
    ensures m' == Post(m, ApplyDetail(payer, d))
  {
    ghost var first := Posting(payer, d.totalPrice);
    m' := Adjust(m, Posting(payer, d.totalPrice));
    PostSingle(m, first);
    var shares := d.shares.GetOr([]);
    for k := 0 to |shares|
      invariant m' == Post(m, [first] + ApplyShares(d.totalPrice, shares[..k]))
    {
      var share := shares[k];
      var shareAmount := ShareAmount(d.totalPrice, share.rate);
      ghost var done := [first] + ApplyShares(d.totalPrice, shares[..k]);
      ApplySharesSnoc(d.totalPrice, shares, k);
      assert [first] + ApplyShares(d.totalPrice, shares[..k + 1]) == done + [Posting(share.personId, -shareAmount)];
      PostStep(m, done, Posting(share.personId, -shareAmount));
      m' := Adjust(m', Posting(share.personId, -shareAmount));
    }
    assert shares[..|shares|] == shares;
  }

  /** One more stored line item taken back, from the map `cur` the line items before it left. */
  lemma ReverseDetailStep(m: Map<real>, stored: Purchase, k: int, cur: Map<real>, next: Map<real>)
    requires 0 <= k < |stored.details|
    requires cur == Post(m, ReversePostings(stored.paidBy, stored.details[..k]))
    requires next == Post(cur, ReverseDetail(stored.paidBy, stored.details[k]))
    ensures next == Post(m, ReversePostings(stored.paidBy, stored.details[..k + 1]))
  {
    var ds := stored.details;
    assert ds[..k + 1][..k] == ds[..k];
    assert ReversePostings(stored.paidBy, ds[..k + 1]) == ReversePostings(stored.paidBy, ds[..k]) + ReverseDetail(stored.paidBy, ds[k]);
    PostAppend(m, ReversePostings(stored.paidBy, ds[..k]), ReverseDetail(stored.paidBy, ds[k]));
  }

  /** One more line item of an upsert applied, from the map `cur` the line items before it left. */
  lemma ApplyDetailStep(m: Map<real>, p: PurchaseUpsert, k: int, cur: Map<real>, next: Map<real>)
    requires 0 <= k < |p.details|
    requires cur == Post(m, ApplyPostings(p.paidBy, p.details[..k]))
    requires next == Post(cur, ApplyDetail(p.paidBy, p.details[k]))
    ensures next == Post(m, ApplyPostings(p.paidBy, p.details[..k + 1]))
  {
    var ds := p.details;
    assert ds[..k + 1][..k] == ds[..k];
    assert ApplyPostings(p.paidBy, ds[..k + 1]) == ApplyPostings(p.paidBy, ds[..k]) + ApplyDetail(p.paidBy, ds[k]);
    PostAppend(m, ApplyPostings(p.paidBy, ds[..k]), ApplyDetail(p.paidBy, ds[k]));
  }

  /** The loop over a stored purchase's line items that takes it back. */
  method ReversePurchaseInto(m: Map<real>, stored: Purchase) returns (m': Map<real>)
    ensures m' == Post(m, ReversePostings(stored.paidBy, stored.details))
  {
    m' := m;
    for k := 0 to |stored.details|
      invariant m' == Post(m, ReversePostings(stored.paidBy, stored.details[..k]))
    {
      ghost var cur := m';
      m' := ReverseDetailInto(m', stored.paidBy, stored.details[k]);
      ReverseDetailStep(m, stored, k, cur, m');
    }
    assert stored.details[..|stored.details|] == stored.details;
  }

  /** The loop over an upsert's line items that applies it. */
  method ApplyPurchaseInto(m: Map<real>, p: PurchaseUpsert) returns (m': Map<real>)
    ensures m' == Post(m, ApplyPostings(p.paidBy, p.details))
  {
    m' := m;
    for k := 0 to |p.details|
      invariant m' == Post(m, ApplyPostings(p.paidBy, p.details[..k]))
    {
      ghost var cur := m';
      m' := ApplyDetailInto(m', p.paidBy, p.details[k]);
      ApplyDetailStep(m, p, k, cur, m');
    }
    assert p.details[..|p.details|] == p.details;
  }

  /** The balance map of an upsert is a well-formed JavaScript Map. */
  lemma UpsertBalancesValid(persons: seq<Person>, p: PurchaseUpsert, previous: Option<Purchase>)
    ensures Valid(UpsertBalances(persons, p, previous))
  {
    var m := BalanceMap(persons);
    match previous
    case Some(o) =>
      PostValid(m, ReversePostings(o.paidBy, o.details));
      PostValid(Post(m, ReversePostings(o.paidBy, o.details)), ApplyPostings(p.paidBy, p.details));
    case None =>
      PostValid(m, ApplyPostings(p.paidBy, p.details));
  }

  /** The balance map of a delete is a well-formed JavaScript Map. */
  lemma DeleteBalancesValid(persons: seq<Person>, stored: Purchase)
    ensures Valid(DeleteBalances(persons, stored))
  {
    PostValid(BalanceMap(persons), ReversePostings(stored.paidBy, stored.details));
  }

  /**
   * `upsertPurchaseWithDetails`, given the persons and the stored rows of `p.id`: the
   * balance map it computes and what `updateBalancesWithMap` then makes of it.
   */
  method UpsertPurchaseWithDetails(persons: seq<Person>, p: PurchaseUpsert, stored: PurchaseRows)
    returns (newPersonBalance: Map<real>, updated: Result<seq<Person>, PersonError>)
    ensures newPersonBalance ==
      UpsertBalances(persons, p, if Truthy(p.id) then Some(CompletePurchase(stored)) else None)
    ensures Valid(newPersonBalance)
    ensures updated == UpdatedPersons(newPersonBalance, persons)
  {
    var oldPurchase: Option<Purchase> := None;
    if Truthy(p.id) {
      var complete := FetchCompletePurchaseById(stored);
      oldPurchase := Some(complete);
    }
    newPersonBalance := BalanceMap(persons);
    if oldPurchase.Some? {
      newPersonBalance := ReversePurchaseInto(newPersonBalance, oldPurchase.value);
    }
    newPersonBalance := ApplyPurchaseInto(newPersonBalance, p);
    UpsertBalancesValid(persons, p, oldPurchase);
    updated := UpdateBalancesWithMap(newPersonBalance, persons);
  }

  /** `deletePurchaseById`, given the persons and the stored rows of the purchase. */
  method DeletePurchaseById(persons: seq<Person>, stored: PurchaseRows)
    returns (newPersonBalance: Map<real>, updated: Result<seq<Person>, PersonError>)
    ensures newPersonBalance == DeleteBalances(persons, CompletePurchase(stored))
    ensures Valid(newPersonBalance)
    ensures updated == UpdatedPersons(newPersonBalance, persons)
  {
    var purchase := FetchCompletePurchaseById(stored);
    newPersonBalance := BalanceMap(persons);
    newPersonBalance := ReversePurchaseInto(newPersonBalance, purchase);
    DeleteBalancesValid(persons, purchase);
    updated := UpdateBalancesWithMap(newPersonBalance, persons);
  }
}
