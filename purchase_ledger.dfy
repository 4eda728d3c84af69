/**
 * The balance bookkeeping of the purchase service. A purchase credits its payer with
 * every line item's total and debits each share holder with their fraction of it; an
 * update first takes the stored purchase's effect back, a delete only does that. The
 * balances are kept in a Map from person id to balance, applied afterwards by the
 * person service.
 */
module PurchaseLedger {
  import opened Wrappers
  import opened OrderedMap
  import opened Models
  import opened PurchaseUtils
  import opened Common
  import opened PurchaseFetch

  // ---------------------------------------------------------------------------
  // The balance map and the postings applied to it

  /**
   * The balance map `persons.reduce((map, p) => map.set(p.id, p.balance), new Map())`:
   * each id of the list holds the balance of the last person with that id.
   */
  function BalanceMap(persons: seq<Person>): (m: Map<real>)
    ensures Valid(m)
    ensures forall id :: id in m.values <==> id in Ids(persons)
    ensures forall id :: Get(m, id) == (match LastWithId(persons, id)
      case Some(p) => Some(p.balance)
      case None => None)
  {
    if persons == [] then Empty()
    else
      var init, last := persons[..|persons| - 1], persons[|persons| - 1];
      IdsSnoc(persons);
      SetValid(BalanceMap(init), last.id, last.balance);
      Set(BalanceMap(init), last.id, last.balance)
  }

  /** With distinct ids, the balances in the map add up to the persons' total. */
  lemma {:induction false} BalanceMapSum(persons: seq<Person>)
    requires forall a, b :: 0 <= a < b < |persons| ==> persons[a].id != persons[b].id
    ensures SumValues(BalanceMap(persons)) == TotalBalance(persons)
  {
    if persons != [] {
      var init, last := persons[..|persons| - 1], persons[|persons| - 1];
      BalanceMapSum(init);
      assert last.id !in Ids(init) by {
        forall k | 0 <= k < |init| ensures Ids(init)[k] != last.id {
          assert init[k] == persons[k];
        }
      }
      SumValuesAdd(BalanceMap(init), last.id, last.balance, last.balance);
      TotalBalanceSnoc(persons);
    }
  }

  /** One `newPersonBalance.set(id, (newPersonBalance.get(id) ?? 0) + amount)`. */
  datatype Posting = Posting(personId: Id, amount: real)

  function Adjust(m: Map<real>, p: Posting): Map<real> {
    Set(m, p.personId, Get(m, p.personId).GetOr(0.0) + p.amount)
  }

  /** The postings applied one after another. */
  function Post(m: Map<real>, ps: seq<Posting>): Map<real> {
    if ps == [] then m else Adjust(Post(m, ps[..|ps| - 1]), ps[|ps| - 1])
  }

  /** The last posting is applied last. */
  lemma PostSnoc(m: Map<real>, ps: seq<Posting>)
    requires ps != []
    ensures Post(m, ps) == Adjust(Post(m, ps[..|ps| - 1]), ps[|ps| - 1])
  {
  }

  /** The postings keep the map a well-formed JavaScript Map. */
  lemma {:induction false} PostValid(m: Map<real>, ps: seq<Posting>)
    requires Valid(m)
    ensures Valid(Post(m, ps))
  {
    if ps != [] {
      PostValid(m, ps[..|ps| - 1]);
      var last := ps[|ps| - 1];
      var before := Post(m, ps[..|ps| - 1]);
      SetValid(before, last.personId, Get(before, last.personId).GetOr(0.0) + last.amount);
    }
  }

  lemma PostStep(m: Map<real>, done: seq<Posting>, p: Posting)
    ensures Post(m, done + [p]) == Adjust(Post(m, done), p)
  {
    var ps := done + [p];
    assert ps[..|ps| - 1] == done;
    PostSnoc(m, ps);
  }

  /** One posting changes the balance of its person only. */
  lemma AdjustGet(m: Map<real>, p: Posting, id: Id)
    ensures Get(Adjust(m, p), id) == if id == p.personId then Some(Get(m, id).GetOr(0.0) + p.amount) else Get(m, id)
  {
  }

  /** One posting moves the sum of the map by its amount. */
  lemma AdjustSum(m: Map<real>, p: Posting)
    requires Valid(m)
    ensures SumValues(Adjust(m, p)) == SumValues(m) + p.amount
  {
    SumValuesAdd(m, p.personId, Get(m, p.personId).GetOr(0.0) + p.amount, p.amount);
  }

  /** The sum of the postings to person `id`. */
  function AmountFor(ps: seq<Posting>, id: Id): real {
    if ps == [] then 0.0
    else AmountFor(ps[..|ps| - 1], id) + if ps[|ps| - 1].personId == id then ps[|ps| - 1].amount else 0.0
  }

  predicate Posted(ps: seq<Posting>, id: Id) {
    exists k :: 0 <= k < |ps| && ps[k].personId == id
  }

  /** The sum of all postings. */
  function TotalPosted(ps: seq<Posting>): real {
    if ps == [] then 0.0 else TotalPosted(ps[..|ps| - 1]) + ps[|ps| - 1].amount
  }

  /** A list of postings posts to `id` exactly when its prefix does or its last posting does. */
  lemma PostedSnoc(ps: seq<Posting>, id: Id)
    requires ps != []
    ensures Posted(ps, id) <==> Posted(ps[..|ps| - 1], id) || ps[|ps| - 1].personId == id
  {
    var init := ps[..|ps| - 1];
    if Posted(init, id) {
      var k :| 0 <= k < |init| && init[k].personId == id;
      assert ps[k] == init[k];
    }
    if Posted(ps, id) && ps[|ps| - 1].personId != id {
      var k :| 0 <= k < |ps| && ps[k].personId == id;
      assert init[k] == ps[k];
    }
  }

  /** Nothing is posted to an id that no posting names. */
  lemma {:induction false} UnpostedAmount(ps: seq<Posting>, id: Id)
    requires !Posted(ps, id)
    ensures AmountFor(ps, id) == 0.0
  {
    if ps != [] {
      PostedSnoc(ps, id);
      UnpostedAmount(ps[..|ps| - 1], id);
    }
  }

  /**
   * After the postings, an id that was in the map or was posted to holds its old
   * balance (0 when it was missing) plus everything posted to it; no other id appears.
   */
  lemma {:induction false} PostGet(m: Map<real>, ps: seq<Posting>, id: Id)
    ensures Get(Post(m, ps), id) ==
      if id in m.values || Posted(ps, id) then Some(Get(m, id).GetOr(0.0) + AmountFor(ps, id)) else None
  {
    if ps != [] {
      var init, last := ps[..|ps| - 1], ps[|ps| - 1];
      PostGet(m, init, id);
      PostSnoc(m, ps);
      AdjustGet(Post(m, init), last, id);
      PostedSnoc(ps, id);
      if !(id in m.values || Posted(init, id)) {
        UnpostedAmount(init, id);
      }
    }
  }

  /** The postings move the sum of the map by exactly their total. */
  lemma {:induction false} PostSum(m: Map<real>, ps: seq<Posting>)
    requires Valid(m)
    ensures SumValues(Post(m, ps)) == SumValues(m) + TotalPosted(ps)
  {
    if ps != [] {
      var init, last := ps[..|ps| - 1], ps[|ps| - 1];
      PostSum(m, init);
      PostValid(m, init);
      PostSnoc(m, ps);
      AdjustSum(Post(m, init), last);
    }
  }

  /** Applying two lists of postings one after the other is applying their concatenation. */
  lemma {:induction false} PostAppend(m: Map<real>, a: seq<Posting>, b: seq<Posting>)
    ensures Post(m, a + b) == Post(Post(m, a), b)
  {
    if b == [] {
      assert a + b == a;
    } else {
      var ab, init, last := a + b, b[..|b| - 1], b[|b| - 1];
      assert ab[..|ab| - 1] == a + init;
      assert ab[|ab| - 1] == last;
      PostAppend(m, a, init);
      PostSnoc(m, ab);
      PostSnoc(Post(m, a), b);
    }
  }

  lemma {:induction false} TotalPostedAppend(a: seq<Posting>, b: seq<Posting>)
    ensures TotalPosted(a + b) == TotalPosted(a) + TotalPosted(b)
  {
    if b == [] {
      assert a + b == a;
    } else {
      var ab := a + b;
      assert ab[..|ab| - 1] == a + b[..|b| - 1];
      assert ab[|ab| - 1] == b[|b| - 1];
      TotalPostedAppend(a, b[..|b| - 1]);
    }
  }

  // ---------------------------------------------------------------------------
  // The postings of a purchase

  /** `totalPrice * share.rate`: a holder's part of a line item. */
  function ShareAmount(totalPrice: real, rate: real): real {
    totalPrice * rate
  }

  /** The share holders' part of taking a stored line item back: each gets their part back. */
  function ReverseShares(total: real, shares: seq<Share>): (ps: seq<Posting>)
    ensures |ps| == |shares|
  {
    if shares == [] then []
    else
      var s := shares[|shares| - 1];
      ReverseShares(total, shares[..|shares| - 1]) + [Posting(s.personId, ShareAmount(total, s.rate))]
  }

  /** Taking a stored line item back: the payer loses its total, the holders get their parts back. */
  function ReverseDetail(payer: Id, d: PurchaseDetail): seq<Posting> {
    [Posting(payer, -d.totalPrice)] + ReverseShares(d.totalPrice, d.shares)
  }

  function ReversePostings(payer: Id, ds: seq<PurchaseDetail>): seq<Posting> {
    if ds == [] then []
    else ReversePostings(payer, ds[..|ds| - 1]) + ReverseDetail(payer, ds[|ds| - 1])
  }

  /** The share holders' part of applying an upsert's line item: each is debited their part. */
  function ApplyShares(total: real, shares: seq<ShareUpsert>): (ps: seq<Posting>)
    ensures |ps| == |shares|
  {
    if shares == [] then []
    else
      var s := shares[|shares| - 1];
      ApplyShares(total, shares[..|shares| - 1]) + [Posting(s.personId, -ShareAmount(total, s.rate))]
  }

  /** Applying an upsert's line item; shares that are still null count as none (`|| []`). */
  function ApplyDetail(payer: Id, d: DetailUpsert): seq<Posting> {
    [Posting(payer, d.totalPrice)] + ApplyShares(d.totalPrice, d.shares.GetOr([]))
  }

  function ApplyPostings(payer: Id, ds: seq<DetailUpsert>): seq<Posting> {
    if ds == [] then []
    else ApplyPostings(payer, ds[..|ds| - 1]) + ApplyDetail(payer, ds[|ds| - 1])
  }

  /** The balance map `upsertPurchaseWithDetails` computes, given the stored purchase when it updates one. */
  function UpsertBalances(persons: seq<Person>, p: PurchaseUpsert, previous: Option<Purchase>): Map<real> {
    var reversed := match previous
      case Some(o) => Post(BalanceMap(persons), ReversePostings(o.paidBy, o.details))
      case None => BalanceMap(persons);
    Post(reversed, ApplyPostings(p.paidBy, p.details))
  }

  /** The balance map `deletePurchaseById` computes. */
  function DeleteBalances(persons: seq<Person>, stored: Purchase): Map<real> {
    Post(BalanceMap(persons), ReversePostings(stored.paidBy, stored.details))
  }

  // ---------------------------------------------------------------------------
  // What the postings add up to

  /** The sum of the rates of stored shares. */
  function StoredRates(shares: seq<Share>): real {
    if shares == [] then 0.0 else StoredRates(shares[..|shares| - 1]) + shares[|shares| - 1].rate
  }

  /** The stored shares' parts of a line item, added up share by share. */
  function StoredParts(total: real, shares: seq<Share>): real {
    if shares == [] then 0.0 else StoredParts(total, shares[..|shares| - 1]) + ShareAmount(total, shares[|shares| - 1].rate)
  }

  /** The upserted shares' parts of a line item, added up share by share. */
  function UpsertParts(total: real, shares: seq<ShareUpsert>): real {
    if shares == [] then 0.0 else UpsertParts(total, shares[..|shares| - 1]) + ShareAmount(total, shares[|shares| - 1].rate)
  }

  /** Parts add up like the rates do: `total * (a + b) == total * a + total * b`. */
  lemma Distribute(total: real, a: real, b: real, c: real)
    requires c == a + b
    ensures total * c == total * a + ShareAmount(total, b)
  {
  }

  lemma {:induction false} StoredPartsRates(total: real, shares: seq<Share>)
    ensures StoredParts(total, shares) == total * StoredRates(shares)
  {
    if shares != [] {
      var init := shares[..|shares| - 1];
      StoredPartsRates(total, init);
      Distribute(total, StoredRates(init), shares[|shares| - 1].rate, StoredRates(shares));
    }
  }

  lemma {:induction false} UpsertPartsRates(total: real, shares: seq<ShareUpsert>)
    ensures UpsertParts(total, shares) == total * SumRates(shares)
  {
    if shares != [] {
      var init := shares[..|shares| - 1];
      UpsertPartsRates(total, init);
      Distribute(total, SumRates(init), shares[|shares| - 1].rate, SumRates(shares));
    }
  }

  lemma {:induction false} ReverseSharesParts(total: real, shares: seq<Share>)
    ensures TotalPosted(ReverseShares(total, shares)) == StoredParts(total, shares)
  {
    if shares != [] {
      ReverseSharesParts(total, shares[..|shares| - 1]);
      var ps := ReverseShares(total, shares);
      assert ps[..|ps| - 1] == ReverseShares(total, shares[..|shares| - 1]);
    }
  }

  lemma {:induction false} ApplySharesParts(total: real, shares: seq<ShareUpsert>)
    ensures TotalPosted(ApplyShares(total, shares)) == -UpsertParts(total, shares)
  {
    if shares != [] {
      ApplySharesParts(total, shares[..|shares| - 1]);
      var ps := ApplyShares(total, shares);
      assert ps[..|ps| - 1] == ApplyShares(total, shares[..|shares| - 1]);
    }
  }

  /** Taking a line item back gives its holders `totalPrice` times the sum of their rates. */
  lemma ReverseSharesTotal(total: real, shares: seq<Share>)
    ensures TotalPosted(ReverseShares(total, shares)) == total * StoredRates(shares)
  {
    ReverseSharesParts(total, shares);
    StoredPartsRates(total, shares);
  }

  /** Applying a line item takes `totalPrice` times the sum of their rates from its holders. */
  lemma ApplySharesTotal(total: real, shares: seq<ShareUpsert>)
    ensures TotalPosted(ApplyShares(total, shares)) == -(total * SumRates(shares))
  {
    ApplySharesParts(total, shares);
    UpsertPartsRates(total, shares);
  }

  /** A stored purchase whose every line item is shared out completely. */
  predicate FullyShared(ds: seq<PurchaseDetail>) {
    forall k :: 0 <= k < |ds| ==> StoredRates(ds[k].shares) == 1.0
  }

  /** An upsert whose every line item has shares that are shared out completely. */
  predicate FullySharedUpsert(ds: seq<DetailUpsert>) {
    forall k :: 0 <= k < |ds| ==> ds[k].shares.Some? && SumRates(ds[k].shares.value) == 1.0
  }

  lemma {:induction false} ReversePostingsBalanced(payer: Id, ds: seq<PurchaseDetail>)
    requires FullyShared(ds)
    ensures TotalPosted(ReversePostings(payer, ds)) == 0.0
  {
    if ds != [] {
      var init, last := ds[..|ds| - 1], ds[|ds| - 1];
      ReversePostingsBalanced(payer, init);
      TotalPostedAppend(ReversePostings(payer, init), ReverseDetail(payer, last));
      TotalPostedAppend([Posting(payer, -last.totalPrice)], ReverseShares(last.totalPrice, last.shares));
      ReverseSharesTotal(last.totalPrice, last.shares);
      assert [Posting(payer, -last.totalPrice)][..0] == [];
      assert StoredRates(last.shares) == 1.0;
    }
  }

  lemma {:induction false} ApplyPostingsBalanced(payer: Id, ds: seq<DetailUpsert>)
    requires FullySharedUpsert(ds)
    ensures TotalPosted(ApplyPostings(payer, ds)) == 0.0
  {
    if ds != [] {
      var init, last := ds[..|ds| - 1], ds[|ds| - 1];
      ApplyPostingsBalanced(payer, init);
      TotalPostedAppend(ApplyPostings(payer, init), ApplyDetail(payer, last));
      TotalPostedAppend([Posting(payer, last.totalPrice)], ApplyShares(last.totalPrice, last.shares.value));
      ApplySharesTotal(last.totalPrice, last.shares.value);
      assert [Posting(payer, last.totalPrice)][..0] == [];
      assert SumRates(last.shares.value) == 1.0;
    }
  }

  /**
   * An upsert moves money between persons and creates none: when the persons' ids are
   * distinct and every line item, old and new, is shared out completely, the balances
   * in the map still add up to the persons' total.
   */
  lemma UpsertConserves(persons: seq<Person>, p: PurchaseUpsert, previous: Option<Purchase>)
    requires forall a, b :: 0 <= a < b < |persons| ==> persons[a].id != persons[b].id
    requires FullySharedUpsert(p.details)
    requires previous.Some? ==> FullyShared(previous.value.details)
    ensures SumValues(UpsertBalances(persons, p, previous)) == TotalBalance(persons)
  {
    var m := BalanceMap(persons);
    BalanceMapSum(persons);
    ApplyPostingsBalanced(p.paidBy, p.details);
    if previous.Some? {
      var o := previous.value;
      ReversePostingsBalanced(o.paidBy, o.details);
      PostSum(m, ReversePostings(o.paidBy, o.details));
      PostValid(m, ReversePostings(o.paidBy, o.details));
      PostSum(Post(m, ReversePostings(o.paidBy, o.details)), ApplyPostings(p.paidBy, p.details));
    } else {
      PostSum(m, ApplyPostings(p.paidBy, p.details));
    }
  }

  /** Deleting a completely shared purchase keeps the total too. */
  lemma DeleteConserves(persons: seq<Person>, stored: Purchase)
    requires forall a, b :: 0 <= a < b < |persons| ==> persons[a].id != persons[b].id
    requires FullyShared(stored.details)
    ensures SumValues(DeleteBalances(persons, stored)) == TotalBalance(persons)
  {
    BalanceMapSum(persons);
    ReversePostingsBalanced(stored.paidBy, stored.details);
    PostSum(BalanceMap(persons), ReversePostings(stored.paidBy, stored.details));
  }

  // ---------------------------------------------------------------------------
  // Taking a purchase back undoes it

  function Negate(ps: seq<Posting>): (r: seq<Posting>)
    ensures |r| == |ps|
    ensures forall k :: 0 <= k < |ps| ==> r[k] == Posting(ps[k].personId, -ps[k].amount)
  {
    seq(|ps|, k requires 0 <= k < |ps| => Posting(ps[k].personId, -ps[k].amount))
  }

  lemma {:induction false} NegateAmounts(ps: seq<Posting>, id: Id)
    ensures AmountFor(Negate(ps), id) == -AmountFor(ps, id)
    ensures Posted(Negate(ps), id) <==> Posted(ps, id)
  {
    if ps != [] {
      var init := ps[..|ps| - 1];
      NegateAmounts(init, id);
      assert Negate(ps)[..|ps| - 1] == Negate(init);
    }
    if Posted(ps, id) {
      var k :| 0 <= k < |ps| && ps[k].personId == id;
      assert Negate(ps)[k].personId == id;
    }
    if Posted(Negate(ps), id) {
      var k :| 0 <= k < |ps| && Negate(ps)[k].personId == id;
      assert ps[k].personId == id;
    }
  }

  /**
   * Postings followed by their negation leave every id with its old balance; an id
   * that was missing and got posted to is left at zero.
   */
  lemma PostThenNegate(m: Map<real>, ps: seq<Posting>, id: Id)
    ensures Get(Post(Post(m, ps), Negate(ps)), id) ==
      if id in m.values || Posted(ps, id) then Some(Get(m, id).GetOr(0.0)) else None
  {
    var mid := Post(m, ps);
    PostGet(m, ps, id);
    PostGet(mid, Negate(ps), id);
    NegateAmounts(ps, id);
    if id in m.values || Posted(ps, id) {
      assert Get(mid, id).GetOr(0.0) == Get(m, id).GetOr(0.0) + AmountFor(ps, id);
    }
  }

  /** The stored shares `s` name the holders of the upsert's shares `u` with their rates, in order. */
  predicate SameHolders(u: seq<ShareUpsert>, s: seq<Share>) {
    |u| == |s| && forall k :: 0 <= k < |s| ==> s[k].personId == u[k].personId && s[k].rate == u[k].rate
  }

  /**
   * The stored line item `s` is what the upsert's line item `u` became: the same name,
   * quantity, price and tax rate, and the same holders with the same rates. Its total
   * is not part of this: the read path recomputes it.
   */
  predicate StoredAs(u: DetailUpsert, s: PurchaseDetail) {
    && s.itemName == u.itemName && s.quantity == u.quantity && s.price == u.price && s.taxRate == u.taxRate
    && u.shares.Some? && SameHolders(u.shares.value, s.shares)
  }

  /** The stored purchase `s` is what the upsert `u` became. */
  predicate Persisted(u: PurchaseUpsert, s: Purchase) {
    && s.paidBy == u.paidBy && |s.details| == |u.details|
    && forall k :: 0 <= k < |s.details| ==> StoredAs(u.details[k], s.details[k])
  }

  /** Each stored line item carries the total the upsert's line item applied. */
  predicate SameTotals(u: seq<DetailUpsert>, s: seq<PurchaseDetail>) {
    |u| == |s| && forall k :: 0 <= k < |s| ==> s[k].totalPrice == u[k].totalPrice
  }

  /**
   * The total the upsert form gives a line item whenever its quantity, price or tax
   * rate is edited: quantity times price, plus `taxRate` percent.
   */
  function FormLineTotal(d: DetailUpsert): real {
    d.quantity * d.price * (1.0 + d.taxRate / 100.0)
  }

  /** Negating postings one by one: the negation of a list with one more posting. */
  lemma NegateSnoc(a: seq<Posting>, x: Posting)
    ensures Negate(a + [x]) == Negate(a) + [Posting(x.personId, -x.amount)]
  {
    var l, r := Negate(a + [x]), Negate(a) + [Posting(x.personId, -x.amount)];
    assert |l| == |r|;
    forall k | 0 <= k < |l| ensures l[k] == r[k] {
      if k < |a| {
        assert (a + [x])[k] == a[k];
      }
    }
  }

  lemma {:induction false} ReverseSharesNegate(total: real, u: seq<ShareUpsert>, s: seq<Share>)
    requires SameHolders(u, s)
    ensures ReverseShares(total, s) == Negate(ApplyShares(total, u))
  {
    if s != [] {
      var ui, si := u[..|u| - 1], s[..|s| - 1];
      assert SameHolders(ui, si);
      ReverseSharesNegate(total, ui, si);
      var ul, sl := u[|u| - 1], s[|s| - 1];
      var x := Posting(ul.personId, -ShareAmount(total, ul.rate));
      NegateSnoc(ApplyShares(total, ui), x);
      assert Posting(x.personId, -x.amount) == Posting(sl.personId, ShareAmount(total, sl.rate));
    }
  }

  lemma NegateAppend(a: seq<Posting>, b: seq<Posting>)
    ensures Negate(a + b) == Negate(a) + Negate(b)
  {
    var l, r := Negate(a + b), Negate(a) + Negate(b);
    forall k | 0 <= k < |l| ensures l[k] == r[k] {
      if k < |a| {
        assert (a + b)[k] == a[k];
      } else {
        assert (a + b)[k] == b[k - |a|];
      }
    }
  }

  /** Taking a stored line item back undoes applying the upsert's line item it was stored from. */
  lemma ReverseDetailNegate(payer: Id, u: DetailUpsert, s: PurchaseDetail)
    requires StoredAs(u, s) && s.totalPrice == u.totalPrice
    ensures ReverseDetail(payer, s) == Negate(ApplyDetail(payer, u))
  {
    ReverseSharesNegate(s.totalPrice, u.shares.value, s.shares);
    NegateAppend([Posting(payer, u.totalPrice)], ApplyShares(u.totalPrice, u.shares.value));
  }

  lemma {:induction false} ReversePostingsNegate(payer: Id, u: seq<DetailUpsert>, s: seq<PurchaseDetail>)
    requires |u| == |s|
    requires forall k :: 0 <= k < |s| ==> StoredAs(u[k], s[k])
    requires SameTotals(u, s)
    ensures ReversePostings(payer, s) == Negate(ApplyPostings(payer, u))
  {
    if s != [] {
      var ui, si := u[..|u| - 1], s[..|s| - 1];
      assert SameTotals(ui, si);
      ReversePostingsNegate(payer, ui, si);
      ReverseDetailNegate(payer, u[|u| - 1], s[|s| - 1]);
      NegateAppend(ApplyPostings(payer, ui), ApplyDetail(payer, u[|u| - 1]));
    }
  }

  // ---------------------------------------------------------------------------
  // The order of the postings, and of the rows read back, does not matter

  /** Taking one element out of a sequence takes it out of its multiset. */
  lemma MultisetRemove<T>(s: seq<T>, j: nat)
    requires j < |s|
    ensures multiset(s[..j] + s[j + 1..]) == multiset(s) - multiset{s[j]}
  {
    assert s == s[..j] + [s[j]] + s[j + 1..];
  }

  lemma {:induction false} AmountForAppend(a: seq<Posting>, b: seq<Posting>, id: Id)
    ensures AmountFor(a + b, id) == AmountFor(a, id) + AmountFor(b, id)
  {
    if b == [] {
      assert a + b == a;
    } else {
      var ab := a + b;
      assert ab[..|ab| - 1] == a + b[..|b| - 1];
      assert ab[|ab| - 1] == b[|b| - 1];
      AmountForAppend(a, b[..|b| - 1], id);
    }
  }

  /** The postings to an id add up to the same amount in any order. */
  lemma {:induction false} AmountForReordered(ps: seq<Posting>, qs: seq<Posting>, id: Id)
    requires multiset(ps) == multiset(qs)
    ensures AmountFor(ps, id) == AmountFor(qs, id)
    decreases |ps|
  {
    if ps == [] {
      assert |qs| == |multiset(qs)|;
    } else {
      var init, last := ps[..|ps| - 1], ps[|ps| - 1];
      assert ps == init + [last];
      assert last in multiset(qs);
      var j :| 0 <= j < |qs| && qs[j] == last;
      var l, r := qs[..j], qs[j + 1..];
      assert qs == l + [last] + r;
      MultisetRemove(ps, |ps| - 1);
      MultisetRemove(qs, j);
      assert ps[..|ps| - 1] + ps[|ps|..] == init;
      AmountForReordered(init, l + r, id);
      AmountForAppend(l + [last], r, id);
      AmountForAppend(l, [last], id);
      AmountForAppend(l, r, id);
      AmountForAppend(init, [last], id);
      assert [last][..0] == [];
    }
  }

  lemma PostedReordered(ps: seq<Posting>, qs: seq<Posting>, id: Id)
    requires multiset(ps) == multiset(qs)
    ensures Posted(ps, id) <==> Posted(qs, id)
  {
    if Posted(ps, id) {
      var k :| 0 <= k < |ps| && ps[k].personId == id;
      assert ps[k] in multiset(qs);
      var j :| 0 <= j < |qs| && qs[j] == ps[k];
    }
    if Posted(qs, id) {
      var k :| 0 <= k < |qs| && qs[k].personId == id;
      assert qs[k] in multiset(ps);
      var j :| 0 <= j < |ps| && ps[j] == qs[k];
    }
  }

  /** The balances postings leave depend only on which postings there are, not on their order. */
  lemma PostReordered(m: Map<real>, ps: seq<Posting>, qs: seq<Posting>, id: Id)
    requires multiset(ps) == multiset(qs)
    ensures Get(Post(m, ps), id) == Get(Post(m, qs), id)
  {
    PostGet(m, ps, id);
    PostGet(m, qs, id);
    AmountForReordered(ps, qs, id);
    PostedReordered(ps, qs, id);
  }

  lemma UnionSwap<U>(a: multiset<U>, b: multiset<U>, c: multiset<U>)
    ensures a + b + c == a + c + b
  {
  }

  /** The lists `f` gives the elements of `xs`, one after another. */
  function Concat<T, U>(f: T -> seq<U>, xs: seq<T>): seq<U> {
    if xs == [] then [] else Concat(f, xs[..|xs| - 1]) + f(xs[|xs| - 1])
  }

  lemma {:induction false} ConcatAppend<T, U>(f: T -> seq<U>, a: seq<T>, b: seq<T>)
    ensures Concat(f, a + b) == Concat(f, a) + Concat(f, b)
  {
    if b == [] {
      assert a + b == a;
    } else {
      var ab, init := a + b, b[..|b| - 1];
      assert ab[..|ab| - 1] == a + init;
      assert ab[|ab| - 1] == b[|b| - 1];
      ConcatAppend(f, a, init);
    }
  }

  /** The elements in another order give the same elements, in another order. */
  lemma {:induction false} ConcatReordered<T, U>(f: T -> seq<U>, a: seq<T>, b: seq<T>)
    requires multiset(a) == multiset(b)
    ensures multiset(Concat(f, a)) == multiset(Concat(f, b))
    decreases |a|
  {
    if a == [] {
      assert |b| == |multiset(b)|;
    } else {
      var init, last := a[..|a| - 1], a[|a| - 1];
      assert last in multiset(b);
      var j :| 0 <= j < |b| && b[j] == last;
      var l, r := b[..j], b[j + 1..];
      assert b == l + [last] + r;
      MultisetRemove(a, |a| - 1);
      MultisetRemove(b, j);
      assert a[..|a| - 1] + a[|a|..] == init;
      ConcatReordered(f, init, l + r);
      ConcatAppend(f, l + [last], r);
      ConcatAppend(f, l, [last]);
      ConcatAppend(f, l, r);
      var cl, cr, x := Concat(f, l), Concat(f, r), f(last);
      assert Concat(f, [last]) == Concat(f, []) + x;
      calc {
        multiset(Concat(f, a));
        multiset(Concat(f, init) + x);
        multiset(Concat(f, init)) + multiset(x);
        multiset(cl + cr) + multiset(x);
        multiset(cl) + multiset(cr) + multiset(x);
        { UnionSwap(multiset(cl), multiset(cr), multiset(x)); }
        multiset(cl) + multiset(x) + multiset(cr);
        multiset(cl + x + cr);
        multiset(Concat(f, b));
      }
    }
  }

  /** Concatenating one-element lists lists their elements. */
  lemma {:induction false} ConcatSingletons<T, U>(f: T -> seq<U>, xs: seq<T>)
    requires forall x :: |f(x)| == 1
    ensures |Concat(f, xs)| == |xs|
    ensures forall k :: 0 <= k < |xs| ==> Concat(f, xs)[k] == f(xs[k])[0]
  {
    if xs != [] {
      ConcatSingletons(f, xs[..|xs| - 1]);
    }
  }

  /** Taking shares back is taking each one back in turn. */
  lemma {:induction false} ReverseSharesConcat(total: real, shares: seq<Share>)
    ensures ReverseShares(total, shares) == Concat((s: Share) => [Posting(s.personId, ShareAmount(total, s.rate))], shares)
  {
    if shares != [] {
      ReverseSharesConcat(total, shares[..|shares| - 1]);
    }
  }

  /** Shares in another order are taken back by the same postings, in another order. */
  lemma ReverseSharesReordered(total: real, a: seq<Share>, b: seq<Share>)
    requires multiset(a) == multiset(b)
    ensures multiset(ReverseShares(total, a)) == multiset(ReverseShares(total, b))
  {
    ReverseSharesConcat(total, a);
    ReverseSharesConcat(total, b);
    ConcatReordered((s: Share) => [Posting(s.personId, ShareAmount(total, s.rate))], a, b);
  }

  lemma {:induction false} ReversePostingsAppend(payer: Id, a: seq<PurchaseDetail>, b: seq<PurchaseDetail>)
    ensures ReversePostings(payer, a + b) == ReversePostings(payer, a) + ReversePostings(payer, b)
  {
    if b == [] {
      assert a + b == a;
    } else {
      var ab := a + b;
      assert ab[..|ab| - 1] == a + b[..|b| - 1];
      assert ab[|ab| - 1] == b[|b| - 1];
      var init, last := b[..|b| - 1], b[|b| - 1];
      ReversePostingsAppend(payer, a, init);
      calc {
        ReversePostings(payer, ab);
        ReversePostings(payer, a + init) + ReverseDetail(payer, last);
        (ReversePostings(payer, a) + ReversePostings(payer, init)) + ReverseDetail(payer, last);
        ReversePostings(payer, a) + (ReversePostings(payer, init) + ReverseDetail(payer, last));
      }
    }
  }

  /** Share rows in another order: taking one read-back line item back posts the same, in another order. */
  lemma FetchedDetailReversal(payer: Id, d: PurchaseDetail, a: seq<Share>, b: seq<Share>)
    requires multiset(a) == multiset(b)
    ensures multiset(ReverseDetail(payer, FetchedDetail(d, a))) == multiset(ReverseDetail(payer, FetchedDetail(d, b)))
  {
    var t, sa, sb := LineTotal(d), SharesOf(a, d.id), SharesOf(b, d.id);
    assert FetchedDetail(d, a).totalPrice == t && FetchedDetail(d, a).shares == sa;
    assert FetchedDetail(d, b).totalPrice == t && FetchedDetail(d, b).shares == sb;
    SharesOfReordered(a, b, d.id);
    ReverseSharesReordered(t, sa, sb);
    assert ReverseDetail(payer, FetchedDetail(d, a)) == [Posting(payer, -t)] + ReverseShares(t, sa);
    assert ReverseDetail(payer, FetchedDetail(d, b)) == [Posting(payer, -t)] + ReverseShares(t, sb);
  }

  /** Share rows in another order: taking the read-back line items back posts the same, in another order. */
  lemma {:induction false} FetchedReversalByShares(payer: Id, details: seq<PurchaseDetail>, a: seq<Share>, b: seq<Share>)
    requires multiset(a) == multiset(b)
    ensures multiset(ReversePostings(payer, FetchedDetails(details, a))) ==
      multiset(ReversePostings(payer, FetchedDetails(details, b)))
  {
    if details != [] {
      var init, last := details[..|details| - 1], details[|details| - 1];
      FetchedReversalByShares(payer, init, a, b);
      assert details == init + [last];
      FetchedDetailsAppend(init, [last], a);
      FetchedDetailsAppend(init, [last], b);
      var xa, xb := FetchedDetails([last], a), FetchedDetails([last], b);
      assert xa == [FetchedDetail(last, a)] && xb == [FetchedDetail(last, b)];
      ReversePostingsAppend(payer, FetchedDetails(init, a), xa);
      ReversePostingsAppend(payer, FetchedDetails(init, b), xb);
      assert ReversePostings(payer, xa) == ReverseDetail(payer, FetchedDetail(last, a));
      assert ReversePostings(payer, xb) == ReverseDetail(payer, FetchedDetail(last, b));
      FetchedDetailReversal(payer, last, a, b);
    }
  }

  /** Taking line items back is taking each one back in turn. */
  lemma {:induction false} ReversePostingsConcat(payer: Id, ds: seq<PurchaseDetail>)
    ensures ReversePostings(payer, ds) == Concat((d: PurchaseDetail) => ReverseDetail(payer, d), ds)
  {
    if ds != [] {
      ReversePostingsConcat(payer, ds[..|ds| - 1]);
    }
  }

  /** The line items read back are the rows, each read back in turn. */
  lemma FetchedDetailsConcat(rows: seq<PurchaseDetail>, shares: seq<Share>)
    ensures FetchedDetails(rows, shares) == Concat((d: PurchaseDetail) => [FetchedDetail(d, shares)], rows)
  {
    var f := (d: PurchaseDetail) => [FetchedDetail(d, shares)];
    ConcatSingletons(f, rows);
    var l, r := FetchedDetails(rows, shares), Concat(f, rows);
    forall k | 0 <= k < |rows| ensures l[k] == r[k] {
      assert r[k] == f(rows[k])[0];
    }
  }

  /** Line item rows in another order are read back as the same line items, in another order. */
  lemma FetchedDetailsReordered(a: seq<PurchaseDetail>, b: seq<PurchaseDetail>, shares: seq<Share>)
    requires multiset(a) == multiset(b)
    ensures multiset(FetchedDetails(a, shares)) == multiset(FetchedDetails(b, shares))
  {
    FetchedDetailsConcat(a, shares);
    FetchedDetailsConcat(b, shares);
    ConcatReordered((d: PurchaseDetail) => [FetchedDetail(d, shares)], a, b);
  }

  /** Line item rows in another order: taking the read-back line items back posts the same, in another order. */
  lemma FetchedReversalByRows(payer: Id, a: seq<PurchaseDetail>, b: seq<PurchaseDetail>, shares: seq<Share>)
    requires multiset(a) == multiset(b)
    ensures multiset(ReversePostings(payer, FetchedDetails(a, shares))) ==
      multiset(ReversePostings(payer, FetchedDetails(b, shares)))
  {
    var fa, fb := FetchedDetails(a, shares), FetchedDetails(b, shares);
    FetchedDetailsReordered(a, b, shares);
    ReversePostingsConcat(payer, fa);
    ReversePostingsConcat(payer, fb);
    ConcatReordered((d: PurchaseDetail) => ReverseDetail(payer, d), fa, fb);
  }

  /**
   * Reading the same rows back in any order gives a purchase whose reversal posts the
   * same postings, in another order, on behalf of the same payer.
   */
  lemma ReadReversalReordered(rows: PurchaseRows, read: PurchaseRows)
    requires SameRows(rows, read)
    ensures CompletePurchase(read).paidBy == CompletePurchase(rows).paidBy
    ensures multiset(ReversePostings(CompletePurchase(read).paidBy, CompletePurchase(read).details)) ==
      multiset(ReversePostings(CompletePurchase(rows).paidBy, CompletePurchase(rows).details))
  {
    var payer := rows.purchase.paidBy;
    FetchedReversalByShares(payer, read.details, read.shares, rows.shares);
    FetchedReversalByRows(payer, read.details, rows.details, rows.shares);
  }

  /**
   * Reading back a purchase stored from an upsert whose line totals are the form's
   * recomputes exactly those totals.
   */
  lemma ReadBackTotals(u: PurchaseUpsert, rows: PurchaseRows)
    requires forall k :: 0 <= k < |u.details| ==> u.details[k].totalPrice == FormLineTotal(u.details[k])
    requires Persisted(u, CompletePurchase(rows))
    ensures SameTotals(u.details, CompletePurchase(rows).details)
  {
    var s := CompletePurchase(rows).details;
    forall k | 0 <= k < |s| ensures s[k].totalPrice == u.details[k].totalPrice {
      var r, d := rows.details[k], u.details[k];
      assert s[k].(totalPrice := r.totalPrice, shares := r.shares) == r;
      assert (r.quantity, r.price, r.taxRate) == (d.quantity, d.price, d.taxRate);
      assert LineTotal(r) == FormLineTotal(d);
    }
  }

  /**
   * Deleting a purchase right after creating it restores every balance of the map the
   * creation started from (ids the purchase added are left at zero). `rows` are the
   * rows the creation stored, in the upsert's order; the delete reads back `read`, the
   * same rows in whatever order the queries return them, with the line totals
   * recomputed, so the upsert's line totals must be the form's.
   */
  lemma DeleteUndoesCreate(m: Map<real>, u: PurchaseUpsert, rows: PurchaseRows, read: PurchaseRows, id: Id)
    requires forall k :: 0 <= k < |u.details| ==> u.details[k].totalPrice == FormLineTotal(u.details[k])
    requires Persisted(u, CompletePurchase(rows))
    requires SameRows(rows, read)
    ensures var created := Post(m, ApplyPostings(u.paidBy, u.details));
      var stored := CompletePurchase(read);
      Get(Post(created, ReversePostings(stored.paidBy, stored.details)), id) ==
        if id in m.values || Posted(ApplyPostings(u.paidBy, u.details), id) then Some(Get(m, id).GetOr(0.0)) else None
  {
    var inOrder, stored := CompletePurchase(rows), CompletePurchase(read);
    var ap := ApplyPostings(u.paidBy, u.details);
    ReadBackTotals(u, rows);
    ReversePostingsNegate(u.paidBy, u.details, inOrder.details);
    PostThenNegate(m, ap, id);
    ReadReversalReordered(rows, read);
    var rs, rsRead := ReversePostings(inOrder.paidBy, inOrder.details), ReversePostings(stored.paidBy, stored.details);
    PostAppend(m, ap, rs);
    PostAppend(m, ap, rsRead);
    PostReordered(m, ap + rsRead, ap + rs, id);
  }

  /**
   * Updating a purchase with an upsert it is what became of, totals included, leaves
   * every balance as it was: the update takes it back and applies it again.
   */
  lemma ResaveKeepsBalances(persons: seq<Person>, u: PurchaseUpsert, s: Purchase, id: Id)
    requires Persisted(u, s) && SameTotals(u.details, s.details)
    ensures Get(UpsertBalances(persons, u, Some(s)), id) ==
        if id in Ids(persons) || Posted(ReversePostings(s.paidBy, s.details), id)
        then Some(Get(BalanceMap(persons), id).GetOr(0.0)) else None
  {
    ReversePostingsNegate(s.paidBy, u.details, s.details);
    var rs := ReversePostings(s.paidBy, s.details);
    assert ApplyPostings(u.paidBy, u.details) == Negate(rs) by {
      var ap := ApplyPostings(u.paidBy, u.details);
      assert Negate(Negate(ap)) == ap;
    }
    PostThenNegate(BalanceMap(persons), rs, id);
  }

  /**
   * The same when the update reads the stored purchase back from its rows in another
   * order than the one `u` is what became of.
   */
  lemma ResaveKeepsBalancesInAnyOrder(persons: seq<Person>, u: PurchaseUpsert, rows: PurchaseRows, read: PurchaseRows, id: Id)
    requires Persisted(u, CompletePurchase(rows)) && SameTotals(u.details, CompletePurchase(rows).details)
    requires SameRows(rows, read)
    ensures var s := CompletePurchase(rows);
      Get(UpsertBalances(persons, u, Some(CompletePurchase(read))), id) ==
        if id in Ids(persons) || Posted(ReversePostings(s.paidBy, s.details), id)
        then Some(Get(BalanceMap(persons), id).GetOr(0.0)) else None
  {
    var s, stored := CompletePurchase(rows), CompletePurchase(read);
    ResaveKeepsBalances(persons, u, s, id);
    ReadReversalReordered(rows, read);
    var m, ap := BalanceMap(persons), ApplyPostings(u.paidBy, u.details);
    var rs, rsRead := ReversePostings(s.paidBy, s.details), ReversePostings(stored.paidBy, stored.details);
    PostAppend(m, rs, ap);
    PostAppend(m, rsRead, ap);
    PostReordered(m, rsRead + ap, rs + ap, id);
  }

  /** The edit form of a stored purchase is an upsert that the stored purchase is what it became. */
  lemma EditFormPersisted(s: Purchase, formPersons: seq<Person>)
    ensures var edit := ConstructPurchaseCreateFromPurchase(s, formPersons);
      Persisted(edit, s) && SameTotals(edit.details, s.details)
  {
  }

  /**
   * An upsert whose payload is the edit form of a stored purchase, as constructed,
   * leaves every balance as it was.
   */
  lemma UnchangedEditKeepsBalances(persons: seq<Person>, s: Purchase, formPersons: seq<Person>, id: Id)
    ensures var edit := ConstructPurchaseCreateFromPurchase(s, formPersons);
      Get(UpsertBalances(persons, edit, Some(s)), id) ==
        if id in Ids(persons) || Posted(ReversePostings(s.paidBy, s.details), id)
        then Some(Get(BalanceMap(persons), id).GetOr(0.0)) else None
  {
    EditFormPersisted(s, formPersons);
    ResaveKeepsBalances(persons, ConstructPurchaseCreateFromPurchase(s, formPersons), s, id);
  }

  /** The edit form after `populatePurchaseDetailShares`, as the form posts it. */
  function SavedEditForm(s: Purchase, formPersons: seq<Person>): (r: PurchaseUpsert)
    ensures |r.details| == |s.details|
  {
    var edit := ConstructPurchaseCreateFromPurchase(s, formPersons);
    edit.(details := seq(|edit.details|, k requires 0 <= k < |edit.details| => Populated(edit.details[k], formPersons)))
  }

  /**
   * The edit form as posted is an upsert that the stored purchase is what it became,
   * when each stored line item's shares are the equal shares its selection gives the
   * form's persons (as when it was saved from that form over the same persons).
   */
  lemma SavedEditFormPersisted(s: Purchase, formPersons: seq<Person>)
    requires forall k :: 0 <= k < |s.details| ==>
      SameHolders(SharesFor(SelectionOf(s.details[k], formPersons), formPersons), s.details[k].shares)
    ensures Persisted(SavedEditForm(s, formPersons), s) && SameTotals(SavedEditForm(s, formPersons).details, s.details)
  {
    var saved := SavedEditForm(s, formPersons);
    forall k | 0 <= k < |s.details| ensures StoredAs(saved.details[k], s.details[k]) {
      assert saved.details[k].sharesBoolean == SelectionOf(s.details[k], formPersons);
    }
  }

  /** Saving the edit form of a stored purchase unchanged leaves every balance as it was. */
  lemma SavedUnchangedEditKeepsBalances(persons: seq<Person>, s: Purchase, formPersons: seq<Person>, id: Id)
    requires forall k :: 0 <= k < |s.details| ==>
      SameHolders(SharesFor(SelectionOf(s.details[k], formPersons), formPersons), s.details[k].shares)
    ensures Get(UpsertBalances(persons, SavedEditForm(s, formPersons), Some(s)), id) ==
        if id in Ids(persons) || Posted(ReversePostings(s.paidBy, s.details), id)
        then Some(Get(BalanceMap(persons), id).GetOr(0.0)) else None
  {
    SavedEditFormPersisted(s, formPersons);
    ResaveKeepsBalances(persons, SavedEditForm(s, formPersons), s, id);
  }

  /**
   * The same when the form was built from one read of the purchase's rows and the
   * update reads them back in another order.
   */
  lemma SavedUnchangedEditKeepsBalancesInAnyOrder(persons: seq<Person>, rows: PurchaseRows, read: PurchaseRows, formPersons: seq<Person>, id: Id)
    requires SameRows(rows, read)
    requires var s := CompletePurchase(rows); forall k :: 0 <= k < |s.details| ==>
      SameHolders(SharesFor(SelectionOf(s.details[k], formPersons), formPersons), s.details[k].shares)
    ensures var s := CompletePurchase(rows);
      Get(UpsertBalances(persons, SavedEditForm(s, formPersons), Some(CompletePurchase(read))), id) ==
        if id in Ids(persons) || Posted(ReversePostings(s.paidBy, s.details), id)
        then Some(Get(BalanceMap(persons), id).GetOr(0.0)) else None
  {
    var s := CompletePurchase(rows);
    SavedEditFormPersisted(s, formPersons);
    ResaveKeepsBalancesInAnyOrder(persons, SavedEditForm(s, formPersons), rows, read, id);
  }
}
