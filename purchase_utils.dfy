/**
 * The purchase helpers (src/utils/purchase.ts): line totals and the purchase total,
 * the validation of an upsert, the conversion of a line item's boolean selection into
 * equal shares, and the upsert payloads the forms start from.
 */
module PurchaseUtils {
  import opened Wrappers
  import opened Models

  // ---------------------------------------------------------------------------
  // Totals

  /** A line item's price: quantity times unit price, plus `taxRate` percent. */
  function LineTotal(d: PurchaseDetail): real {
    d.price * d.quantity * (1.0 + d.taxRate / 100.0)
  }

  /** The line item with its total recomputed and everything else kept. */
  function WithTotal(d: PurchaseDetail): (r: PurchaseDetail)
    ensures r.totalPrice == LineTotal(d)
    ensures r.(totalPrice := d.totalPrice) == d
  {
    d.(totalPrice := LineTotal(d))
  }

  /** `calculateTotalPrices`: overwrites every line item's total in place. */
  method CalculateTotalPrices(details: array<PurchaseDetail>)
    modifies details
    ensures forall k :: 0 <= k < details.Length ==> details[k] == WithTotal(old(details[k]))
  {
    for k := 0 to details.Length
      invariant forall m :: 0 <= m < k ==> details[m] == WithTotal(old(details[m]))
      invariant forall m :: k <= m < details.Length ==> details[m] == old(details[m])
    {
      details[k] := details[k].(totalPrice := details[k].price * details[k].quantity * (1.0 + details[k].taxRate / 100.0));
    }
  }

  /** Recomputing the totals twice gives what recomputing once gives. */
  lemma WithTotalIdempotent(d: PurchaseDetail)
    ensures WithTotal(WithTotal(d)) == WithTotal(d)
  {
  }

  /** A line item that passes validation costs a positive amount. */
  lemma LineTotalPositive(d: PurchaseDetail)
    requires d.quantity > 0.0 && d.price > 0.0 && d.taxRate >= 0.0
    ensures LineTotal(d) > 0.0
  {
    assert d.price * d.quantity > 0.0;
    assert 1.0 + d.taxRate / 100.0 >= 1.0;
  }

  /** `calculateTotalAmount`: the left fold `reduce((t, d) => t + d.total_price, 0)`. */
  function TotalAmount(details: seq<PurchaseDetail>): real {
    if details == [] then 0.0
    else TotalAmount(details[..|details| - 1]) + details[|details| - 1].totalPrice
  }

  /** The total of two lists of line items laid end to end is the sum of their totals. */
  lemma {:induction false} TotalAmountAppend(a: seq<PurchaseDetail>, b: seq<PurchaseDetail>)
    ensures TotalAmount(a + b) == TotalAmount(a) + TotalAmount(b)
  {
    if b != [] {
      var ab := a + b;
      assert ab != [];
      assert ab[..|ab| - 1] == a + b[..|b| - 1];
      assert ab[|ab| - 1] == b[|b| - 1];
      TotalAmountAppend(a, b[..|b| - 1]);
      assert TotalAmount(ab) == TotalAmount(a + b[..|b| - 1]) + b[|b| - 1].totalPrice;
      assert TotalAmount(b) == TotalAmount(b[..|b| - 1]) + b[|b| - 1].totalPrice;
    } else {
      assert a + b == a;
    }
  }

  /** The total of the line items is the total of their first item plus that of the rest. */
  lemma {:induction false} TotalAmountCons(d: PurchaseDetail, rest: seq<PurchaseDetail>)
    ensures TotalAmount([d] + rest) == d.totalPrice + TotalAmount(rest)
  {
    TotalAmountAppend([d], rest);
    assert [d][..0] == [];
  }

  // ---------------------------------------------------------------------------
  // Validation

  /** The reasons `validatePurchaseCreate` throws, in the order it checks them. */
  datatype PurchaseError =
    | NameEmpty | StoreEmpty | DateEmpty | PaidByEmpty | NoDetails
    | ItemNameEmpty | QuantityNotPositive | PriceNotPositive | TaxRateNegative | NoParticipant

  function Message(e: PurchaseError): string {
    match e
    case NameEmpty => "Name must not be empty"
    case StoreEmpty => "Store must not be empty"
    case DateEmpty => "Date must not be empty"
    case PaidByEmpty => "Paid by must not be empty"
    case NoDetails => "At least one purchase detail is required"
    case ItemNameEmpty => "Item name must not be empty"
    case QuantityNotPositive => "Quantity must be greater than 0"
    case PriceNotPositive => "Price must be greater than 0"
    case TaxRateNegative => "Tax rate must be greater than or equal to 0"
    case NoParticipant => "At least one person must buy this item"
  }

  /** The position of a check in the order the validator performs the checks of one object. */
  function Rank(e: PurchaseError): nat {
    match e
    case NameEmpty => 0
    case StoreEmpty => 1
    case DateEmpty => 2
    case PaidByEmpty => 3
    case NoDetails => 4
    case ItemNameEmpty => 5
    case QuantityNotPositive => 6
    case PriceNotPositive => 7
    case TaxRateNegative => 8
    case NoParticipant => 9
  }

  /** The errors raised by the checks of a single line item. */
  predicate IsDetailError(e: PurchaseError) {
    Rank(e) >= 5
  }

  /** `shares_boolean.every(share => !share)` is false: somebody is selected. */
  predicate AnySelected(flags: seq<bool>) {
    exists k :: 0 <= k < |flags| && flags[k]
  }

  /** The rule of a line item whose violation raises `e` (a purchase-level error constrains no line item). */
  predicate DetailObeys(d: DetailUpsert, e: PurchaseError) {
    match e
    case ItemNameEmpty => !IsBlank(d.itemName)
    case QuantityNotPositive => d.quantity > 0.0
    case PriceNotPositive => d.price > 0.0
    case TaxRateNegative => d.taxRate >= 0.0
    case NoParticipant => AnySelected(d.sharesBoolean)
    case _ => true
  }

  /** The rule of a purchase whose violation raises `e`; a line-item rule must hold of every line item. */
  predicate Obeys(p: PurchaseUpsert, e: PurchaseError) {
    match e
    case NameEmpty => !IsBlank(p.name)
    case StoreEmpty => !IsBlank(p.store)
    case DateEmpty => p.date.Some?
    case PaidByEmpty => !IsBlank(p.paidBy)
    case NoDetails => |p.details| > 0
    case _ => forall k :: 0 <= k < |p.details| ==> DetailObeys(p.details[k], e)
  }

  /** The checks of one line item: passes iff all its rules hold, else the first broken one. */
  function CheckDetail(d: DetailUpsert): (r: Outcome<PurchaseError>)
    ensures r.Pass? <==> forall e :: DetailObeys(d, e)
    ensures r.Fail? ==> IsDetailError(r.error) && !DetailObeys(d, r.error)
    ensures r.Fail? ==> forall e :: Rank(e) < Rank(r.error) ==> DetailObeys(d, e)
  {
    if IsBlank(d.itemName) then assert !DetailObeys(d, ItemNameEmpty); Fail(ItemNameEmpty)
    else if d.quantity <= 0.0 then assert !DetailObeys(d, QuantityNotPositive); Fail(QuantityNotPositive)
    else if d.price <= 0.0 then assert !DetailObeys(d, PriceNotPositive); Fail(PriceNotPositive)
    else if d.taxRate < 0.0 then assert !DetailObeys(d, TaxRateNegative); Fail(TaxRateNegative)
    else if !AnySelected(d.sharesBoolean) then assert !DetailObeys(d, NoParticipant); Fail(NoParticipant)
    else Pass
  }

  /** The verdict of the line items in order: the first failing one's error, or Pass. */
  function CheckDetails(ds: seq<DetailUpsert>): (r: Outcome<PurchaseError>)
    ensures r.Pass? <==> forall k :: 0 <= k < |ds| ==> CheckDetail(ds[k]).Pass?
    ensures r.Fail? ==>
      exists k :: 0 <= k < |ds| && CheckDetail(ds[k]) == r &&
        (forall m :: 0 <= m < k ==> CheckDetail(ds[m]).Pass?)
  {
    if ds == [] then Pass
    else if CheckDetail(ds[0]).Fail? then CheckDetail(ds[0])
    else
      var r := CheckDetails(ds[1..]);
      assert r.Fail? ==>
        exists k :: 0 <= k < |ds| && CheckDetail(ds[k]) == r &&
          (forall m :: 0 <= m < k ==> CheckDetail(ds[m]).Pass?) by {
        if r.Fail? {
          var k :| 0 <= k < |ds[1..]| && CheckDetail(ds[1..][k]) == r &&
            (forall m :: 0 <= m < k ==> CheckDetail(ds[1..][m]).Pass?);
          assert forall m :: 0 <= m < k + 1 ==> CheckDetail(ds[m]).Pass? by {
            forall m | 0 <= m < k + 1 ensures CheckDetail(ds[m]).Pass? {
              if m > 0 { assert ds[m] == ds[1..][m - 1]; }
            }
          }
          assert ds[k + 1] == ds[1..][k];
        }
      }
      assert (forall k :: 0 <= k < |ds| ==> CheckDetail(ds[k]).Pass?) <==>
        (forall k :: 0 <= k < |ds[1..]| ==> CheckDetail(ds[1..][k]).Pass?) by {
        if forall k :: 0 <= k < |ds[1..]| ==> CheckDetail(ds[1..][k]).Pass? {
          forall k | 0 <= k < |ds| ensures CheckDetail(ds[k]).Pass? {
            if k > 0 { assert ds[k] == ds[1..][k - 1]; }
          }
        }
      }
      r
  }

  /**
   * What `validatePurchaseCreate` decides: the purchase-level checks, then each line item
   * in order; a purchase-level error is a broken purchase rule, and every purchase rule
   * checked before it holds.
   */
  function CheckPurchase(p: PurchaseUpsert): (r: Outcome<PurchaseError>)
    ensures r.Fail? && !IsDetailError(r.error) ==>
      !Obeys(p, r.error) && forall e :: Rank(e) < Rank(r.error) ==> Obeys(p, e)
  {
    if IsBlank(p.name) then Fail(NameEmpty)
    else if IsBlank(p.store) then Fail(StoreEmpty)
    else if p.date.None? then Fail(DateEmpty)
    else if IsBlank(p.paidBy) then Fail(PaidByEmpty)
    else if |p.details| == 0 then Fail(NoDetails)
    else CheckDetails(p.details)
  }

  /** A purchase passes the checks exactly when it obeys every rule. */
  lemma CheckPurchasePass(p: PurchaseUpsert)
    ensures CheckPurchase(p).Pass? <==> forall e :: Obeys(p, e)
  {
    var ds := p.details;
    if forall e :: Obeys(p, e) {
      forall k | 0 <= k < |ds| ensures CheckDetail(ds[k]).Pass? {
        forall e ensures DetailObeys(ds[k], e) {
          if IsDetailError(e) { assert Obeys(p, e); }
        }
      }
      assert Obeys(p, NameEmpty) && Obeys(p, StoreEmpty) && Obeys(p, DateEmpty);
      assert Obeys(p, PaidByEmpty) && Obeys(p, NoDetails);
    }
    if CheckPurchase(p).Pass? {
      forall e ensures Obeys(p, e) {
        if IsDetailError(e) {
          forall k | 0 <= k < |ds| ensures DetailObeys(ds[k], e) {
            assert CheckDetail(ds[k]).Pass?;
          }
        }
      }
    }
  }

  /**
   * A line-item error comes after every purchase rule held, and it is the first error
   * of the first failing line item.
   */
  lemma CheckPurchaseItemError(p: PurchaseUpsert)
    ensures CheckPurchase(p).Fail? && IsDetailError(CheckPurchase(p).error) ==>
      (forall e :: !IsDetailError(e) ==> Obeys(p, e)) &&
      exists k :: 0 <= k < |p.details| && CheckDetail(p.details[k]) == CheckPurchase(p) &&
        forall m :: 0 <= m < k ==> CheckDetail(p.details[m]).Pass?
  {
    var r := CheckPurchase(p);
    if r.Fail? && IsDetailError(r.error) {
      assert r == CheckDetails(p.details);
      forall e | !IsDetailError(e) ensures Obeys(p, e) {
        match e
        case NameEmpty =>
        case StoreEmpty =>
        case DateEmpty =>
        case PaidByEmpty =>
        case NoDetails =>
        case _ => assert false;
      }
    }
  }

  /** `validatePurchaseCreate`: the purchase checks, then a loop over the line items that stops at the first failure. */
  method ValidatePurchaseCreate(p: PurchaseUpsert) returns (r: Outcome<PurchaseError>)
    ensures r == CheckPurchase(p)
  {
    if IsBlank(p.name) { return Fail(NameEmpty); }
    if IsBlank(p.store) { return Fail(StoreEmpty); }
    if p.date.None? { return Fail(DateEmpty); }
    if IsBlank(p.paidBy) { return Fail(PaidByEmpty); }
    if |p.details| == 0 { return Fail(NoDetails); }
    var k := 0;
    while k < |p.details|
      invariant 0 <= k <= |p.details|
      invariant CheckDetails(p.details) == CheckDetails(p.details[k..])
    {
      var d := p.details[k];
      assert p.details[k..][1..] == p.details[k + 1..];
      if IsBlank(d.itemName) { return Fail(ItemNameEmpty); }
      if d.quantity <= 0.0 { return Fail(QuantityNotPositive); }
      if d.price <= 0.0 { return Fail(PriceNotPositive); }
      if d.taxRate < 0.0 { return Fail(TaxRateNegative); }
      if !AnySelected(d.sharesBoolean) { return Fail(NoParticipant); }
      k := k + 1;
    }
    return Pass;
  }

  // ---------------------------------------------------------------------------
  // From the boolean selection to shares

  /**
   * `shares_boolean[k]` read as JavaScript does: beyond the end it is `undefined`,
   * which is falsy.
   */
  predicate Flag(flags: seq<bool>, k: nat) {
    k < |flags| && flags[k]
  }

  /** `shares_boolean.filter(share => share).length`. */
  function CountTrue(flags: seq<bool>): nat {
    if flags == [] then 0
    else CountTrue(flags[..|flags| - 1]) + if flags[|flags| - 1] then 1 else 0
  }

  /** The divisor: everybody when the item is communal, else the number of set flags. */
  function ShareCount(flags: seq<bool>, persons: nat): nat {
    if Flag(flags, 0) then persons else CountTrue(flags)
  }

  /** Person `i` takes part: the item is communal (flag 0) or person `i` is selected (flag i + 1). */
  predicate Participates(flags: seq<bool>, i: nat) {
    Flag(flags, 0) || Flag(flags, i + 1)
  }

  lemma {:induction false} CountTruePositive(flags: seq<bool>, k: nat)
    requires k < |flags| && flags[k]
    ensures CountTrue(flags) > 0
  {
    if k < |flags| - 1 {
      CountTruePositive(flags[..|flags| - 1], k);
    }
  }

  /** Whoever takes part makes the divisor positive, so `1 / shareCount` is never a division by zero. */
  lemma ParticipantCounted(flags: seq<bool>, persons: nat, i: nat)
    requires i < persons && Participates(flags, i)
    ensures ShareCount(flags, persons) > 0
  {
    if !Flag(flags, 0) {
      CountTruePositive(flags, i + 1);
    }
  }

  /**
   * `1 / shareCount`. The loop divides only for a participant, and then the divisor is
   * positive (`ParticipantCounted`), so JavaScript's `1 / 0` never reaches a share.
   */
  function EqualRate(count: nat): real {
    if count == 0 then 0.0 else 1.0 / count as real
  }

  /** The shares the loop over the first `n` persons has pushed. */
  function SharesUpTo(flags: seq<bool>, persons: seq<Person>, n: nat): (r: seq<ShareUpsert>)
    requires n <= |persons|
    ensures |r| <= n
  {
    if n == 0 then []
    else if Participates(flags, n - 1) then
      SharesUpTo(flags, persons, n - 1)
        + [ShareUpsert(None, persons[n - 1].id, EqualRate(ShareCount(flags, |persons|)))]
    else SharesUpTo(flags, persons, n - 1)
  }

  function SharesFor(flags: seq<bool>, persons: seq<Person>): seq<ShareUpsert> {
    SharesUpTo(flags, persons, |persons|)
  }

  /** The person ids of a list of shares that `some(share => share.person_id === id)` finds. */
  predicate HasShareOf(shares: seq<ShareUpsert>, id: Id) {
    exists k :: 0 <= k < |shares| && shares[k].personId == id
  }

  /**
   * Every share pushed belongs to a participating person and carries the equal rate
   * `1 / shareCount` and no detail id; every participating person got a share.
   */
  lemma {:induction false} SharesUpToMembers(flags: seq<bool>, persons: seq<Person>, n: nat)
    requires n <= |persons|
    ensures forall s :: s in SharesUpTo(flags, persons, n) ==>
      s.detailId.None? && ShareCount(flags, |persons|) > 0 &&
      s.rate == EqualRate(ShareCount(flags, |persons|)) &&
      exists i :: 0 <= i < n && Participates(flags, i) && persons[i].id == s.personId
    ensures forall i :: 0 <= i < n && Participates(flags, i) ==>
      HasShareOf(SharesUpTo(flags, persons, n), persons[i].id)
  {
    if n > 0 {
      SharesUpToMembers(flags, persons, n - 1);
      var prev := SharesUpTo(flags, persons, n - 1);
      var r := SharesUpTo(flags, persons, n);
      forall s | s in r
        ensures s.detailId.None? && ShareCount(flags, |persons|) > 0
        ensures s.rate == EqualRate(ShareCount(flags, |persons|))
        ensures exists i :: 0 <= i < n && Participates(flags, i) && persons[i].id == s.personId
      {
        if s !in prev {
          assert s == r[|r| - 1];
          ParticipantCounted(flags, |persons|, n - 1);
          assert Participates(flags, n - 1) && persons[n - 1].id == s.personId;
        }
      }
      forall i | 0 <= i < n && Participates(flags, i)
        ensures HasShareOf(r, persons[i].id)
      {
        if i < n - 1 {
          var k :| 0 <= k < |prev| && prev[k].personId == persons[i].id;
          assert r[k] == prev[k];
        } else {
          assert r[|r| - 1].personId == persons[i].id;
        }
      }
    }
  }

  /** The shares of the first `n` persons: one per participant. */
  lemma {:induction false} SharesUpToCount(flags: seq<bool>, persons: seq<Person>, n: nat)
    requires n <= |persons| && !Flag(flags, 0)
    ensures |SharesUpTo(flags, persons, n)| == CountTrue(flags[..if n + 1 < |flags| then n + 1 else |flags|])
  {
    if n == 0 {
      if flags != [] {
        assert flags[..1][..0] == [];
      } else {
        assert flags[..0] == [];
      }
    } else {
      SharesUpToCount(flags, persons, n - 1);
      if n < |flags| {
        assert flags[..n + 1][..n] == flags[..n];
      }
    }
  }

  /** The sum of the rates of a list of shares. */
  function SumRates(shares: seq<ShareUpsert>): real {
    if shares == [] then 0.0 else SumRates(shares[..|shares| - 1]) + shares[|shares| - 1].rate
  }

  lemma {:induction false} SumOfEqualRates(shares: seq<ShareUpsert>, rate: real)
    requires forall k :: 0 <= k < |shares| ==> shares[k].rate == rate
    ensures SumRates(shares) == |shares| as real * rate
  {
    if shares != [] {
      var rest := shares[..|shares| - 1];
      assert forall k :: 0 <= k < |rest| ==> rest[k] == shares[k];
      SumOfEqualRates(rest, rate);
      assert SumRates(shares) == |rest| as real * rate + rate;
      assert |shares| as real == |rest| as real + 1.0;
    }
  }

  /** Nobody takes part: no share is pushed. */
  lemma {:induction false} NoParticipantNoShares(flags: seq<bool>, persons: seq<Person>, n: nat)
    requires n <= |persons|
    requires forall i :: 0 <= i < n ==> !Participates(flags, i)
    ensures SharesUpTo(flags, persons, n) == []
  {
    if n > 0 {
      NoParticipantNoShares(flags, persons, n - 1);
    }
  }

  /** A communal item has one share per person. */
  lemma {:induction false} CommunalSharesUpTo(flags: seq<bool>, persons: seq<Person>, n: nat)
    requires n <= |persons| && Flag(flags, 0)
    ensures |SharesUpTo(flags, persons, n)| == n
  {
    if n > 0 {
      CommunalSharesUpTo(flags, persons, n - 1);
    }
  }

  /** With at most one flag per person, there are as many shares as the divisor counts. */
  lemma SharesForCount(flags: seq<bool>, persons: seq<Person>)
    requires |flags| <= |persons| + 1
    ensures |SharesFor(flags, persons)| == ShareCount(flags, |persons|)
  {
    if Flag(flags, 0) {
      CommunalSharesUpTo(flags, persons, |persons|);
    } else {
      SharesUpToCount(flags, persons, |persons|);
      assert flags[..|flags|] == flags;
    }
  }

  /** Every pushed share carries the same rate. */
  lemma {:induction false} SharesUpToRates(flags: seq<bool>, persons: seq<Person>, n: nat)
    requires n <= |persons|
    ensures forall k :: 0 <= k < |SharesUpTo(flags, persons, n)| ==>
      SharesUpTo(flags, persons, n)[k].rate == EqualRate(ShareCount(flags, |persons|))
  {
    if n > 0 {
      SharesUpToRates(flags, persons, n - 1);
      var prev, r := SharesUpTo(flags, persons, n - 1), SharesUpTo(flags, persons, n);
      forall k | 0 <= k < |prev| ensures r[k] == prev[k] { }
    }
  }

  /**
   * The rates of the pushed shares add up to one whenever somebody takes part and the
   * selection has (at most) one flag per person after the communal one, as the form
   * builds it.
   */
  lemma SharesForSumToOne(flags: seq<bool>, persons: seq<Person>, i: nat)
    requires |flags| <= |persons| + 1
    requires i < |persons| && Participates(flags, i)
    ensures SumRates(SharesFor(flags, persons)) == 1.0
  {
    var shares := SharesFor(flags, persons);
    var count := ShareCount(flags, |persons|);
    ParticipantCounted(flags, |persons|, i);
    SharesForCount(flags, persons);
    SharesUpToRates(flags, persons, |persons|);
    SumOfEqualRates(shares, EqualRate(count));
    assert count as real * EqualRate(count) == 1.0;
  }

  /** The inner loop of `populatePurchaseDetailShares`: the shares of one line item. */
  method SharesOfSelection(flags: seq<bool>, persons: seq<Person>) returns (shares: seq<ShareUpsert>)
    ensures shares == SharesFor(flags, persons)
  {
    var shareCount: nat;
    if Flag(flags, 0) {
      shareCount := |persons|;
    } else {
      shareCount := CountTrue(flags);
    }
    shares := [];
    for i := 0 to |persons|
      invariant shares == SharesUpTo(flags, persons, i)
    {
      if Flag(flags, 0) || Flag(flags, i + 1) {
        ParticipantCounted(flags, |persons|, i);
        shares := shares + [ShareUpsert(None, persons[i].id, 1.0 / shareCount as real)];
      }
    }
  }

  /** The line item with its shares filled in from its selection. */
  function Populated(d: DetailUpsert, persons: seq<Person>): (r: DetailUpsert)
    ensures r.shares == Some(SharesFor(d.sharesBoolean, persons))
    ensures r.(shares := d.shares) == d
  {
    d.(shares := Some(SharesFor(d.sharesBoolean, persons)))
  }

  /** `populatePurchaseDetailShares`: fills in every line item's shares; nothing else changes. */
  method PopulatePurchaseDetailShares(p: PurchaseUpsert, persons: seq<Person>) returns (r: PurchaseUpsert)
    ensures r.(details := p.details) == p
    ensures |r.details| == |p.details|
    ensures forall k :: 0 <= k < |p.details| ==> r.details[k] == Populated(p.details[k], persons)
  {
    var details: seq<DetailUpsert> := [];
    for k := 0 to |p.details|
      invariant |details| == k
      invariant forall m :: 0 <= m < k ==> details[m] == Populated(p.details[m], persons)
    {
      var shares := SharesOfSelection(p.details[k].sharesBoolean, persons);
      details := details + [p.details[k].(shares := Some(shares))];
    }
    r := p.(details := details);
  }

  // ---------------------------------------------------------------------------
  // The upsert payloads the forms start from

  /** `constructNewPurchaseDetailCreate`: an empty line item with nobody selected. */
  function ConstructNewPurchaseDetailCreate(persons: seq<Person>): (r: DetailUpsert)
    ensures r.id.None? && r.shares.None?
    ensures r.itemName == "" && r.quantity == 0.0 && r.price == 0.0 && r.taxRate == 0.0
    ensures r.totalPrice == 0.0
    ensures |r.sharesBoolean| == |persons| + 1 && !AnySelected(r.sharesBoolean)
    ensures CheckDetail(r) == Fail(ItemNameEmpty)
  {
    DetailUpsert(None, "", 0.0, 0.0, 0.0, 0.0, None, seq(|persons| + 1, _ => false))
  }

  /** Filling in the name, quantity and price of a new line item is not enough: somebody must be selected. */
  lemma NewDetailNeedsParticipant(persons: seq<Person>, name: string, quantity: real, price: real)
    requires !IsBlank(name) && quantity > 0.0 && price > 0.0
    ensures CheckDetail(ConstructNewPurchaseDetailCreate(persons).(itemName := name, quantity := quantity, price := price))
      == Fail(NoParticipant)
    ensures SharesFor(ConstructNewPurchaseDetailCreate(persons).sharesBoolean, persons) == []
  {
    var flags := ConstructNewPurchaseDetailCreate(persons).sharesBoolean;
    NoParticipantNoShares(flags, persons, |persons|);
  }

  /** `constructNewPurchaseCreate`: an empty purchase with one empty line item. */
  function ConstructNewPurchaseCreate(persons: seq<Person>): (r: PurchaseUpsert)
    ensures r.id.None? && r.date.None? && r.details == [ConstructNewPurchaseDetailCreate(persons)]
    ensures r.name == "" && r.paidBy == "" && r.store == ""
    ensures r.totalAmount == 0.0 == r.details[0].totalPrice
    ensures CheckPurchase(r) == Fail(NameEmpty)
  {
    assert IsBlank("");
    PurchaseUpsert(None, "", None, 0.0, "", "", [ConstructNewPurchaseDetailCreate(persons)])
  }

  /** `detail.shares.some(share => share.person_id === id)`. */
  predicate HoldsShare(shares: seq<Share>, id: Id) {
    exists k :: 0 <= k < |shares| && shares[k].personId == id
  }

  /** The selection that recreates a stored line item's shares: not communal, each holder selected. */
  function SelectionOf(d: PurchaseDetail, persons: seq<Person>): (flags: seq<bool>)
    ensures |flags| == |persons| + 1 && !flags[0]
    ensures forall i :: 0 <= i < |persons| ==> flags[i + 1] == HoldsShare(d.shares, persons[i].id)
  {
    [false] + seq(|persons|, i requires 0 <= i < |persons| => HoldsShare(d.shares, persons[i].id))
  }

  /**
   * Populating a selection made by `SelectionOf` gives a share to exactly those
   * persons who held one in the stored line item.
   */
  lemma SelectionOfRoundTrip(d: PurchaseDetail, persons: seq<Person>, i: nat)
    requires i < |persons|
    ensures HasShareOf(SharesFor(SelectionOf(d, persons), persons), persons[i].id)
        <==> HoldsShare(d.shares, persons[i].id)
  {
    var flags := SelectionOf(d, persons);
    SharesUpToMembers(flags, persons, |persons|);
    var shares := SharesFor(flags, persons);
    if HasShareOf(shares, persons[i].id) {
      var k :| 0 <= k < |shares| && shares[k].personId == persons[i].id;
      assert shares[k] in shares;
      var j :| 0 <= j < |persons| && Participates(flags, j) && persons[j].id == shares[k].personId;
      assert flags[j + 1];
    }
  }

  function DuplicateDetail(d: PurchaseDetail, persons: seq<Person>): DetailUpsert {
    DetailUpsert(None, d.itemName, d.quantity, d.price, d.taxRate, d.totalPrice, None, SelectionOf(d, persons))
  }

  /**
   * `constructDuplicatePurchaseCreateFromPurchase`: a new purchase (no ids, no date)
   * with the same line items and the same holders selected.
   */
  function ConstructDuplicatePurchaseCreateFromPurchase(p: Purchase, persons: seq<Person>): (r: PurchaseUpsert)
    ensures r.id.None? && r.date.None?
    ensures (r.name, r.totalAmount, r.paidBy, r.store) == (p.name, p.totalAmount, p.paidBy, p.store)
    ensures |r.details| == |p.details|
    ensures forall k :: 0 <= k < |p.details| ==>
      r.details[k].id.None? && r.details[k].shares.None? &&
      r.details[k].itemName == p.details[k].itemName && r.details[k].quantity == p.details[k].quantity &&
      r.details[k].price == p.details[k].price && r.details[k].taxRate == p.details[k].taxRate &&
      r.details[k].totalPrice == p.details[k].totalPrice &&
      r.details[k].sharesBoolean == SelectionOf(p.details[k], persons)
    ensures CheckPurchase(r).Fail?
  {
    PurchaseUpsert(None, p.name, None, p.totalAmount, p.paidBy, p.store,
      seq(|p.details|, k requires 0 <= k < |p.details| => DuplicateDetail(p.details[k], persons)))
  }

  function ShareUpsertOf(s: Share): ShareUpsert {
    ShareUpsert(Some(s.detailId), s.personId, s.rate)
  }

  function EditDetail(d: PurchaseDetail, persons: seq<Person>): DetailUpsert {
    DetailUpsert(Some(d.id), d.itemName, d.quantity, d.price, d.taxRate, d.totalPrice,
      Some(seq(|d.shares|, k requires 0 <= k < |d.shares| => ShareUpsertOf(d.shares[k]))),
      SelectionOf(d, persons))
  }

  /**
   * `constructPurchaseCreateFromPurchase`: the stored purchase as an upsert of itself,
   * with every id, the date and the stored shares kept.
   */
  function ConstructPurchaseCreateFromPurchase(p: Purchase, persons: seq<Person>): (r: PurchaseUpsert)
    ensures r.id == Some(p.id) && r.date == Some(p.date)
    ensures (r.name, r.totalAmount, r.paidBy, r.store) == (p.name, p.totalAmount, p.paidBy, p.store)
    ensures |r.details| == |p.details|
    ensures forall k :: 0 <= k < |p.details| ==>
      r.details[k].id == Some(p.details[k].id) && r.details[k].itemName == p.details[k].itemName &&
      r.details[k].quantity == p.details[k].quantity && r.details[k].price == p.details[k].price &&
      r.details[k].taxRate == p.details[k].taxRate && r.details[k].totalPrice == p.details[k].totalPrice &&
      r.details[k].shares.Some? && |r.details[k].shares.value| == |p.details[k].shares| &&
      (forall m :: 0 <= m < |p.details[k].shares| ==>
        r.details[k].shares.value[m].personId == p.details[k].shares[m].personId &&
        r.details[k].shares.value[m].rate == p.details[k].shares[m].rate &&
        r.details[k].shares.value[m].detailId == Some(p.details[k].shares[m].detailId)) &&
      r.details[k].sharesBoolean == SelectionOf(p.details[k], persons)
  {
    PurchaseUpsert(Some(p.id), p.name, Some(p.date), p.totalAmount, p.paidBy, p.store,
      seq(|p.details|, k requires 0 <= k < |p.details| => EditDetail(p.details[k], persons)))
  }
}
