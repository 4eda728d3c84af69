/**
 * The records the ledger works on: persons, payments and purchases with their line
 * items (purchase details) and shares, in the shape the services receive them: stored
 * records (ids always present) and upsert payloads coming from the forms (ids and
 * dates may be null, shares are still the boolean selection).
 */
module Models {
  import opened Wrappers

  /** A row id (a UUID string). */
  type Id = string

  /** An instant, as the number of milliseconds that a JavaScript `Date` holds. */
  type Date = int

  /** The instant `new Date(null)` denotes: the epoch. */
  const Epoch: Date := 0

  datatype Person = Person(id: Id, name: string, balance: real)

  /** A stored payment: `from` has given `amount` to `to`. */
  datatype Payment = Payment(id: Id, fromPersonId: Id, toPersonId: Id, amount: real, date: Date, notes: string)

  /** A payment as the form edits it and the upsert route receives it. */
  datatype PaymentUpsert = PaymentUpsert(
    id: Option<Id>,
    fromPersonId: Option<Id>,
    toPersonId: Option<Id>,
    amount: real,
    date: Option<Date>,
    notes: string)

  /** A stored share: person `personId` bears the fraction `rate` of line item `detailId`. */
  datatype Share = Share(detailId: Id, personId: Id, rate: real)

  /** A share as an upsert carries it; one built from the boolean selection has no detail id. */
  datatype ShareUpsert = ShareUpsert(detailId: Option<Id>, personId: Id, rate: real)

  /** A stored line item of a purchase. `taxRate` is a percentage. */
  datatype PurchaseDetail = PurchaseDetail(
    id: Id,
    itemName: string,
    quantity: real,
    price: real,
    taxRate: real,
    totalPrice: real,
    shares: seq<Share>)

  /** A stored purchase, paid for by `paidBy`. */
  datatype Purchase = Purchase(
    id: Id,
    name: string,
    date: Date,
    totalAmount: real,
    paidBy: Id,
    store: string,
    details: seq<PurchaseDetail>)

  /**
   * A line item as the form edits it. `sharesBoolean[0]` is the "communal" flag and
   * `sharesBoolean[k + 1]` selects the k-th person; `shares` is null until the
   * selection has been turned into shares.
   */
  datatype DetailUpsert = DetailUpsert(
    id: Option<Id>,
    itemName: string,
    quantity: real,
    price: real,
    taxRate: real,
    totalPrice: real,
    shares: Option<seq<ShareUpsert>>,
    sharesBoolean: seq<bool>)

  datatype PurchaseUpsert = PurchaseUpsert(
    id: Option<Id>,
    name: string,
    date: Option<Date>,
    totalAmount: real,
    paidBy: Id,
    store: string,
    details: seq<DetailUpsert>)

  /** JavaScript truthiness of a nullable string: neither null nor empty. */
  predicate Truthy(s: Option<string>) {
    s.Some? && s.value != ""
  }

  /** The characters `String.prototype.trim` removes: ECMAScript WhiteSpace and LineTerminator. */
  predicate IsWhiteSpace(c: char) {
    || c == '\t' || c == '\n' || c == '\U{000B}' || c == '\U{000C}' || c == '\r'
    || c == ' ' || c == '\U{00A0}' || c == '\U{1680}' || '\U{2000}' <= c <= '\U{200A}'
    || c == '\U{2028}' || c == '\U{2029}' || c == '\U{202F}' || c == '\U{205F}'
    || c == '\U{3000}' || c == '\U{FEFF}'
  }

  /** `!s || s.trim() === ""`: the string is empty or consists of white space only. */
  predicate IsBlank(s: string) {
    forall k :: 0 <= k < |s| ==> IsWhiteSpace(s[k])
  }

  /** The sum of all balances of a list of persons. */
  function TotalBalance(ps: seq<Person>): real {
    if ps == [] then 0.0 else ps[0].balance + TotalBalance(ps[1..])
  }

  /** Replacing one person changes the total by exactly the change of that balance. */
  lemma {:induction false} TotalBalanceReplace(ps: seq<Person>, k: nat, p: Person)
    requires k < |ps|
    ensures TotalBalance(ps[k := p]) == TotalBalance(ps) - ps[k].balance + p.balance
  {
    if k > 0 {
      assert ps[k := p][1..] == ps[1..][k - 1 := p];
      TotalBalanceReplace(ps[1..], k - 1, p);
    }
  }

  /** The total seen from the last person. */
  lemma {:induction false} TotalBalanceSnoc(ps: seq<Person>)
    requires ps != []
    ensures TotalBalance(ps) == TotalBalance(ps[..|ps| - 1]) + ps[|ps| - 1].balance
  {
    if |ps| == 1 {
      assert ps[..0] == [];
    } else {
      TotalBalanceSnoc(ps[1..]);
      assert ps[1..][..|ps| - 2] == ps[..|ps| - 1][1..];
    }
  }

  /** The number of persons with id `id`. */
  function CountId(ps: seq<Person>, id: Id): nat {
    if ps == [] then 0 else (if ps[0].id == id then 1 else 0) + CountId(ps[1..], id)
  }

  function Ids(ps: seq<Person>): (r: seq<Id>)
    ensures |r| == |ps|
  {
    seq(|ps|, k requires 0 <= k < |ps| => ps[k].id)
  }

  lemma IdsCons(p: Person, ps: seq<Person>)
    ensures Ids([p] + ps) == [p.id] + Ids(ps)
  {
    assert forall k :: 0 <= k < |ps| + 1 ==> Ids([p] + ps)[k] == ([p.id] + Ids(ps))[k];
  }

  lemma IdsSnoc(ps: seq<Person>)
    requires ps != []
    ensures Ids(ps) == Ids(ps[..|ps| - 1]) + [ps[|ps| - 1].id]
  {
    var init := ps[..|ps| - 1];
    assert forall k :: 0 <= k < |ps| ==> Ids(ps)[k] == (Ids(init) + [ps[|ps| - 1].id])[k];
  }

  /** When every balance but the k-th is zero, the total is the k-th balance. */
  lemma {:induction false} TotalOfSingleBalance(ps: seq<Person>, k: nat)
    requires k < |ps|
    requires forall m :: 0 <= m < |ps| && m != k ==> ps[m].balance == 0.0
    ensures TotalBalance(ps) == ps[k].balance
  {
    if k == 0 {
      TotalOfZeroBalances(ps[1..]);
    } else {
      TotalOfSingleBalance(ps[1..], k - 1);
    }
  }

  lemma {:induction false} TotalOfZeroBalances(ps: seq<Person>)
    requires forall m :: 0 <= m < |ps| ==> ps[m].balance == 0.0
    ensures TotalBalance(ps) == 0.0
  {
    if ps != [] {
      TotalOfZeroBalances(ps[1..]);
    }
  }
}
