/**
 * The payment service's balance bookkeeping: `upsertPayment` and `deletePaymentById`
 * walk the stored persons once and adjust, in place, the balance of the person a
 * payment comes from and of the person it goes to. A payment from `from` to `to`
 * raises the balance of `from` (who is owed more) and lowers the balance of `to`.
 */
module PaymentService {
  import opened Wrappers
  import opened Models

  /** `if (oldPayment) … oldPayment.amount`: what an update takes back; nothing on a create. */
  function OldAmount(previous: Option<Payment>): real {
    if previous.Some? then previous.value.amount else 0.0
  }

  /** The stored payment an upsert revises: the row fetched by its id, looked up only when the id is truthy. */
  function Previous(u: PaymentUpsert, stored: Payment): (r: Option<Payment>)
    ensures r.Some? <==> Truthy(u.id)
    ensures r.Some? ==> r.value == stored
  {
    if Truthy(u.id) then Some(stored) else None
  }

  /**
   * One turn of `upsertPayment`'s loop. `person.id == payment.from_person_id` never holds
   * for a null id, and the `else if` skips the to-branch for the person the payment comes from.
   */
  function UpsertedPerson(p: Person, u: PaymentUpsert, previous: Option<Payment>): (r: Person)
    ensures r.id == p.id && r.name == p.name
  {
    if u.fromPersonId == Some(p.id) then p.(balance := p.balance - OldAmount(previous) + u.amount)
    else if u.toPersonId == Some(p.id) then p.(balance := p.balance + OldAmount(previous) - u.amount)
    else p
  }

  /** The persons after `upsertPayment`'s loop; who is neither party keeps everything, their balance included. */
  function UpsertedPersons(ps: seq<Person>, u: PaymentUpsert, previous: Option<Payment>): (r: seq<Person>)
    ensures |r| == |ps|
    ensures forall i :: 0 <= i < |ps| ==> r[i].id == ps[i].id && r[i].name == ps[i].name
    ensures forall i :: 0 <= i < |ps| && u.fromPersonId != Some(ps[i].id) && u.toPersonId != Some(ps[i].id) ==> r[i] == ps[i]
  {
    seq(|ps|, i requires 0 <= i < |ps| => UpsertedPerson(ps[i], u, previous))
  }

  /** One turn of `deletePaymentById`'s loop: the stored payment taken back. */
  function DeletedPerson(p: Person, s: Payment): (r: Person)
    ensures r.id == p.id && r.name == p.name
  {
    if s.fromPersonId == p.id then p.(balance := p.balance - s.amount)
    else if s.toPersonId == p.id then p.(balance := p.balance + s.amount)
    else p
  }

  /** The persons after `deletePaymentById`'s loop; who is neither party keeps everything. */
  function DeletedPersons(ps: seq<Person>, s: Payment): (r: seq<Person>)
    ensures |r| == |ps|
    ensures forall i :: 0 <= i < |ps| ==> r[i].id == ps[i].id && r[i].name == ps[i].name
    ensures forall i :: 0 <= i < |ps| && s.fromPersonId != ps[i].id && s.toPersonId != ps[i].id ==> r[i] == ps[i]
  {
    seq(|ps|, i requires 0 <= i < |ps| => DeletedPerson(ps[i], s))
  }

  /** The stored payment `s` is what the upsert `u` was saved as. */
  predicate Persisted(u: PaymentUpsert, s: Payment) {
    u.fromPersonId == Some(s.fromPersonId) && u.toPersonId == Some(s.toPersonId) && u.amount == s.amount
  }

  // ---------------------------------------------------------------------------
  // The loops

  /**
   * `upsertPayment`'s loop over the persons, given the row `getPaymentById` returns for
   * the payment's id (read only when that id is truthy).
   */
  method UpsertPayment(persons: array<Person>, payment: PaymentUpsert, stored: Payment)
    modifies persons
    ensures persons[..] == UpsertedPersons(old(persons[..]), payment, Previous(payment, stored))
  {
    var oldPayment: Option<Payment> := None;
    if Truthy(payment.id) {
      oldPayment := Some(stored);
    }
    for i := 0 to persons.Length
      invariant forall j :: 0 <= j < i ==> persons[j] == UpsertedPerson(old(persons[j]), payment, oldPayment)
      invariant forall j :: i <= j < persons.Length ==> persons[j] == old(persons[j])
    {
      var person := persons[i];
      if payment.fromPersonId == Some(person.id) {
        if oldPayment.Some? {
          person := person.(balance := person.balance - oldPayment.value.amount);
        }
        person := person.(balance := person.balance + payment.amount);
      } else if payment.toPersonId == Some(person.id) {
        if oldPayment.Some? {
          person := person.(balance := person.balance + oldPayment.value.amount);
        }
        person := person.(balance := person.balance - payment.amount);
      }
      persons[i] := person;
    }
  }

  /** `deletePaymentById`'s loop over the persons, given the row `getPaymentById` returns. */
  method DeletePaymentById(persons: array<Person>, payment: Payment)
    modifies persons
    ensures persons[..] == DeletedPersons(old(persons[..]), payment)
  {
    for i := 0 to persons.Length
      invariant forall j :: 0 <= j < i ==> persons[j] == DeletedPerson(old(persons[j]), payment)
      invariant forall j :: i <= j < persons.Length ==> persons[j] == old(persons[j])
    {
      var person := persons[i];
      if person.id == payment.fromPersonId {
        person := person.(balance := person.balance - payment.amount);
      } else if person.id == payment.toPersonId {
        person := person.(balance := person.balance + payment.amount);
      }
      persons[i] := person;
    }
  }

  // ---------------------------------------------------------------------------
  // What the loops keep and undo

  /** A create between two different persons credits `from` and debits `to` with the amount. */
  lemma CreateMovesParties(ps: seq<Person>, u: PaymentUpsert, i: nat)
    requires i < |ps| && u.fromPersonId != u.toPersonId
    ensures u.fromPersonId == Some(ps[i].id) ==> UpsertedPersons(ps, u, None)[i].balance == ps[i].balance + u.amount
    ensures u.toPersonId == Some(ps[i].id) ==> UpsertedPersons(ps, u, None)[i].balance == ps[i].balance - u.amount
  {
  }

  /** A delete between two different persons debits `from` and credits `to` with the amount. */
  lemma DeleteMovesParties(ps: seq<Person>, s: Payment, i: nat)
    requires i < |ps| && s.fromPersonId != s.toPersonId
    ensures s.fromPersonId == ps[i].id ==> DeletedPersons(ps, s)[i].balance == ps[i].balance - s.amount
    ensures s.toPersonId == ps[i].id ==> DeletedPersons(ps, s)[i].balance == ps[i].balance + s.amount
  {
  }

  /**
   * A payment to oneself counts only as given: the `else if` never reaches the to-branch,
   * so the person gains the amount (less the old one) instead of keeping their balance.
   */
  lemma SelfPaymentCountsOnce(ps: seq<Person>, u: PaymentUpsert, previous: Option<Payment>, i: nat)
    requires i < |ps| && u.fromPersonId == Some(ps[i].id) && u.toPersonId == Some(ps[i].id)
    ensures UpsertedPersons(ps, u, previous)[i].balance == ps[i].balance + (u.amount - OldAmount(previous))
  {
  }

  /** Dropping the first person commutes with the loop. */
  lemma UpsertedTail(ps: seq<Person>, u: PaymentUpsert, previous: Option<Payment>)
    requires ps != []
    ensures UpsertedPersons(ps, u, previous)[1..] == UpsertedPersons(ps[1..], u, previous)
  {
  }

  lemma DeletedTail(ps: seq<Person>, s: Payment)
    requires ps != []
    ensures DeletedPersons(ps, s)[1..] == DeletedPersons(ps[1..], s)
  {
  }

  /**
   * With two different parties, each at most once among the persons, an upsert moves
   * the total of all balances by the net change `amount - oldAmount` once for `from`,
   * if present, and back once for `to`, if present.
   */
  lemma {:induction false} UpsertMovesTotal(ps: seq<Person>, u: PaymentUpsert, previous: Option<Payment>, f: Id, t: Id)
    requires u.fromPersonId == Some(f) && u.toPersonId == Some(t) && f != t
    requires CountId(ps, f) <= 1 && CountId(ps, t) <= 1
    ensures TotalBalance(UpsertedPersons(ps, u, previous)) == TotalBalance(ps)
      + (if CountId(ps, f) == 1 then u.amount - OldAmount(previous) else 0.0)
      - (if CountId(ps, t) == 1 then u.amount - OldAmount(previous) else 0.0)
  {
    if ps != [] {
      UpsertMovesTotal(ps[1..], u, previous, f, t);
      UpsertedTail(ps, u, previous);
    }
  }

  /** When both parties are different persons who are stored once each, an upsert keeps the total of all balances. */
  lemma UpsertConservesTotal(ps: seq<Person>, u: PaymentUpsert, previous: Option<Payment>, f: Id, t: Id)
    requires u.fromPersonId == Some(f) && u.toPersonId == Some(t) && f != t
    requires CountId(ps, f) == 1 && CountId(ps, t) == 1
    ensures TotalBalance(UpsertedPersons(ps, u, previous)) == TotalBalance(ps)
  {
    UpsertMovesTotal(ps, u, previous, f, t);
  }

  /** Deleting moves the total by `amount` back once for `from`, if present, and forward once for `to`, if present. */
  lemma {:induction false} DeleteMovesTotal(ps: seq<Person>, s: Payment)
    requires s.fromPersonId != s.toPersonId
    requires CountId(ps, s.fromPersonId) <= 1 && CountId(ps, s.toPersonId) <= 1
    ensures TotalBalance(DeletedPersons(ps, s)) == TotalBalance(ps)
      - (if CountId(ps, s.fromPersonId) == 1 then s.amount else 0.0)
      + (if CountId(ps, s.toPersonId) == 1 then s.amount else 0.0)
  {
    if ps != [] {
      DeleteMovesTotal(ps[1..], s);
      DeletedTail(ps, s);
    }
  }

  /** When both parties are different persons who are stored once each, a delete keeps the total of all balances. */
  lemma DeleteConservesTotal(ps: seq<Person>, s: Payment)
    requires s.fromPersonId != s.toPersonId
    requires CountId(ps, s.fromPersonId) == 1 && CountId(ps, s.toPersonId) == 1
    ensures TotalBalance(DeletedPersons(ps, s)) == TotalBalance(ps)
  {
    DeleteMovesTotal(ps, s);
  }

  /** Deleting a payment right after creating it restores every person, whoever the parties are. */
  lemma DeleteUndoesCreate(ps: seq<Person>, u: PaymentUpsert, s: Payment)
    requires Persisted(u, s)
    ensures DeletedPersons(UpsertedPersons(ps, u, None), s) == ps
  {
    var r := DeletedPersons(UpsertedPersons(ps, u, None), s);
    forall i | 0 <= i < |ps| ensures r[i] == ps[i] {
    }
  }

  /**
   * After A paid 30 for an item shared by A, B and C (A +20, B -10, C -10), B paying A 5
   * raises the payer B by 5 and lowers A by 5.
   */
  lemma PaymentAfterPurchaseExample()
    ensures var ps := [Person("a", "A", 20.0), Person("b", "B", -10.0), Person("c", "C", -10.0)];
      var pay := PaymentUpsert(None, Some("b"), Some("a"), 5.0, Some(Epoch), "");
      UpsertedPersons(ps, pay, None) == [Person("a", "A", 15.0), Person("b", "B", -5.0), Person("c", "C", -10.0)]
  {
  }

  // ---------------------------------------------------------------------------
  // Updating a payment whose parties changed

  /** Three persons who owe each other nothing. */
  const SettledTrio := [Person("a", "A", 0.0), Person("b", "B", 0.0), Person("c", "C", 0.0)]
  /** A new payment of 10 from A to B, and the row it is stored as. */
  const AToB := PaymentUpsert(None, Some("a"), Some("b"), 10.0, Some(Epoch), "")
  const StoredAToB := Payment("p", "a", "b", 10.0, Epoch, "")
  /** The stored payment edited so that C, not A, paid B. */
  const CToB := PaymentUpsert(Some("p"), Some("c"), Some("b"), 10.0, Some(Epoch), "")

  /**
   * `upsertPayment` as written, on an update: the old amount is taken back on the NEW
   * payment's parties. Here A pays B 10, and the payment is then edited into C paying
   * B 10: A keeps the 10 and C pays nothing (compare `EditedPaymentAloneExample`).
   */
  lemma UpdateWithNewPartiesAsWritten()
    ensures UpsertedPersons(UpsertedPersons(SettledTrio, AToB, None), CToB, Some(StoredAToB))
         == [Person("a", "A", 10.0), Person("b", "B", -10.0), Person("c", "C", 0.0)]
  {
    var created := UpsertedPersons(SettledTrio, AToB, None);
    assert created[0] == Person("a", "A", 10.0) && created[1] == Person("b", "B", -10.0) && created[2] == SettledTrio[2];
    var updated := UpsertedPersons(created, CToB, Some(StoredAToB));
    assert updated[0] == created[0] && updated[1] == created[1] && updated[2] == created[2];
  }

  /** Recording the edited payment alone credits C, not A: the balances the update should have left. */
  lemma EditedPaymentAloneExample()
    ensures UpsertedPersons(SettledTrio, CToB, None)
         == [Person("a", "A", 0.0), Person("b", "B", -10.0), Person("c", "C", 10.0)]
  {
    var alone := UpsertedPersons(SettledTrio, CToB, None);
    assert alone[0] == SettledTrio[0] && alone[2] == Person("c", "C", 10.0);
  }

  /** An update as evidently intended: take the stored payment back from its own parties, then record the new one. */
  function CorrectedUpsertedPersons(ps: seq<Person>, u: PaymentUpsert, previous: Option<Payment>): (r: seq<Person>)
    ensures |r| == |ps|
  {
    var reverted := if previous.Some? then DeletedPersons(ps, previous.value) else ps;
    UpsertedPersons(reverted, u, None)
  }

  /**
   * The corrected update leaves every balance as if only the edited payment had ever
   * been recorded, whatever the old and new parties are.
   */
  lemma CorrectedUpdateReplaces(ps: seq<Person>, create: PaymentUpsert, s: Payment, edit: PaymentUpsert)
    requires Persisted(create, s)
    ensures CorrectedUpsertedPersons(UpsertedPersons(ps, create, None), edit, Some(s)) == UpsertedPersons(ps, edit, None)
  {
    DeleteUndoesCreate(ps, create, s);
  }

  /** As long as an update keeps both parties, the code as written does what the corrected update does. */
  lemma UpdateKeepingPartiesAgrees(ps: seq<Person>, u: PaymentUpsert, s: Payment)
    requires u.fromPersonId == Some(s.fromPersonId) && u.toPersonId == Some(s.toPersonId)
    ensures UpsertedPersons(ps, u, Some(s)) == CorrectedUpsertedPersons(ps, u, Some(s))
  {
    var a, c := UpsertedPersons(ps, u, Some(s)), CorrectedUpsertedPersons(ps, u, Some(s));
    forall i | 0 <= i < |ps| ensures a[i] == c[i] {
    }
  }
}
