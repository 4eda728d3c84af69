/**
 * The person service's `updateBalancesWithMap`: index the stored persons by id, give
 * every id of the balance map its new balance, and refuse the whole update at the first
 * id that names nobody.
 */
module PersonService {
  import opened Wrappers
  import opened OrderedMap
  import opened Models
  import opened Common

  datatype PersonError = PersonNotFound(id: Id)

  function Message(e: PersonError): string {
    "Person with ID " + e.id + " not found"
  }

  /** The person with the balance the map assigns to their id, if it assigns one. */
  function Refreshed(p: Person, newBalance: Map<real>): (r: Person)
    ensures r.id == p.id && r.name == p.name
    ensures r.balance == Get(newBalance, p.id).GetOr(p.balance)
  {
    match Get(newBalance, p.id)
    case None => p
    case Some(b) => p.(balance := b)
  }

  /** An index of persons: each value is stored under its person's id. */
  predicate KeyedById(m: Map<Person>) {
    forall k :: k in m.values ==> m.values[k].id == k
  }

  lemma {:induction false} IndexByIdKeyed(persons: seq<Person>)
    ensures KeyedById(IndexById(persons))
  {
    if persons != [] {
      IndexByIdKeyed(persons[..|persons| - 1]);
    }
  }

  /** The loop over the entries of the balance map, from the `i`-th key on. */
  function ApplyBalances(personMap: Map<Person>, newBalance: Map<real>, i: nat)
    : (r: Result<Map<Person>, PersonError>)
    requires Valid(newBalance) && i <= |newBalance.keys|
    ensures Valid(personMap) && r.Success? ==> Valid(r.value)
    decreases |newBalance.keys| - i
  {
    if i == |newBalance.keys| then Success(personMap)
    else
      var id := newBalance.keys[i];
      match Get(personMap, id)
      case None => Failure(PersonNotFound(id))
      case Some(p) => ApplyBalances(Set(personMap, id, p.(balance := newBalance.values[id])), newBalance, i + 1)
  }

  /** What `updateBalancesWithMap` hands to `updateBalances`: the index's values in order, or the error. */
  function UpdatedPersons(newBalance: Map<real>, persons: seq<Person>): Result<seq<Person>, PersonError>
    requires Valid(newBalance)
  {
    match ApplyBalances(IndexById(persons), newBalance, 0)
    case Success(m) => Success(Values(m))
    case Failure(e) => Failure(e)
  }

  /**
   * From the `i`-th key of the balance map on, the fold fails exactly when one of the
   * remaining keys is missing from the index, and then it names the first one.
   */
  lemma {:induction false} ApplyBalancesFailure(m: Map<Person>, nb: Map<real>, i: nat)
    requires Valid(nb) && i <= |nb.keys|
    ensures ApplyBalances(m, nb, i).Failure? <==> exists k :: i <= k < |nb.keys| && nb.keys[k] !in m.values
    ensures ApplyBalances(m, nb, i).Failure? ==>
      exists k :: i <= k < |nb.keys| && nb.keys[k] !in m.values &&
        ApplyBalances(m, nb, i).error == PersonNotFound(nb.keys[k]) &&
        (forall j :: i <= j < k ==> nb.keys[j] in m.values)
    decreases |nb.keys| - i
  {
    if i < |nb.keys| {
      var id := nb.keys[i];
      if id in m.values {
        var m' := Set(m, id, m.values[id].(balance := nb.values[id]));
        ApplyBalancesFailure(m', nb, i + 1);
        assert forall k :: k in m'.values <==> k in m.values;
        assert ApplyBalances(m, nb, i) == ApplyBalances(m', nb, i + 1);
      } else {
        assert ApplyBalances(m, nb, i) == Failure(PersonNotFound(id));
        assert nb.keys[i] !in m.values;
      }
    }
  }

  /** The keys from the `i`-th on are that key and the keys after it, which do not repeat it. */
  lemma SuffixSplit(ks: seq<Key>, i: nat)
    requires Distinct(ks) && i < |ks|
    ensures forall x :: x in ks[i..] <==> x == ks[i] || x in ks[i + 1..]
    ensures ks[i] !in ks[i + 1..]
  {
    assert ks[i..] == [ks[i]] + ks[i + 1..];
    forall j | i + 1 <= j < |ks| ensures ks[j] != ks[i] { }
  }

  /**
   * On success, the index keeps its keys, and from the `i`-th key of the balance map
   * on, every person whose id is one of the remaining keys gets that key's balance.
   */
  lemma {:induction false} ApplyBalancesSuccess(m: Map<Person>, nb: Map<real>, i: nat)
    requires Valid(m) && Valid(nb) && i <= |nb.keys|
    requires ApplyBalances(m, nb, i).Success?
    ensures ApplyBalances(m, nb, i).value.keys == m.keys
    ensures forall id :: id in m.values ==>
      && id in ApplyBalances(m, nb, i).value.values
      && ApplyBalances(m, nb, i).value.values[id] ==
           if id in nb.keys[i..] then m.values[id].(balance := nb.values[id]) else m.values[id]
    decreases |nb.keys| - i
  {
    if i < |nb.keys| {
      var id := nb.keys[i];
      var m' := Set(m, id, m.values[id].(balance := nb.values[id]));
      ApplyBalancesSuccess(m', nb, i + 1);
      SuffixSplit(nb.keys, i);
    }
  }

  /**
   * `updateBalancesWithMap` fails exactly when the balance map holds an id of no stored
   * person, and then it reports the first such id in map order.
   */
  lemma UpdatedPersonsFailure(newBalance: Map<real>, persons: seq<Person>)
    requires Valid(newBalance)
    ensures UpdatedPersons(newBalance, persons).Failure? <==>
      exists k :: 0 <= k < |newBalance.keys| && newBalance.keys[k] !in Ids(persons)
    ensures UpdatedPersons(newBalance, persons).Failure? ==>
      exists k :: 0 <= k < |newBalance.keys| && newBalance.keys[k] !in Ids(persons) &&
        UpdatedPersons(newBalance, persons).error == PersonNotFound(newBalance.keys[k]) &&
        (forall j :: 0 <= j < k ==> newBalance.keys[j] in Ids(persons))
  {
    ApplyBalancesFailure(IndexById(persons), newBalance, 0);
  }

  /**
   * When `updateBalancesWithMap` succeeds, every indexed person, in index order, gets
   * the balance the map assigns to their id and keeps every other field.
   */
  lemma UpdatedPersonsSuccess(newBalance: Map<real>, persons: seq<Person>)
    requires Valid(newBalance)
    requires UpdatedPersons(newBalance, persons).Success?
    ensures var index := Values(IndexById(persons));
      |UpdatedPersons(newBalance, persons).value| == |index| &&
      forall i :: 0 <= i < |index| ==>
        UpdatedPersons(newBalance, persons).value[i] == Refreshed(index[i], newBalance)
  {
    var m := IndexById(persons);
    IndexByIdKeyed(persons);
    ApplyBalancesSuccess(m, newBalance, 0);
    assert newBalance.keys[0..] == newBalance.keys;
    var r := ApplyBalances(m, newBalance, 0).value;
    forall i | 0 <= i < |m.keys| ensures Values(r)[i] == Refreshed(Values(m)[i], newBalance) {
      var id := m.keys[i];
      assert Values(m)[i] == m.values[id] && Values(r)[i] == r.values[id];
    }
  }

  /** With distinct ids, the index's keys are the ids in order. */
  lemma {:induction false} IndexByIdKeys(persons: seq<Person>)
    requires forall a, b :: 0 <= a < b < |persons| ==> persons[a].id != persons[b].id
    ensures IndexById(persons).keys == Ids(persons)
  {
    if persons != [] {
      var init, last := persons[..|persons| - 1], persons[|persons| - 1];
      IndexByIdKeys(init);
      IdsSnoc(persons);
      assert last.id !in Ids(init) by {
        forall k | 0 <= k < |init| ensures Ids(init)[k] != last.id {
          assert init[k] == persons[k];
        }
      }
    }
  }

  /** With distinct ids, the last person with a person's id is that person. */
  lemma {:induction false} LastWithIdOfDistinct(persons: seq<Person>, i: nat)
    requires forall a, b :: 0 <= a < b < |persons| ==> persons[a].id != persons[b].id
    requires i < |persons|
    ensures LastWithId(persons, persons[i].id) == Some(persons[i])
  {
    var init := persons[..|persons| - 1];
    if i < |init| {
      assert persons[i].id != persons[|persons| - 1].id;
      assert init[i] == persons[i];
      LastWithIdOfDistinct(init, i);
    }
  }

  /** With distinct ids, the index holds the persons themselves, in their order. */
  lemma IndexByIdOfDistinct(persons: seq<Person>)
    requires forall a, b :: 0 <= a < b < |persons| ==> persons[a].id != persons[b].id
    ensures Values(IndexById(persons)) == persons
  {
    IndexByIdKeys(persons);
    var m := IndexById(persons);
    forall i | 0 <= i < |persons| ensures Values(m)[i] == persons[i] {
      assert m.keys[i] == Ids(persons)[i];
      IndexByIdGet(persons, persons[i].id);
      LastWithIdOfDistinct(persons, i);
    }
  }

  /**
   * With distinct ids, a successful merge hands over exactly the fetched persons, in
   * their order, each with the balance the map assigns to their id and nothing else changed.
   */
  lemma UpdatedPersonsOfDistinct(newBalance: Map<real>, persons: seq<Person>)
    requires Valid(newBalance)
    requires forall a, b :: 0 <= a < b < |persons| ==> persons[a].id != persons[b].id
    requires UpdatedPersons(newBalance, persons).Success?
    ensures |UpdatedPersons(newBalance, persons).value| == |persons|
    ensures forall i :: 0 <= i < |persons| ==>
      UpdatedPersons(newBalance, persons).value[i] == Refreshed(persons[i], newBalance)
  {
    UpdatedPersonsSuccess(newBalance, persons);
    IndexByIdOfDistinct(persons);
  }

  /** `updateBalancesWithMap`: the loop over the map entries, on a copy of the index. */
  method UpdateBalancesWithMap(newBalance: Map<real>, persons: seq<Person>)
    returns (r: Result<seq<Person>, PersonError>)
    requires Valid(newBalance)
    ensures r == UpdatedPersons(newBalance, persons)
  {
    var personMap := GetPersonMapFromPersons(persons);
    var k := 0;
    while k < |newBalance.keys|
      invariant 0 <= k <= |newBalance.keys| && Valid(personMap)
      invariant ApplyBalances(personMap, newBalance, k) == ApplyBalances(IndexById(persons), newBalance, 0)
    {
      var id := newBalance.keys[k];
      var balance := newBalance.values[id];
      var person := Get(personMap, id);
      if person.None? {
        return Failure(PersonNotFound(id));
      }
      personMap := Set(personMap, id, person.value.(balance := balance));
      k := k + 1;
    }
    return Success(Values(personMap));
  }
}
