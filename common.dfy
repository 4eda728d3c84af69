/**
 * The settlement planner and the id index of persons (src/utils/common.ts).
 *
 * The planner sorts a copy of the persons by balance and walks it from both ends: the
 * person at `i` owes the most, the person at `j` is owed the most; each step moves
 * min(-debtor, creditor) from one to the other, reports the transfer when it is at
 * least a cent, and moves past whoever reached exactly zero.
 */
module Common {
  import opened Wrappers
  import opened OrderedMap
  import opened Models

  /** The smallest transfer that is reported. */
  const ReportThreshold: real := 0.01

  /** One line of the planner's output: "`debtor` needs to pay `creditor` $`amount`.", or the sentinel. */
  datatype PayFlow = Pays(debtor: string, creditor: string, amount: real) | AllPaymentsResolved

  // ---------------------------------------------------------------------------
  // The sort of the working copy (`Array.prototype.sort` with `a.balance - b.balance`)

  predicate SortedByBalance(s: seq<Person>) {
    forall a, b :: 0 <= a < b < |s| ==> s[a].balance <= s[b].balance
  }

  /** Inserts `p` before the first element whose balance is not smaller (keeps equal balances in input order). */
  function InsertByBalance(p: Person, s: seq<Person>): (r: seq<Person>)
    requires SortedByBalance(s)
    ensures |r| == |s| + 1
    ensures forall x :: x in r ==> x == p || x in s
    ensures SortedByBalance(r)
  {
    if s == [] || p.balance <= s[0].balance then
      [p] + s
    else
      var rest := InsertByBalance(p, s[1..]);
      assert forall b :: 0 <= b < |rest| ==> s[0].balance <= rest[b].balance by {
        forall b | 0 <= b < |rest| ensures s[0].balance <= rest[b].balance {
          assert rest[b] in rest;
          if rest[b] != p {
            var c :| 0 <= c < |s[1..]| && s[1..][c] == rest[b];
            assert s[c + 1] == rest[b];
          }
        }
      }
      [s[0]] + rest
  }

  lemma {:induction false} InsertByBalancePermutes(p: Person, s: seq<Person>)
    requires SortedByBalance(s)
    ensures multiset(InsertByBalance(p, s)) == multiset(s) + multiset{p}
  {
    if s != [] && p.balance > s[0].balance {
      InsertByBalancePermutes(p, s[1..]);
      assert s == [s[0]] + s[1..];
    }
  }

  /** The stable ascending sort of `s` by balance. */
  function SortByBalance(s: seq<Person>): (r: seq<Person>)
    ensures |r| == |s|
    ensures SortedByBalance(r)
  {
    if s == [] then [] else InsertByBalance(s[0], SortByBalance(s[1..]))
  }

  /** The sort returns a permutation of its input. */
  lemma {:induction false} SortByBalancePermutes(s: seq<Person>)
    ensures multiset(SortByBalance(s)) == multiset(s)
  {
    if s != [] {
      SortByBalancePermutes(s[1..]);
      InsertByBalancePermutes(s[0], SortByBalance(s[1..]));
      assert s == [s[0]] + s[1..];
    }
  }

  lemma {:induction false} InsertByBalanceTotal(p: Person, s: seq<Person>)
    requires SortedByBalance(s)
    ensures TotalBalance(InsertByBalance(p, s)) == p.balance + TotalBalance(s)
  {
    if s != [] && p.balance > s[0].balance {
      InsertByBalanceTotal(p, s[1..]);
      assert InsertByBalance(p, s)[1..] == InsertByBalance(p, s[1..]);
    }
  }

  lemma {:induction false} InsertByBalanceIds(p: Person, s: seq<Person>)
    requires SortedByBalance(s)
    ensures multiset(Ids(InsertByBalance(p, s))) == multiset(Ids(s)) + multiset{p.id}
  {
    if s == [] || p.balance <= s[0].balance {
      IdsCons(p, s);
    } else {
      var rest := InsertByBalance(p, s[1..]);
      InsertByBalanceIds(p, s[1..]);
      IdsCons(s[0], rest);
      IdsCons(s[0], s[1..]);
      assert s == [s[0]] + s[1..];
    }
  }

  /** Sorting keeps the total balance and the ids. */
  lemma {:induction false} SortByBalanceTotal(s: seq<Person>)
    ensures TotalBalance(SortByBalance(s)) == TotalBalance(s)
  {
    if s != [] {
      SortByBalanceTotal(s[1..]);
      InsertByBalanceTotal(s[0], SortByBalance(s[1..]));
    }
  }

  lemma {:induction false} SortByBalanceIds(s: seq<Person>)
    ensures multiset(Ids(SortByBalance(s))) == multiset(Ids(s))
  {
    if s != [] {
      SortByBalanceIds(s[1..]);
      InsertByBalanceIds(s[0], SortByBalance(s[1..]));
      IdsCons(s[0], s[1..]);
      assert s == [s[0]] + s[1..];
    }
  }

  // ---------------------------------------------------------------------------
  // The greedy loop over two indices as a function

  /**
   * One iteration: the person at index `debtor` (named `debtorName`) pays the person
   * at index `creditor` (named `creditorName`) `amount`.
   */
  datatype Transfer = Transfer(debtor: nat, creditor: nat, debtorName: string, creditorName: string, amount: real)

  /** The working copy when the loop ends, and the transfers of all its iterations in order. */
  datatype Settlement = Settlement(final: seq<Person>, transfers: seq<Transfer>)

  /** `Math.min`. */
  function Min(a: real, b: real): (r: real)
    ensures r <= a && r <= b && (r == a || r == b)
  {
    if a < b then a else b
  }

  /** `person.balance += delta` on the person at index `k`. */
  function Credit(w: seq<Person>, k: nat, delta: real): (r: seq<Person>)
    requires k < |w|
    ensures |r| == |w|
  {
    w[k := w[k].(balance := w[k].balance + delta)]
  }

  /** A payment between two different persons changes their two balances and nothing else. */
  lemma PayEffect(w: seq<Person>, d: nat, c: nat, amount: real)
    requires d < c < |w|
    ensures var r := Credit(Credit(w, d, amount), c, -amount);
      && r[d] == w[d].(balance := w[d].balance + amount)
      && r[c] == w[c].(balance := w[c].balance - amount)
      && (forall k :: 0 <= k < |w| && k != d && k != c ==> r[k] == w[k])
  {
  }

  lemma CreditTotal(w: seq<Person>, k: nat, delta: real)
    requires k < |w|
    ensures TotalBalance(Credit(w, k, delta)) == TotalBalance(w) + delta
  {
    TotalBalanceReplace(w, k, w[k].(balance := w[k].balance + delta));
  }

  /** A payment between two different persons keeps the total balance. */
  lemma PayKeepsTotal(w: seq<Person>, d: nat, c: nat, amount: real)
    requires d < c < |w|
    ensures TotalBalance(Credit(Credit(w, d, amount), c, -amount)) == TotalBalance(w)
  {
    CreditTotal(w, d, amount);
    CreditTotal(Credit(w, d, amount), c, -amount);
  }

  /** The indices after an iteration: each moves past a person whose balance is now exactly zero. */
  function NextI(w: seq<Person>, i: nat): nat
    requires i < |w|
  {
    if w[i].balance == 0.0 then i + 1 else i
  }

  function NextJ(w: seq<Person>, j: nat): int
    requires j < |w|
  {
    if w[j].balance == 0.0 then j - 1 else j
  }

  /**
   * The loop `while (i < j)` run on the working copy `w` from indices `i` and `j`.
   * Every transfer goes from a lower to a higher index inside the window `i..j`, and
   * there are at most `j - i` iterations, because each one zeroes the debtor or the
   * creditor.
   */
  function Settle(w: seq<Person>, i: nat, j: int): (r: Settlement)
    requires i <= j + 1 <= |w|
    ensures |r.final| == |w|
    ensures forall k :: 0 <= k < |r.transfers| ==> i <= r.transfers[k].debtor < r.transfers[k].creditor <= j
    ensures |r.transfers| <= if i <= j then j - i else 0
    decreases j - i
  {
    if i >= j then Settlement(w, [])
    else
      var amount := Min(-w[i].balance, w[j].balance);
      var w' := Credit(Credit(w, i, amount), j, -amount);
      PayEffect(w, i, j, amount);
      var rest := Settle(w', NextI(w', i), NextJ(w', j));
      Settlement(rest.final, [Transfer(i, j, w[i].name, w[j].name, amount)] + rest.transfers)
  }

  /** One iteration of the loop, unfolded: the transfer of `amount` from `i` to `j`, then the rest. */
  lemma SettleUnfold(w: seq<Person>, i: nat, j: nat, amount: real, w': seq<Person>, rest: Settlement)
    requires i < j < |w|
    requires amount == Min(-w[i].balance, w[j].balance)
    requires w' == Credit(Credit(w, i, amount), j, -amount)
    requires rest == Settle(w', NextI(w', i), NextJ(w', j))
    ensures Settle(w, i, j).transfers == [Transfer(i, j, w[i].name, w[j].name, amount)] + rest.transfers
    ensures Settle(w, i, j).final == rest.final
  {
  }

  /** The loop ends once the indices meet: nothing is transferred and nothing changes. */
  lemma SettleDone(w: seq<Person>, i: nat, j: int)
    requires i <= j + 1 <= |w| && j <= i
    ensures Settle(w, i, j) == Settlement(w, [])
  {
  }

  /** Only balances change, and only inside the window `i..j`. */
  lemma {:induction false} SettleKeepsRest(w: seq<Person>, i: nat, j: int)
    requires i <= j + 1 <= |w|
    ensures forall k :: 0 <= k < |w| ==> Settle(w, i, j).final[k] == w[k].(balance := Settle(w, i, j).final[k].balance)
    ensures forall k :: 0 <= k < |w| && (k < i || j < k) ==> Settle(w, i, j).final[k] == w[k]
    decreases j - i
  {
    if i < j {
      var amount := Min(-w[i].balance, w[j].balance);
      var w' := Credit(Credit(w, i, amount), j, -amount);
      PayEffect(w, i, j, amount);
      SettleKeepsRest(w', NextI(w', i), NextJ(w', j));
    }
  }

  /** Every iteration moves an amount from one person to another, so the total balance is kept. */
  lemma {:induction false} SettleConservesTotal(w: seq<Person>, i: nat, j: int)
    requires i <= j + 1 <= |w|
    ensures TotalBalance(Settle(w, i, j).final) == TotalBalance(w)
    decreases j - i
  {
    if i < j {
      var amount := Min(-w[i].balance, w[j].balance);
      var w' := Credit(Credit(w, i, amount), j, -amount);
      PayKeepsTotal(w, i, j, amount);
      SettleConservesTotal(w', NextI(w', i), NextJ(w', j));
    }
  }

  /**
   * The loop invariant "every balance outside the window `i..j` is zero" holds on exit,
   * where the window holds at most one person; so when the balances sum to zero the
   * loop ends with every balance zero.
   */
  lemma {:induction false} SettleZeroesBalances(w: seq<Person>, i: nat, j: int)
    requires i <= j + 1 <= |w|
    requires TotalBalance(w) == 0.0
    requires forall k :: 0 <= k < |w| && (k < i || j < k) ==> w[k].balance == 0.0
    ensures forall k :: 0 <= k < |w| ==> Settle(w, i, j).final[k].balance == 0.0
    decreases j - i
  {
    if i < j {
      var amount := Min(-w[i].balance, w[j].balance);
      var w' := Credit(Credit(w, i, amount), j, -amount);
      PayEffect(w, i, j, amount);
      PayKeepsTotal(w, i, j, amount);
      SettleZeroesBalances(w', NextI(w', i), NextJ(w', j));
    } else if i == j {
      TotalOfSingleBalance(w, i);
    }
  }

  // ---------------------------------------------------------------------------
  // What is reported

  /** The transfers of at least a cent, in iteration order, as lines naming debtor and creditor. */
  function Recorded(ts: seq<Transfer>): (r: seq<PayFlow>)
    ensures |r| <= |ts|
    ensures forall f :: f in r ==> f.Pays? && f.amount >= ReportThreshold
  {
    if ts == [] then []
    else
      (if ts[0].amount >= ReportThreshold then [Pays(ts[0].debtorName, ts[0].creditorName, ts[0].amount)] else [])
      + Recorded(ts[1..])
  }

  /** `if (payFlows.length == 0) payFlows.push("all payments resolved")`. */
  function Report(flows: seq<PayFlow>): (r: seq<PayFlow>)
    requires forall f :: f in flows ==> f.Pays?
    ensures r != []
    ensures r == [AllPaymentsResolved] <==> flows == []
    ensures flows != [] ==> r == flows
  {
    if flows == [] then [AllPaymentsResolved]
    else
      assert flows[0] in flows;
      flows
  }

  /** The sorted working copy the planner starts from. */
  function WorkingCopy(persons: seq<Person>): (w: seq<Person>)
    ensures SortedByBalance(w)
    ensures |w| == |persons|
  {
    SortByBalance(persons)
  }

  /** The loop run over the whole working copy. */
  function SettleAll(persons: seq<Person>): Settlement {
    Settle(WorkingCopy(persons), 0, |persons| - 1)
  }

  /** The planner's output. */
  function PlanSettlement(persons: seq<Person>): (r: seq<PayFlow>)
    ensures r != []
    ensures r == [AllPaymentsResolved] <==> Recorded(SettleAll(persons).transfers) == []
    ensures |persons| >= 2 ==> |r| <= |persons| - 1
  {
    Report(Recorded(SettleAll(persons).transfers))
  }

  /** Every reported line names the debtor and the creditor of a transfer of the loop, in order. */
  lemma {:induction false} RecordedAreTransfers(ts: seq<Transfer>, f: PayFlow)
    requires f in Recorded(ts)
    ensures exists t :: t in ts && f == Pays(t.debtorName, t.creditorName, t.amount)
  {
    if ts != [] {
      assert ts[0] in ts;
      if f !in Recorded(ts[1..]) {
        assert f == Pays(ts[0].debtorName, ts[0].creditorName, ts[0].amount);
      } else {
        RecordedAreTransfers(ts[1..], f);
        var t :| t in ts[1..] && f == Pays(t.debtorName, t.creditorName, t.amount);
        assert t in ts;
      }
    }
  }

  /** `debtor.balance += amount; creditor.balance -= amount`, on the array. */
  method PayInPlace(work: array<Person>, d: nat, c: nat, amount: real)
    requires d < c < work.Length
    modifies work
    ensures work[..] == Credit(Credit(old(work[..]), d, amount), c, -amount)
  {
    work[d] := work[d].(balance := work[d].balance + amount);
    work[c] := work[c].(balance := work[c].balance + -amount);
  }

  /**
   * The body of the `while (i < j)` loop: `debtor` (at `i`) pays `creditor` (at `j`)
   * the smaller of the debt and the credit, the line is recorded when it reaches a
   * cent, and each index moves past a person whose balance is now zero. `remaining`
   * are the iterations still to come before, `rest` those after this one.
   */
  method SettleIteration(work: array<Person>, i: nat, j: nat, flows: seq<PayFlow>,
                         ghost remaining: seq<Transfer>, ghost final: seq<Person>)
    returns (i': nat, j': int, flows': seq<PayFlow>, ghost rest: seq<Transfer>)
    requires i < j < work.Length
    requires Settle(work[..], i, j) == Settlement(final, remaining)
    modifies work
    ensures i' <= j' + 1 <= work.Length && j' - i' < j - i
    ensures Settle(work[..], i', j') == Settlement(final, rest)
    ensures flows + Recorded(remaining) == flows' + Recorded(rest)
  {
    ghost var ws := work[..];
    var debtor := work[i];
    var creditor := work[j];
    assert debtor == ws[i] && creditor == ws[j];
    var amount := Min(-debtor.balance, creditor.balance);
    PayInPlace(work, i, j, amount);
    ghost var ws' := Credit(Credit(ws, i, amount), j, -amount);
    PayEffect(ws, i, j, amount);
    ghost var r := Settle(ws', NextI(ws', i), NextJ(ws', j));
    SettleUnfold(ws, i, j, amount, ws', r);
    rest := r.transfers;
    assert remaining[1..] == rest;
    debtor, creditor := work[i], work[j];
    ghost var line := if amount >= ReportThreshold then [Pays(debtor.name, creditor.name, amount)] else [];
    assert Recorded(remaining) == line + Recorded(rest);
    assert flows + (line + Recorded(rest)) == (flows + line) + Recorded(rest);
    flows' := flows;
    if amount >= ReportThreshold {
      flows' := flows' + [Pays(debtor.name, creditor.name, amount)];
    } else {
      assert flows + [] == flows;
    }
    i', j' := i, j;
    if debtor.balance == 0.0 {
      i' := i' + 1;
    }
    if creditor.balance == 0.0 {
      j' := j' - 1;
    }
    assert i' == NextI(ws', i) && j' == NextJ(ws', j);
  }

  /**
   * The `while (i < j)` loop, on the array `work` that holds the sorted copy: it leaves
   * the final working copy of `Settle` in `work` and returns the lines of the transfers
   * of at least a cent.
   */
  method SettleInPlace(work: array<Person>) returns (flows: seq<PayFlow>)
    modifies work
    ensures var whole := Settle(old(work[..]), 0, work.Length - 1);
      && work[..] == whole.final
      && flows == Recorded(whole.transfers)
  {
    var n := work.Length;
    var i: int, j: int := 0, n - 1;
    flows := [];
    ghost var whole := Settle(work[..], 0, n - 1);
    ghost var remaining := whole.transfers;
    while i < j
      invariant 0 <= i <= j + 1 <= n
      invariant Settle(work[..], i, j) == Settlement(whole.final, remaining)
      invariant Recorded(whole.transfers) == flows + Recorded(remaining)
      decreases j - i
    {
      i, j, flows, remaining := SettleIteration(work, i, j, flows, remaining, whole.final);
    }
    SettleDone(work[..], i, j);
    assert flows + [] == flows;
  }

  /**
   * TranslateBalanceTableToPayFlows. The input is a value and is never changed: the
   * loop runs on a fresh array holding the sorted copy, whose final state is `working`.
   */
  method TranslateBalanceTableToPayFlows(persons: seq<Person>)
    returns (payFlows: seq<PayFlow>, ghost working: seq<Person>)
    ensures payFlows == PlanSettlement(persons)
    ensures payFlows != []
    ensures |persons| >= 2 ==> |payFlows| <= |persons| - 1
    ensures forall f :: f in payFlows && f.Pays? ==> f.amount >= ReportThreshold
    ensures working == SettleAll(persons).final
  {
    var sorted := WorkingCopy(persons);
    var n := |sorted|;
    var work := new Person[n](k requires 0 <= k < n => sorted[k]);
    assert work[..] == sorted;
    var flows := SettleInPlace(work);
    if |flows| == 0 {
      flows := flows + [AllPaymentsResolved];
    }
    payFlows := flows;
    working := work[..];
  }

  /** The working copy is a permutation of the input, sorted ascending by balance. */
  lemma WorkingCopyIsSortedPermutation(persons: seq<Person>)
    ensures SortedByBalance(WorkingCopy(persons))
    ensures multiset(WorkingCopy(persons)) == multiset(persons)
  {
    SortByBalancePermutes(persons);
  }

  /** What the loop leaves in the working copy: the same persons in the same order, only balances changed. */
  lemma SettleAllFinal(persons: seq<Person>)
    ensures var w := WorkingCopy(persons); var f := SettleAll(persons).final;
      && (forall k :: 0 <= k < |w| ==> f[k] == w[k].(balance := f[k].balance))
      && multiset(Ids(f)) == multiset(Ids(persons))
  {
    var w := WorkingCopy(persons);
    var f := SettleAll(persons).final;
    SettleKeepsRest(w, 0, |w| - 1);
    SortByBalanceIds(persons);
    assert forall k :: 0 <= k < |w| ==> Ids(f)[k] == Ids(w)[k];
    assert Ids(f) == Ids(w);
  }

  /** The loop keeps the total balance; when it is zero, every final balance is zero. */
  lemma SettleAllTotal(persons: seq<Person>)
    ensures var f := SettleAll(persons).final;
      && TotalBalance(f) == TotalBalance(persons)
      && (TotalBalance(persons) == 0.0 ==> forall k :: 0 <= k < |f| ==> f[k].balance == 0.0)
  {
    var w := WorkingCopy(persons);
    SettleConservesTotal(w, 0, |w| - 1);
    SortByBalanceTotal(persons);
    if TotalBalance(persons) == 0.0 {
      SettleZeroesBalances(w, 0, |w| - 1);
    }
  }

  // ---------------------------------------------------------------------------
  // GetPersonMapFromPersons

  /** The Map that `set(p.id, p)` for every person in order builds. */
  function IndexById(persons: seq<Person>): (m: Map<Person>)
    ensures Valid(m)
    ensures forall id :: id in m.values <==> id in Ids(persons)
  {
    if persons == [] then Empty()
    else
      var init := persons[..|persons| - 1];
      var last := persons[|persons| - 1];
      IdsSnoc(persons);
      SetValid(IndexById(init), last.id, last);
      Set(IndexById(init), last.id, last)
  }

  /** The last person in the list with id `id`. */
  function LastWithId(persons: seq<Person>, id: Id): (r: Option<Person>)
    ensures r.Some? ==> r.value.id == id && r.value in persons
    ensures r.None? <==> id !in Ids(persons)
  {
    if persons == [] then None
    else if persons[|persons| - 1].id == id then
      IdsSnoc(persons);
      Some(persons[|persons| - 1])
    else
      IdsSnoc(persons);
      LastWithId(persons[..|persons| - 1], id)
  }

  /** Each id of the list maps to the last person with that id; other ids are absent. */
  lemma {:induction false} IndexByIdGet(persons: seq<Person>, id: Id)
    ensures Get(IndexById(persons), id) == LastWithId(persons, id)
  {
    if persons != [] {
      IndexByIdGet(persons[..|persons| - 1], id);
    }
  }

  method GetPersonMapFromPersons(persons: seq<Person>) returns (personMap: Map<Person>)
    ensures personMap == IndexById(persons)
    ensures forall id :: Get(personMap, id) == LastWithId(persons, id)
  {
    personMap := Empty();
    for k := 0 to |persons|
      invariant personMap == IndexById(persons[..k])
    {
      assert persons[..k + 1][..k] == persons[..k];
      personMap := Set(personMap, persons[k].id, persons[k]);
    }
    assert persons[..|persons|] == persons;
    forall id ensures Get(personMap, id) == LastWithId(persons, id) {
      IndexByIdGet(persons, id);
    }
  }
}
