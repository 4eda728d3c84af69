# Shared-expense ledger: balance bookkeeping and settlement, in Dafny

This project models the arithmetic core of duit-glasgow, a shared-expense ledger. In
the ledger, people record purchases and direct payments. Every person carries a running
balance: positive means the others owe them money, negative means they owe money. The
model covers:

- **The settlement planner** (`TranslateBalanceTableToPayFlows`). It sorts a copy of the
  persons by balance and walks it from both ends. At each step the biggest debtor pays
  the biggest creditor the smaller of the debt and the credit. A transfer of at least a
  cent is reported. It also covers `GetPersonMapFromPersons`, the index of persons by id.
- **Purchase bookkeeping.** This is the part of `upsertPurchaseWithDetails` and
  `deletePurchaseById` that computes a balance map from person id to balance:
  - taking back the stored purchase: the payer loses each line total, and each holder
    gets `total * rate` back;
  - applying the new purchase, with the opposite signs.

  It also covers reading a purchase back. That path groups the share rows by line item,
  recomputes the line totals and overwrites the purchase total.
- **Payment bookkeeping.** This is the in-place balance loop of `upsertPayment` and
  `deletePaymentById`.
- **Merging the balances back** (`updateBalancesWithMap`), with its unknown-id error.
- **Helpers.** Line and purchase totals, validation of purchase and payment input, the
  conversion of a line item's boolean selection into equal shares, and the payloads the
  forms start from.

Modules follow the source files:

- `Models`: the records.
- `OrderedMap`: a JavaScript `Map`, with keys in insertion order.
- `Common`: src/utils/common.ts.
- `PurchaseUtils`: src/utils/purchase.ts.
- `PaymentUtils`: src/utils/payment.ts.
- `PersonService`, `PurchaseService` and `PaymentService`: the three service files; the purchase
  service's read path is in `PurchaseFetch` and its balance bookkeeping in `PurchaseLedger`.
- `Wrappers`: `Option`, `Result` and `Outcome`.

Code that works by mutation is modelled as methods:

- the planner's loop;
- the balance-map loops;
- the payment loops;
- `calculateTotalPrices`;
- the share-grouping `reduce`;
- the share-building loop.

Each method is proved equal to a specification function. The properties are proved as
lemmas about those functions.

Modelling choices:

- **Money** is `real`, so sums and products are exact.
- **Database reads** are parameters: the persons, the stored purchase rows, and the
  stored payment. Database writes are the results.
- **A JavaScript `Map`** is a key sequence in insertion order plus a map of values.
  `OrderedMap.Valid` states what every JavaScript Map satisfies: distinct keys, each
  with a value. Functions that take a Map require it.
- **Array sort.** `Array.prototype.sort` with `a.balance - b.balance` is modelled by a
  stable insertion sort.
  - The sorted order is therefore exactly that of a stable sort.
  - The proved properties are sortedness, being a permutation of the input, the total
    and the ids.
- **Row order.** Neither query in `sql.ts` orders its rows. `PurchaseFetch.SameRows`
  states that two reads hold the same rows in some order. The round-trip lemmas take
  both reads: the rows in the order the upsert stored them, and the rows as read back.
  `PurchaseLedger.PostReordered` and `PurchaseLedger.ReadReversalReordered` show that
  the read order does not change any balance.

Two behaviours of the code are worth stating outright:

- **Payment update.** An update takes the old amount back from the parties the NEW
  payment names, not from the stored payment's own parties (see "## Findings").
- **Sign of a payment.** A payment raises its payer's balance and lowers its
  receiver's. So when A paid 30 for an item shared equally by A, B and C, and B then
  pays A 5, the code leaves A at 15, B at −5 and C at −10
  (`PaymentService.PaymentAfterPurchaseExample`).

## Model

| member | source | states |
|---|---|---|
| Common.InsertByBalance | src/utils/common.ts:5 | inserting a person into a balance-sorted list keeps it sorted, adds exactly one element and brings in nothing else |
| Common.SortByBalance | src/utils/common.ts:5 | the sort keeps the length and returns a list sorted ascending by balance |
| Common.SortByBalancePermutes | src/utils/common.ts:5 | the sorted list is a permutation (same multiset) of the input |
| Common.SortByBalanceTotal | src/utils/common.ts:5 | sorting keeps the total of all balances |
| Common.SortByBalanceIds | src/utils/common.ts:5 | sorting keeps the multiset of ids |
| Common.InsertByBalancePermutes | src/utils/common.ts:5 | inserting into a sorted list adds exactly the inserted person to the multiset |
| Common.InsertByBalanceTotal | src/utils/common.ts:5 | inserting into a sorted list adds the inserted person's balance to the total |
| Common.InsertByBalanceIds | src/utils/common.ts:5 | inserting into a sorted list adds exactly the inserted person's id to the multiset of ids |
| Common.WorkingCopy | src/utils/common.ts:4-5 | the copied working array is sorted ascending by balance and as long as the input |
| Common.SettleAll | src/utils/common.ts:7-26 | the loop run from `i = 0`, `j = n − 1` over the working copy; its properties are stated by SettleAllFinal and SettleAllTotal |
| Common.WorkingCopyIsSortedPermutation | src/utils/common.ts:4-5 | the working copy is a permutation of the input, sorted ascending by balance |
| Common.Min | src/utils/common.ts:11 | `Math.min` is below both arguments and equal to one of them |
| Common.PayEffect | src/utils/common.ts:13-14 | one step credits the debtor, debits the creditor by the same amount, and leaves every other entry alone |
| Common.PayKeepsTotal | src/utils/common.ts:11-14 | one step keeps the total balance of the working copy |
| Common.Settle | src/utils/common.ts:7-26 | the loop from indices i, j makes at most j − i iterations, and every transfer goes from a lower to a higher index inside the window |
| Common.SettleUnfold | src/utils/common.ts:8-25 | while i < j, the loop's transfers are this iteration's transfer followed by those of the rest of the loop from the moved indices |
| Common.SettleDone | src/utils/common.ts:8 | once the indices meet, nothing is transferred and the working copy is unchanged |
| Common.SettleKeepsRest | src/utils/common.ts:9-14 | the loop changes balances only, and only inside the window i..j |
| Common.SettleConservesTotal | src/utils/common.ts:11-14 | the loop keeps the total balance |
| Common.SettleZeroesBalances | src/utils/common.ts:7-26 | from a zero-sum state whose entries outside the window are zero, every final balance is zero |
| Common.Recorded | src/utils/common.ts:16-18 | only transfers of at least 0.01 are reported, one line at most per iteration |
| Common.RecordedAreTransfers | src/utils/common.ts:16-18 | every reported line names the debtor, the creditor and the amount of an iteration |
| Common.Report | src/utils/common.ts:28-32 | the output is never empty; it is exactly the sentinel iff no transfer was reported, else the reported lines |
| Common.PlanSettlement | src/utils/common.ts:3-33 | the result is never empty, is the sentinel iff nothing was reported, and has at most n − 1 lines for n ≥ 2 persons |
| Common.PayInPlace | src/utils/common.ts:13-14 | the array update is the debtor credit followed by the creditor debit |
| Common.SettleIteration | src/utils/common.ts:9-25 | one loop body narrows the window and keeps the remaining transfers and the lines reported so far in step with the specification |
| Common.SettleInPlace | src/utils/common.ts:7-26 | the `while (i < j)` loop leaves the specification's final working copy in the array and returns the reported lines |
| Common.TranslateBalanceTableToPayFlows | src/utils/common.ts:3-33 | the output equals the planner specification: never empty, at most n − 1 lines, every amount at least 0.01; the input is a value and is not changed |
| Common.SettleAllFinal | src/utils/common.ts:4-26 | the final working copy is the sorted copy with only balances changed, and holds exactly the input's ids |
| Common.SettleAllTotal | src/utils/common.ts:7-26 | the loop keeps the total; when the balances sum to zero, every final balance is zero |
| Common.IndexById | src/utils/common.ts:35-39 | the index is a well-formed Map whose keys are exactly the persons' ids |
| Common.LastWithId | src/utils/common.ts:37 | the last person with an id has that id and is in the list; there is none iff the id is absent |
| Common.IndexByIdGet | src/utils/common.ts:35-39 | for every id, the index holds the last person with that id, or nothing |
| Common.GetPersonMapFromPersons | src/utils/common.ts:35-39 | the `forEach` loop builds the index: every id maps to the last person with it |
| OrderedMap.Get | src/pages/api/person/service/service.ts:32 | `get` finds a value exactly for a key that has one |
| OrderedMap.Set | src/pages/api/person/service/service.ts:36 | after `set`, the key holds the new value and every other key keeps its value |
| OrderedMap.SetValid | src/pages/api/person/service/service.ts:36 | `set` keeps a Map well-formed |
| OrderedMap.Values | src/pages/api/person/service/service.ts:39 | `Array.from(map.values())` lists one value per key, in key order |
| OrderedMap.SumValuesSet | src/pages/api/purchase/service/service.ts:81-82 | overwriting a key moves the sum of the values by exactly the change of that value |
| PaymentUtils.ValidatePaymentUpsert | src/utils/payment.ts:25-45 | the check passes iff all five rules hold; otherwise it reports a broken rule such that every earlier rule holds |
| PaymentUtils.ConstructNewPaymentCreate | src/utils/payment.ts:3-12 | the blank payment has no id, no payer, no receiver, no date, amount 0 and empty notes, and is refused first for the missing payer |
| PaymentUtils.ConstructPaymentCreateFromPayment | src/utils/payment.ts:14-23 | the copy changes nothing but the date, which it always fills in (the epoch for a null date) |
| PaymentUtils.CopyValidation | src/utils/payment.ts:14-45 | the copy is judged like the original except that a missing date is no longer an error; copying twice changes nothing |
| PaymentUtils.ValidPaymentIsTransfer | src/utils/payment.ts:25-45 | a valid payment names two distinct persons and a positive amount |
| PurchaseUtils.WithTotal | src/utils/purchase.ts:6 | the line item's total becomes `price * quantity * (1 + taxRate / 100)` and nothing else changes |
| PurchaseUtils.CalculateTotalPrices | src/utils/purchase.ts:4-8 | every element of the array gets its total recomputed, everything else kept |
| PurchaseUtils.WithTotalIdempotent | src/utils/purchase.ts:4-8 | recomputing the totals twice is recomputing them once |
| PurchaseUtils.LineTotalPositive | src/utils/purchase.ts:6 | a line item that passes validation has a positive total |
| PurchaseUtils.LineTotal | src/utils/purchase.ts:6 | a line's total is `price * quantity * (1 + tax_rate / 100)`; its positivity is LineTotalPositive |
| PurchaseUtils.TotalAmount | src/utils/purchase.ts:10-12 | `calculateTotalAmount`'s reduce, the left fold of the line totals from 0; its laws are TotalAmountAppend and TotalAmountCons |
| PurchaseUtils.TotalAmountAppend | src/utils/purchase.ts:10-12 | the purchase total of two lists laid end to end is the sum of their totals |
| PurchaseUtils.TotalAmountCons | src/utils/purchase.ts:10-12 | the purchase total is the first line's total plus that of the rest |
| PurchaseUtils.CheckDetail | src/utils/purchase.ts:36-54 | a line item passes iff all its five rules hold; otherwise the error is a broken rule such that every earlier rule holds |
| PurchaseUtils.CheckDetails | src/utils/purchase.ts:35-55 | the line items pass iff every one passes; otherwise the result is the error of the first failing item |
| PurchaseUtils.CheckPurchase | src/utils/purchase.ts:14-55 | a purchase-level error is a broken purchase rule, and every rule checked before it holds |
| PurchaseUtils.CheckPurchasePass | src/utils/purchase.ts:14-55 | a purchase passes iff it obeys every purchase rule and every line item obeys every line rule |
| PurchaseUtils.CheckPurchaseItemError | src/utils/purchase.ts:35-55 | a line-item error comes only after every purchase rule held, and is the error of the first failing line item |
| PurchaseUtils.ValidatePurchaseCreate | src/utils/purchase.ts:14-56 | the method with its early returns decides exactly what the specification decides |
| PurchaseUtils.ParticipantCounted | src/utils/purchase.ts:60-72 | whenever a share is made, its divisor is positive, so `1 / shareCount` never divides by zero |
| PurchaseUtils.SharesUpToMembers | src/utils/purchase.ts:68-75 | every share belongs to a participant and carries rate `1 / shareCount` and no detail id; every participant gets a share |
| PurchaseUtils.SharesUpToCount | src/utils/purchase.ts:64 | without the communal flag, the number of shares is the number of set flags among the persons' flags |
| PurchaseUtils.CommunalSharesUpTo | src/utils/purchase.ts:61-62 | a communal line item gives every person a share |
| PurchaseUtils.NoParticipantNoShares | src/utils/purchase.ts:68-75 | with nobody selected, no share is made |
| PurchaseUtils.SharesForCount | src/utils/purchase.ts:60-75 | with at most one flag per person, there are exactly as many shares as the divisor counts |
| PurchaseUtils.SharesUpToRates | src/utils/purchase.ts:72 | every share of a line item carries the same rate |
| PurchaseUtils.SharesForSumToOne | src/utils/purchase.ts:58-78 | when somebody takes part and the selection has one flag per person, the rates add up to 1 |
| PurchaseUtils.SharesOfSelection | src/utils/purchase.ts:60-76 | the inner loop builds exactly the specified shares of a selection |
| PurchaseUtils.Populated | src/utils/purchase.ts:76 | only the line item's shares are filled in, from its selection |
| PurchaseUtils.PopulatePurchaseDetailShares | src/utils/purchase.ts:58-78 | every line item gets the shares of its selection and nothing else of the purchase changes |
| PurchaseUtils.ConstructNewPurchaseDetailCreate | src/utils/purchase.ts:92-103 | the empty line item has no id, an empty name, zero quantity, price, tax rate and total, no shares, one false flag per person plus the communal one, and fails validation on its name |
| PurchaseUtils.NewDetailNeedsParticipant | src/utils/purchase.ts:92-103 | filling in name, quantity and price is not enough: it then fails for nobody selected, and makes no share |
| PurchaseUtils.ConstructNewPurchaseCreate | src/utils/purchase.ts:80-90 | the empty purchase has no id, no date, an empty name, payer and store, total 0 (the total of its one empty line item), and fails validation on its name |
| PurchaseUtils.SelectionOf | src/utils/purchase.ts:121-123 | the selection is not communal and selects person k exactly when k holds a share of the stored item |
| PurchaseUtils.SelectionOfRoundTrip | src/utils/purchase.ts:121-123 | turning that selection back into shares gives a share to exactly the persons who held one |
| PurchaseUtils.ConstructDuplicatePurchaseCreateFromPurchase | src/utils/purchase.ts:105-126 | the duplicate drops every id, the date and the shares, keeps the name, store, payer and purchase total, copies each line item's name, quantity, price, tax rate and total, selects each line item's holders, and fails validation as it stands |
| PurchaseUtils.ConstructPurchaseCreateFromPurchase | src/utils/purchase.ts:128-153 | the edit payload keeps every id and the date, the name, store, payer and purchase total, copies each line item's name, quantity, price, tax rate and total, copies each share's holder, rate and line item, and selects the holders |
| PersonService.Refreshed | src/pages/api/person/service/service.ts:36 | a person keeps id and name and takes the map's balance for their id, if it has one |
| PersonService.IndexByIdKeyed | src/pages/api/person/service/service.ts:30 | every person in the index is stored under their own id |
| PersonService.ApplyBalances | src/pages/api/person/service/service.ts:31-37 | the loop over the map entries keeps the index well-formed |
| PersonService.ApplyBalancesFailure | src/pages/api/person/service/service.ts:31-37 | the loop fails iff a remaining key is missing from the index, and then names the first such key |
| PersonService.ApplyBalancesSuccess | src/pages/api/person/service/service.ts:31-37 | on success the index keeps its keys, and every person whose id is a remaining key gets that key's balance |
| PersonService.UpdatedPersons | src/pages/api/person/service/service.ts:28-41 | the merge `updateBalancesWithMap` hands on: the index's values in order, or the first unknown id; its properties are UpdatedPersonsFailure, UpdatedPersonsSuccess and UpdatedPersonsOfDistinct |
| PersonService.UpdatedPersonsFailure | src/pages/api/person/service/service.ts:28-41 | the merge fails iff the map holds an id of no stored person, with 'Person with ID … not found' for the first one in map order |
| PersonService.UpdatedPersonsSuccess | src/pages/api/person/service/service.ts:28-41 | on success, each indexed person, in index order, has the map's balance for their id and keeps every other field |
| PersonService.UpdatedPersonsOfDistinct | src/pages/api/person/service/service.ts:28-41 | with distinct ids, a successful merge returns exactly the fetched persons in order, each refreshed, with none added or dropped |
| PersonService.IndexByIdKeys | src/pages/api/person/service/service.ts:30 | with distinct ids, the index's keys are the ids in order |
| PersonService.LastWithIdOfDistinct | src/pages/api/person/service/service.ts:30 | with distinct ids, the last person with a person's id is that person |
| PersonService.IndexByIdOfDistinct | src/pages/api/person/service/service.ts:30-39 | with distinct ids, the index's values are the persons themselves, in order |
| PersonService.UpdateBalancesWithMap | src/pages/api/person/service/service.ts:28-41 | the loop with its early throw returns exactly the merge specification |
| PurchaseFetch.SharesOfMembers | src/pages/api/purchase/service/service.ts:32-38 | a line item's shares are exactly the share rows that name it |
| PurchaseFetch.FetchedDetails | src/pages/api/purchase/service/service.ts:26-45 | the line items come back in query order, with recomputed totals, every other field kept, and exactly their own shares |
| PurchaseFetch.CompletePurchase | src/pages/api/purchase/service/service.ts:58-63 | the read-back purchase carries the fetched line items and its total is their sum |
| PurchaseFetch.Push | src/pages/api/purchase/service/service.ts:33-36 | one step of the grouping `reduce`: a new line item id starts an empty list, then the share is pushed onto its list |
| PurchaseFetch.Grouped | src/pages/api/purchase/service/service.ts:32-38 | the whole grouping `reduce` from an empty Map; what it holds is GroupedGet |
| PurchaseFetch.GroupedGet | src/pages/api/purchase/service/service.ts:32-38 | after the `reduce`, every line item id maps to exactly its shares in input order, or to nothing (`[]`) |
| PurchaseFetch.SharesOfCount | src/pages/api/purchase/service/service.ts:32-41 | a line item holds each returned share row that names it exactly as often as it was returned, and no other |
| PurchaseFetch.SharesOfReordered | src/pages/api/purchase/service/sql.ts:57-69 | share rows returned in another order give every line item the same shares, in another order |
| PurchaseFetch.GroupSharesByDetail | src/pages/api/purchase/service/service.ts:32-38 | the has/set/get/push loop builds the grouping, which gives each id exactly its shares |
| PurchaseFetch.FetchPurchaseDetailsById | src/pages/api/purchase/service/service.ts:26-45 | the method returns exactly the specified line items |
| PurchaseFetch.FetchPurchaseDetailsByIdThenVerify | src/pages/api/purchase/service/service.ts:47-56 | the purchase's total is always replaced by the sum of the line totals, and a mismatch is reported but does not stop anything |
| PurchaseFetch.FetchCompletePurchaseById | src/pages/api/purchase/service/service.ts:58-63 | the method returns exactly the specified complete purchase |
| PurchaseLedger.BalanceMap | src/pages/api/purchase/service/service.ts:73-76 | the balance map is a well-formed Map whose keys are exactly the persons' ids, each holding the balance of the last person with that id |
| PurchaseLedger.BalanceMapSum | src/pages/api/purchase/service/service.ts:73-76 | with distinct ids, the map's values add up to the persons' total balance |
| PurchaseLedger.AdjustGet | src/pages/api/purchase/service/service.ts:81-82 | one `get ?? 0` plus `set` changes only its id, to the old balance (0 if missing) plus the amount |
| PurchaseLedger.AdjustSum | src/pages/api/purchase/service/service.ts:81-82 | one posting moves the sum of the map by its amount |
| PurchaseLedger.PostGet | src/pages/api/purchase/service/service.ts:79-100 | after a list of postings, an id in the map or posted to holds its old balance (0 if missing) plus everything posted to it; other ids stay absent |
| PurchaseLedger.PostSum | src/pages/api/purchase/service/service.ts:79-100 | the postings move the sum of the map by exactly their total |
| PurchaseLedger.ReverseSharesTotal | src/pages/api/purchase/service/service.ts:84-88 | taking a line item back gives its holders `totalPrice` times the sum of their rates |
| PurchaseLedger.ApplySharesTotal | src/pages/api/purchase/service/service.ts:95-99 | applying a line item takes `totalPrice` times the sum of their rates from its holders |
| PurchaseLedger.ReversePostingsBalanced | src/pages/api/purchase/service/service.ts:79-90 | when every stored line item's rates sum to 1, taking the purchase back posts a total of zero |
| PurchaseLedger.ApplyPostingsBalanced | src/pages/api/purchase/service/service.ts:92-100 | when every new line item's rates sum to 1, applying the purchase posts a total of zero |
| PurchaseLedger.UpsertConserves | src/pages/api/purchase/service/service.ts:65-107 | with distinct person ids and fully shared line items, old and new, the upsert's balance map sums to the persons' total |
| PurchaseLedger.DeleteConserves | src/pages/api/purchase/service/service.ts:109-130 | with distinct person ids and a fully shared purchase, the delete's balance map sums to the persons' total |
| PurchaseLedger.PostThenNegate | src/pages/api/purchase/service/service.ts:79-100 | postings followed by their negation restore every balance; an id they added is left at 0 |
| PurchaseLedger.ReverseDetailNegate | src/pages/api/purchase/service/service.ts:79-100 | taking a stored line item back posts exactly the negation of applying the line item it was stored from |
| PurchaseLedger.ReversePostingsNegate | src/pages/api/purchase/service/service.ts:79-100 | taking a stored purchase back posts exactly the negation of applying the upsert it was stored from |
| PurchaseLedger.UpsertBalances | src/pages/api/purchase/service/service.ts:65-100 | the upsert's balance map: the stored purchase taken back when one is given, then the new one applied, from the persons' balances; its validity is UpsertBalancesValid and its sum UpsertConserves |
| PurchaseLedger.DeleteBalances | src/pages/api/purchase/service/service.ts:109-126 | the delete's balance map: the stored purchase taken back from the persons' balances; its validity is DeleteBalancesValid and its sum DeleteConserves |
| PurchaseLedger.ReadBackTotals | src/pages/api/purchase/service/service.ts:26-28 | reading back a purchase stored from an upsert whose line totals are the form's `quantity * price * (1 + tax_rate / 100)` recomputes exactly those totals |
| PurchaseLedger.DeleteUndoesCreate | src/pages/api/purchase/service/service.ts:92-126 | creating a purchase whose line totals are the form's, then deleting it as `fetchCompletePurchaseById` reads it back from the same rows in any order, restores every balance (ids it added are left at 0) |
| PurchaseLedger.AmountForReordered | src/pages/api/purchase/service/service.ts:79-100 | the postings to an id add up to the same amount in any order |
| PurchaseLedger.PostReordered | src/pages/api/purchase/service/service.ts:79-100 | the balance every id is left with depends only on the multiset of postings, not on their order |
| PurchaseLedger.ReverseSharesReordered | src/pages/api/purchase/service/service.ts:84-88 | a line item's shares in another order are taken back by the same postings, in another order |
| PurchaseLedger.FetchedReversalByShares | src/pages/api/purchase/service/sql.ts:57-69 | with the share rows returned in another order, taking the read-back purchase back posts the same postings, in another order |
| PurchaseLedger.FetchedDetailsReordered | src/pages/api/purchase/service/sql.ts:79-83 | line item rows returned in another order are read back as the same line items, in another order |
| PurchaseLedger.FetchedReversalByRows | src/pages/api/purchase/service/sql.ts:79-83 | with the line item rows returned in another order, taking the read-back purchase back posts the same postings, in another order |
| PurchaseLedger.ReadReversalReordered | src/pages/api/purchase/service/sql.ts:57-83 | reading the same rows back in any order gives the same payer and the same multiset of reversal postings |
| PurchaseLedger.ResaveKeepsBalances | src/pages/api/purchase/service/service.ts:65-107 | updating a purchase with an upsert it was stored from, with the same line totals, leaves every balance as it was |
| PurchaseLedger.ResaveKeepsBalancesInAnyOrder | src/pages/api/purchase/service/service.ts:65-107 | the same when the update reads the stored purchase back from its rows in another order than the one the upsert was stored in |
| PurchaseLedger.FormLineTotal | src/components/purchase/PurchaseUpsertForm.tsx:60 | the line total the upsert form keeps: `quantity * price * (1 + tax_rate / 100)` |
| PurchaseLedger.EditFormPersisted | src/utils/purchase.ts:128-153 | the edit form of a stored purchase has the stored payer, name, quantity, price, tax rate, total, holders and rates of each line item |
| PurchaseLedger.UnchangedEditKeepsBalances | src/pages/api/purchase/service/service.ts:65-107 | an upsert whose payload is the edit form as constructed, before `populatePurchaseDetailShares`, leaves every balance as it was, when the update reads the rows back in the form's order (any order: SavedUnchangedEditKeepsBalancesInAnyOrder) |
| PurchaseLedger.SavedEditForm | src/components/purchase/PurchaseUpsertForm.tsx:123 | the edit form as the form posts it, after `populatePurchaseDetailShares`, keeps one line item per stored line item |
| PurchaseLedger.SavedEditFormPersisted | src/components/purchase/PurchaseUpsertForm.tsx:123 | when each stored line item's shares are the equal shares its selection gives the form's persons, the posted edit form has the stored payer, line fields, totals, holders and rates |
| PurchaseLedger.SavedUnchangedEditKeepsBalances | src/components/purchase/PurchaseUpsertForm.tsx:123 | saving the edit form unchanged, through `populatePurchaseDetailShares`, leaves every balance as it was whenever each stored line item's shares are the equal shares its selection gives the form's persons |
| PurchaseLedger.SavedUnchangedEditKeepsBalancesInAnyOrder | src/pages/api/purchase/service/service.ts:65-107 | the same when the form was built from one read of the purchase's rows and the update reads them back in another order |
| PurchaseService.ReverseDetailInto | src/pages/api/purchase/service/service.ts:81-88 | the inner loop that takes a stored line item back leaves exactly the specified balance map |
| PurchaseService.ApplyDetailInto | src/pages/api/purchase/service/service.ts:93-99 | the inner loop that applies a line item, with null shares counting as none, leaves exactly the specified balance map |
| PurchaseService.ReversePurchaseInto | src/pages/api/purchase/service/service.ts:79-90 | the loop over the stored line items posts the whole reversal |
| PurchaseService.ApplyPurchaseInto | src/pages/api/purchase/service/service.ts:92-100 | the loop over the new line items posts the whole application, using their totals as supplied |
| PurchaseService.UpsertBalancesValid | src/pages/api/purchase/service/service.ts:73-106 | the upsert's balance map is a well-formed JavaScript Map, as `updateBalancesWithMap` receives it |
| PurchaseService.DeleteBalancesValid | src/pages/api/purchase/service/service.ts:113-129 | the delete's balance map is a well-formed JavaScript Map, as `updateBalancesWithMap` receives it |
| PurchaseService.UpsertPurchaseWithDetails | src/pages/api/purchase/service/service.ts:65-107 | the balance map is the reversal of the stored purchase, read back only when the id is truthy, followed by the new purchase; the merge result is that of the person service |
| PurchaseService.DeletePurchaseById | src/pages/api/purchase/service/service.ts:109-130 | the balance map is the reversal of the stored purchase, and the merge result is that of the person service |
| PaymentService.Previous | src/pages/api/payment/service/service.ts:18-21 | the stored payment is used exactly when the upsert's id is truthy |
| PaymentService.UpsertedPerson | src/pages/api/payment/service/service.ts:24-34 | one person in the upsert loop keeps id and name; the payer branch is tried first, and its balance effects are CreateMovesParties and SelfPaymentCountsOnce |
| PaymentService.UpsertedPersons | src/pages/api/payment/service/service.ts:23-35 | the upsert loop keeps every id and name, and leaves whoever is neither party completely unchanged |
| PaymentService.DeletedPerson | src/pages/api/payment/service/service.ts:45-49 | one person in the delete loop keeps id and name; the payer branch is tried first, and its balance effects are DeleteMovesParties |
| PaymentService.DeletedPersons | src/pages/api/payment/service/service.ts:44-50 | the delete loop keeps every id and name, and leaves whoever is neither party completely unchanged |
| PaymentService.UpsertPayment | src/pages/api/payment/service/service.ts:16-39 | the in-place loop leaves the array equal to the upsert specification |
| PaymentService.DeletePaymentById | src/pages/api/payment/service/service.ts:41-54 | the in-place loop leaves the array equal to the delete specification |
| PaymentService.CreateMovesParties | src/pages/api/payment/service/service.ts:23-35 | a create between different persons raises the payer by the amount and lowers the receiver by it |
| PaymentService.DeleteMovesParties | src/pages/api/payment/service/service.ts:44-50 | a delete between different persons lowers the payer by the amount and raises the receiver by it |
| PaymentService.SelfPaymentCountsOnce | src/pages/api/payment/service/service.ts:24-29 | with payer and receiver the same, only the payer branch runs: the person gains amount minus the old amount |
| PaymentService.UpsertMovesTotal | src/pages/api/payment/service/service.ts:23-35 | with two different parties each stored at most once, the total moves by the net change once for a present payer and back once for a present receiver |
| PaymentService.UpsertConservesTotal | src/pages/api/payment/service/service.ts:23-35 | with two different parties each stored exactly once, an upsert keeps the total balance |
| PaymentService.DeleteMovesTotal | src/pages/api/payment/service/service.ts:44-50 | with two different parties each stored at most once, the total moves back by the amount for a present payer and forward for a present receiver |
| PaymentService.DeleteConservesTotal | src/pages/api/payment/service/service.ts:44-50 | with two different parties each stored exactly once, a delete keeps the total balance |
| PaymentService.DeleteUndoesCreate | src/pages/api/payment/service/service.ts:23-50 | deleting the stored payment right after creating it restores every person, whoever the parties are |
| PaymentService.PaymentAfterPurchaseExample | src/pages/api/payment/service/service.ts:23-35 | on balances A 20, B −10, C −10, B paying A 5 gives A 15, B −5, C −10 |
| PaymentService.UpdateWithNewPartiesAsWritten | src/pages/api/payment/service/service.ts:23-35 | as written, A paying B 10 and then editing the payment into C paying B 10, from zero balances, leaves A 10, B −10, C 0: the old payer keeps the credit |
| PaymentService.EditedPaymentAloneExample | src/pages/api/payment/service/service.ts:23-35 | recording C paying B 10 alone, from zero balances, gives A 0, B −10, C 10, which is what the edit should have left |
| PaymentService.CorrectedUpsertedPersons | src/pages/api/payment/service/service.ts:23-35 | the corrected update first takes the stored payment back from its own parties, then records the new one |
| PaymentService.CorrectedUpdateReplaces | src/pages/api/payment/service/service.ts:23-50 | after a create, the corrected update leaves every balance as if only the edited payment had been recorded |
| PaymentService.UpdateKeepingPartiesAgrees | src/pages/api/payment/service/service.ts:23-35 | when an update keeps both parties, the code as written does what the corrected update does |

## Left out

- **I/O and database access.** The database reads and writes, `getPersons`, the `sql.ts` queries and the final `updateBalances` write are left out. Their values are parameters and results.
- **Atomicity.** Atomicity between writing the record and writing the balances is left to the database.
- **Not-found errors on reads.** `getPaymentById` and `getPurchaseById` throw for an unknown id. The model takes the stored row as given, so it has no not-found path for them.
- **Arithmetic and formatting.** IEEE-754 rounding is not modelled, and neither is `toFixed(2)` (a reported line carries the exact amount, not the formatted string). For the same reason, the planner's exact `== 0` tests and the 0.01 threshold are exact on reals.
- **Dates and logging.** `Date` parsing is not modelled: a date is an integer instant, and `new Date(null)` is the epoch. `console` logging is not modelled either; the total mismatch in `fetchPurchaseDetailsByIdThenVerify` is returned as a flag.
- **Aliasing.** Persons and line items are values in arrays or sequences. Shared JavaScript object references are not modelled.
- **Ordering.** The order of the final person list the payment service writes back follows `getPersons` and is not otherwise constrained.
- **Sort tie-breaking.** The comparator of `Array.prototype.sort` is modelled as a stable sort. For equal balances, the engine's result is the stable one since ES2019.
- **Pagination.** `fetchPurchases`, `fetchPayments` and `fetchAllPurchaseDetailSharesByPurchaseId` only forward to the database layer, and are not modelled.
- PurchaseUtils.PopulatePurchaseDetailShares: the source assigns `purchaseDetail.shares` on the caller's object. The model returns the updated upsert instead of mutating it in place.
- PurchaseService.UpsertPurchaseWithDetails: each `get ?? 0` / `set` pair is one `Adjust` step. The model makes no claim about the order inside that pair, which cannot be observed.
- Common.SettleAllTotal: proves that every balance of the final working copy is zero when the input sums to zero. It does not replay the reported transfers on the original persons, because those lines carry names, not indices.
- PaymentService.UpsertConservesTotal: proved only when the two parties differ and each is stored exactly once. This is the condition under which the source's loop conserves the total. A self-payment moves the total by the net change (`SelfPaymentCountsOnce`).
- PurchaseLedger.DeleteUndoesCreate: the upsert adds the `total_price` the client sent, and neither the route nor `validatePurchaseCreate` checks it, while the delete takes back the total recomputed from quantity, price and tax rate. The round trip is therefore proved only for line totals that are the form's `quantity * price * (1 + tax_rate / 100)`; a client sending another total leaves the difference on the payer and the holders.
- PurchaseLedger.PostReordered: states each id's balance only. The Map's key order follows the order of the postings, so when an id is unknown, which "not found" error `updateBalancesWithMap` reports first can depend on the order the rows were read in.
- PurchaseLedger.UpsertConserves: proved only for distinct person ids and line items whose rates sum to exactly 1. With duplicate ids, the balance map drops all but the last balance of an id.
- OrderedMap.Valid as a precondition (ApplyBalances, UpdatedPersons, UpdateBalancesWithMap): these require a well-formed Map of balances. Every JavaScript Map is one, so this excludes no input the source can receive.

## Findings

| source | as written | input that shows it | evidently intended | confidence | as-written member | corrected member |
|---|---|---|---|---|---|---|
| src/pages/api/payment/service/service.ts:23-35 | on an update, the old amount is taken back from whoever the NEW payment names as payer and receiver | balances A 0, B 0, C 0; create A pays B 10; edit it to C pays B 10: the result is A 10, B −10, C 0 | take the stored payment back from its own parties, then apply the new one: A 0, B −10, C 10 | medium (the purchase update reverses the stored purchase on its own payer), not executed | PaymentService.UpdateWithNewPartiesAsWritten | PaymentService.CorrectedUpsertedPersons |

`PaymentService.CorrectedUpdateReplaces` proves the intended property of the corrected
update: after a create, the corrected update leaves every balance as if only the
edited payment had been recorded. `PaymentService.UpdateKeepingPartiesAgrees` shows
that the code as written and the corrected update agree whenever the parties stay the
same.

`PaymentService.UpsertPayment` models the loop as written.
