# Silver-Bank client core in Dafny

Silver-Bank is a small single-page bank. A signed-in user opens accounts
with a generated `NNNN-NNNN-NNNN` number and a random opening balance; the
home page renders the account card without an account, so each click of its
open button adds one more account. They
create a profile holding a six-digit payment password, typed on a shuffled
keypad. They then send money to other accounts by number. Two ledger views
derive from the transactions collection:

- a card listing the accounts the user has sent to;
- a filterable, paginated history of sent and received transfers.

This project models that client-side behaviour, one module per source file:

- `Ledger`: the store's three collections (accounts, user profiles,
  transactions) as sequences in a `Db` object, with first-match lookups.
- `Transfer`: the transfer page. It covers the submit checks in order, the
  receiver lookup, the payment-password check and the atomic write batch.
- `SentAccounts`: the sent-accounts card. It groups the fetched transactions
  by receiver in a loop over a dictionary, sorts the rows three ways and
  shows five per page.
- `TransactionHistory`: the history page. It merges the two query answers,
  sorts them in place (insertion sort on an array), classifies each as send
  or receive, filters, and shows ten per page.
- `PaymentPasswordModal`, `UpdateUserInfoModal`, `PadBuffer`, `NumberPad`:
  the keypad and the two modals it serves.
- `MyAccount`, `AccountNumber`, `KoreanNumber`: account provisioning, the
  number generator and its spoken Hangul reading.
- `Paging`: the slice and ceil arithmetic both views use. `Common` holds
  `Option` and the digits.

State the source changes in place becomes a class with `modifies` clauses:
the store, the pages, the modals and the keypad's array. Guards, records
and list derivations are functions with lemmas. Where a handler awaits
something the rest of the page can observe, the handler is split at that
await into two methods. Examples are `Transfer.TransferPage.Submit` /
`LookupReturned` and `PaymentPasswordModal.BeginSubmit` / `FinishSubmit`.

Inputs the program takes from its environment are parameters:

- random draws: twelve digits, a real `r` in [0, 1), and a sequence of swaps
  for the keypad shuffle;
- new document ids, and where each new document lands in its collection:
  an unordered query answers in document-id order and a new id is random,
  so each write that adds a document takes its position as an input
  (`Ledger.InsertAt`);
- clock readings: each `Date.now()` call is its own integer reading (so a
  record's `createdAt` and `updatedAt` are two inputs), while the
  `serverTimestamp()` fields of one batch share the commit time `now`;
- whether a store call succeeded (`ok`);
- whether the engine's sort calls the name comparator on a row without a
  name (`engineThrows`).

Display names can be null. The account-creation page never sets one: its
profile update is commented out (`src/routes/create-account.tsx:62-64`).
An account document's `username` is copied from the signed-in user's
display name, and a transfer copies both account names into its record. So
every holder name in the model is an `Option<string>`: the auth user's
name, the account's, the transaction's two, and the rows of both views.
The sent-accounts card's name sort calls `localeCompare` on a row's name,
and that throws a TypeError for a null name. The error escapes the sort
effect. The router's default error screen then replaces the route, card
included (`src/App.tsx:20`). `SentAccounts.SentAccounts` records this
in a `crashed` flag, and none of its handlers runs after it.

Two things the code does not do:

- Provisioning writes one account document and no seed transactions
  (`src/components/MyAccount.tsx:104-114`).
- The transfer form does not reject zero or negative amounts; only the
  balance bound is checked (`src/routes/transfer.tsx:173-176`). See
  `Transfer.NonPositiveAmountAccepted`.

## Model

| member | source | states |
|---|---|---|
| Common.DigitChar | src/utils/generateAccountNumber.ts:2 | `d.toString()` of a digit 0..9 is a decimal digit character whose value is `d` |
| Ledger.FindAccountByNumber | src/routes/transfer.tsx:181-194 | the equality query plus `docs[0]`: None exactly when no account has the number, otherwise the first account with it |
| Ledger.FindProfile | src/routes/transfer.tsx:212-221 | None exactly when no profile has the user id, otherwise the first profile with it |
| Ledger.InsertAt | src/components/UpdateUserInfoModal.tsx:77 | a document with a random id lands at position k: one more document, the earlier ones before it, the later ones after, the same documents plus the new one |
| Ledger.ProfileIndex | src/routes/transfer.tsx:219-221 | the position of the user's first profile, or the collection size when there is none; the lookup answers the profile there |
| Ledger.FindProfileInsert | src/routes/transfer.tsx:219-221 | after a profile lands at position k, the lookup finds it exactly when it is the user's and k is at or before the user's first existing profile; otherwise the lookup is unchanged |
| Ledger.SetValanceTotal | src/routes/transfer.tsx:249-255 | with unique ids, updating one document's balance changes the sum of balances by exactly the difference |
| Ledger.SetValanceKeepsIds | src/routes/transfer.tsx:249-255 | a balance update keeps document ids unique |
| Ledger.SentBy | src/routes/transaction.tsx:200-203 | the `senderNumber == n` query answers every document sent from `n` and no other, none more often than the store holds it |
| Ledger.ReceivedBy | src/routes/transaction.tsx:205-208 | the `receiverNumber == n` query answers every document received by `n` and no other, none more often than the store holds it |
| Ledger.SentByCounts | src/routes/transaction.tsx:200-203 | each document sent from `n` is answered exactly as often as the store holds it, and every other document never |
| Ledger.ReceivedByCounts | src/routes/transaction.tsx:205-208 | each document received by `n` is answered exactly as often as the store holds it, and every other document never |
| AccountNumber.Group | src/utils/generateAccountNumber.ts:2-6 | a group is four digit characters whose values are the four draws, leading zeros kept |
| AccountNumber.DigitPosition | src/utils/generateAccountNumber.ts:8 | the k-th digit sits inside the 14 characters and never at a dash position |
| AccountNumber.DigitsOf | src/utils/generateAccountNumber.ts:2-8 | reading the twelve digit positions of a well-formed number yields twelve digits 0..9 |
| AccountNumber.GenerateFormat | src/utils/generateAccountNumber.ts:1-9 | the generated number has length 14, dashes at 4 and 9, digits elsewhere, and the k-th digit position holds the k-th draw |
| AccountNumber.DigitsOfGenerate | src/utils/generateAccountNumber.ts:4-8 | reading the digit positions of a generated number gives back the draws in draw order |
| AccountNumber.GenerateDigitsOf | src/utils/generateAccountNumber.ts:1-9 | every string of the format is generated by its own digits, so the generator reaches exactly the format's strings |
| KoreanNumber.Piece | src/utils/changeNumberToKorean.ts:16-19 | one character contributes at most one character, and exactly one when it is in the table |
| KoreanNumber.TableEntries | src/utils/changeNumberToKorean.ts:2-14 | digit d reads as the d-th of 영일이삼사오육칠팔구, the dash as a space, and nothing else is in the table |
| KoreanNumber.UnmappedVanishes | src/utils/changeNumberToKorean.ts:16-19 | a character outside the table contributes the empty string |
| KoreanNumber.ToKoreanAppend | src/utils/changeNumberToKorean.ts:16-19 | the conversion is a string homomorphism: f(a+b) = f(a)+f(b) |
| KoreanNumber.ToKoreanLength | src/utils/changeNumberToKorean.ts:16-19 | the output is never longer than the input, and equally long if and only if every character is in the table |
| KoreanNumber.ToKoreanAt | src/utils/changeNumberToKorean.ts:16-19 | when every character is mapped, output position i is the syllable of input position i |
| KoreanNumber.KoreanOfGenerated | src/utils/changeNumberToKorean.ts:1-19 | a generated number reads as 14 characters with spaces at 4 and 9 and the k-th draw's syllable at the k-th digit position |
| MyAccount.InitialValance | src/components/MyAccount.tsx:100-108 | the floor of r·99,000,000 + 1,000,000 lies in [1,000,000, 99,999,999] |
| MyAccount.OpenAccountRecord | src/components/MyAccount.tsx:98-114 | a record exists exactly when there is no account and a user is signed in; it has the generated number, a balance in range, the user's display name as it is (possibly null) and id, the two clock readings as creation and update times, and no deletion time |
| MyAccount.OpenAccount | src/components/MyAccount.tsx:98-118 | the store gains that one account, at the position its id gives it, when the write succeeds and is otherwise unchanged; profiles and transactions are never written |
| MyAccount.ProvisionedIsFound | src/components/MyAccount.tsx:104-114 | wherever the new account lands, it is what a lookup by its number finds when no other account has that number |
| PadBuffer.Append | src/components/PaymentPasswordModal.tsx:81-86 | a press appends only while the buffer is shorter than six, otherwise the buffer is unchanged |
| PadBuffer.DeleteLast | src/components/PaymentPasswordModal.tsx:88-91 | delete drops exactly the last character; the empty buffer stays empty |
| PadBuffer.AppendBounded | src/components/PaymentPasswordModal.tsx:81-83 | one-character presses never grow the buffer past six |
| PadBuffer.DeleteUndoesAppend | src/components/PaymentPasswordModal.tsx:81-91 | deleting right after an accepted press restores the buffer |
| PadBuffer.PressesFill | src/components/UpdateUserInfoModal.tsx:94-101 | any run of presses keeps the buffer and fills it with the first keys pressed, stopping at six |
| PadBuffer.SixDigitPressesValidate | src/components/UpdateUserInfoModal.tsx:67-72 | six or more digit presses from empty give the first six digits, which pass the six-digit check |
| NumberPad.InitialOrderIsPermutation | src/components/NumberPad.tsx:77-79 | the starting list holds each digit 0..9 exactly once and nothing else |
| NumberPad.PermutationHasDigits | src/components/NumberPad.tsx:77-79 | any permutation of the ten digits has ten entries, all digits |
| NumberPad.SwapAt | src/components/NumberPad.tsx:41-43 | one exchange keeps the length and the multiset of the list |
| NumberPad.ApplySwapsPermutes | src/components/NumberPad.tsx:41-43 | however the random comparator answers, the shuffled list is a permutation of the input |
| NumberPad.ButtonAt | src/components/NumberPad.tsx:50-64 | a digit button shows one of the ten slots |
| NumberPad.SlotsShownOnce | src/components/NumberPad.tsx:50-83 | of 12 buttons, index 5 is delete, 11 is clear, and each of the ten slots is shown by exactly one button via `index < 5 ? index : index - 1` |
| NumberPad.EventAt | src/components/NumberPad.tsx:45-46 | a digit press hands over a one-character decimal string |
| NumberPad.EveryDigitOffered | src/components/NumberPad.tsx:50-83 | over any shuffle, every digit 0..9 is offered by some button |
| NumberPad.NumberPad.constructor | src/components/NumberPad.tsx:77-79 | mounting shuffles the starting list, and the result is a digit permutation |
| NumberPad.NumberPad.Shuffle | src/components/NumberPad.tsx:41-43 | the array is reordered in place by exactly the given exchanges |
| NumberPad.NumberPad.Press | src/components/NumberPad.tsx:45-75 | delete and clear only call back; a digit calls back with its string and then reshuffles, keeping a digit permutation |
| PaymentPasswordModal.PaymentPasswordModal.NumberPadClick | src/components/PaymentPasswordModal.tsx:81-86 | the buffer follows `Append`; the error is cleared only when the press appended |
| PaymentPasswordModal.PaymentPasswordModal.NumberPadDelete | src/components/PaymentPasswordModal.tsx:88-91 | the last character is dropped and the error cleared |
| PaymentPasswordModal.PaymentPasswordModal.NumberPadClear | src/components/PaymentPasswordModal.tsx:93-96 | the buffer is emptied and the error cleared |
| PaymentPasswordModal.PaymentPasswordModal.BeginSubmit | src/components/PaymentPasswordModal.tsx:65-70 | the error is cleared, loading is on, and the buffer is what the callback receives |
| PaymentPasswordModal.PaymentPasswordModal.FinishSubmit | src/components/PaymentPasswordModal.tsx:71-78 | loading ends; a false answer sets the wrong-password error and leaves the modal open, a true one closes the modal |
| UpdateUserInfoModal.Decide | src/components/UpdateUserInfoModal.tsx:62-84 | ignored exactly when loading, without a user or with an empty field; refused exactly when otherwise not six digits; else the profile {uid, username, password, the two clock readings, no deletion time} is written |
| UpdateUserInfoModal.UpdateUserInfoModal.ChangeUsername | src/components/UpdateUserInfoModal.tsx:50-57 | only the name field changes |
| UpdateUserInfoModal.UpdateUserInfoModal.NumberPadClick | src/components/UpdateUserInfoModal.tsx:94-101 | the password follows `Append`; nothing else changes |
| UpdateUserInfoModal.UpdateUserInfoModal.NumberPadDelete | src/components/UpdateUserInfoModal.tsx:103-108 | the password loses its last character |
| UpdateUserInfoModal.UpdateUserInfoModal.NumberPadClear | src/components/UpdateUserInfoModal.tsx:110-115 | the password becomes empty |
| UpdateUserInfoModal.UpdateUserInfoModal.Submit | src/components/UpdateUserInfoModal.tsx:60-77 | the error is cleared first; a refused password sets its error; an accepted form starts loading with that profile pending; nothing is written yet |
| UpdateUserInfoModal.UpdateUserInfoModal.WriteFinished | src/components/UpdateUserInfoModal.tsx:77-91 | success stores exactly the one profile, at the position its id gives it, and closes; failure sets the error and stays open; loading ends either way |
| Paging.Slice | src/components/SendedAccounts.tsx:240 | JavaScript `slice` with both bounds clamped to the length |
| Paging.PageItems | src/components/SendedAccounts.tsx:237-240 | page p holds at most perPage items, namely items (p-1)·perPage onward in order |
| Paging.TotalPages | src/components/SendedAccounts.tsx:241 | `Math.ceil(n / perPage)`: the least t with n ≤ t·perPage |
| Paging.GridIsFull | src/components/SendedAccounts.tsx:304-314 | items plus empty padding rows always make exactly perPage rows |
| Paging.FirstPagesArePrefix | src/components/SendedAccounts.tsx:237-240 | pages 1..k laid end to end are the first k·perPage items |
| Paging.PagesPartition | src/components/SendedAccounts.tsx:237-241 | pages 1..TotalPages laid end to end are the whole list, and every later page is empty |
| Paging.InnerPagesFull | src/components/SendedAccounts.tsx:237-241 | every page before the last is full |
| Paging.ArrowsStayInRange | src/components/SendedAccounts.tsx:316-347 | with prev disabled on page 1, next disabled on the last page and the pager hidden for one page, arrow clicks keep the page in 1..TotalPages |
| SentAccounts.FirstIndex | src/components/SendedAccounts.tsx:190-198 | the first fetched document sent to the receiver |
| SentAccounts.RowsFor | src/components/SendedAccounts.tsx:202-204 | one row per listed number, in that order |
| SentAccounts.HasStep | src/components/SendedAccounts.tsx:187-200 | after one more document, a number occurs iff it did before or is that document's |
| SentAccounts.ReceiversOccur | src/components/SendedAccounts.tsx:185-204 | a number is a dictionary key exactly when some fetched document went to it |
| SentAccounts.ReceiversDistinct | src/components/SendedAccounts.tsx:185-204 | no receiver number is listed twice |
| SentAccounts.OneRowPerReceiver | src/components/SendedAccounts.tsx:185-204 | grouping yields exactly one row per distinct receiver number |
| SentAccounts.CountPositive | src/components/SendedAccounts.tsx:190-199 | a receiver that occurs has a count of at least one |
| SentAccounts.CountAbsent | src/components/SendedAccounts.tsx:190-199 | a number nobody was sent to has count zero |
| SentAccounts.RowContents | src/components/SendedAccounts.tsx:190-199 | each row's count is the number of fetched documents to it, and its name and date are the first such document's |
| SentAccounts.RowsInFirstSeenOrder | src/components/SendedAccounts.tsx:202-206 | rows appear in order of each receiver's first fetched document |
| SentAccounts.ReceiversOrdered | src/components/SendedAccounts.tsx:202-206 | listed receivers are ordered by first occurrence |
| SentAccounts.CountsSumToTotal | src/components/SendedAccounts.tsx:190-199 | the counts sum to the number of fetched documents |
| SentAccounts.SumCountsIsSumOver | src/components/SendedAccounts.tsx:190-199 | the rows' counts sum to the per-number counts summed |
| SentAccounts.SumOverExtend | src/components/SendedAccounts.tsx:190-199 | one more document adds one to the per-number counts of its number |
| SentAccounts.OccurrencesDistinct | src/components/SendedAccounts.tsx:185-204 | in a list without repeats a number occurs once or not at all |
| SentAccounts.SumOverReceivers | src/components/SendedAccounts.tsx:190-199 | the counts over all receivers sum to the number of documents |
| SentAccounts.RowDateIsNewest | src/components/SendedAccounts.tsx:177-198 | with the newest-first query order, a row's date is the newest transfer to that receiver |
| SentAccounts.RowForStep | src/components/SendedAccounts.tsx:190-199 | one more document adds one to an existing row's count, or starts a row with its name, date and count 1 |
| SentAccounts.GroupByReceiver | src/components/SendedAccounts.tsx:185-206 | the dictionary loop followed by `Object.values` yields exactly the grouped rows |
| SentAccounts.Insert | src/components/SendedAccounts.tsx:222-228 | insertion adds exactly the one row |
| SentAccounts.SortBy | src/components/SendedAccounts.tsx:222-228 | the sort is a permutation of the rows |
| SentAccounts.InsertSorted | src/components/SendedAccounts.tsx:222-228 | inserting into a sorted list keeps it sorted under a total order |
| SentAccounts.SortBySorted | src/components/SendedAccounts.tsx:222-228 | under a total order the sort's result is sorted |
| SentAccounts.SortRows | src/components/SendedAccounts.tsx:219-229 | every sort mode is a permutation of the rows |
| SentAccounts.SortModes | src/components/SendedAccounts.tsx:219-229 | 'date' keeps the row order, 'accountName' (when it returns) orders names ascending under the collation with a null name compared as "null", 'counts' orders counts non-increasing |
| SentAccounts.NameKey | src/components/SendedAccounts.tsx:224 | `localeCompare`'s argument as a string: the name itself, or "null" for a null name |
| SentAccounts.SortedChain | src/components/SendedAccounts.tsx:222-225 | adjacent name order extends to all pairs |
| SentAccounts.CountChain | src/components/SendedAccounts.tsx:226-228 | adjacent count order extends to all pairs |
| SentAccounts.SentAccounts.CurrentItems | src/components/SendedAccounts.tsx:237-240 | the current page shows at most five rows |
| SentAccounts.SentAccounts.constructor | src/components/SendedAccounts.tsx:161-167 | mounting: empty lists, 'date', page 1 |
| SentAccounts.SentAccounts.Fetch | src/components/SendedAccounts.tsx:172-231 | the documents are the store's transfers from this account, newest first; without an account, on failure or with no documents nothing changes; otherwise both lists are set to the grouping, which lists exactly the numbers the account sent to, and the sort effect runs on it |
| SentAccounts.SentAccounts.SetSorting | src/components/SendedAccounts.tsx:219-231 | a new mode runs the sort effect on the unchanged rows; the current mode changes nothing |
| SentAccounts.SentAccounts.SortEffect | src/components/SendedAccounts.tsx:219-231 | the rows are re-sorted by the mode and the page goes to 1; a throwing name sort instead crashes the card and leaves the sorted rows and the page as they were |
| SentAccounts.SentQueryMembers | src/components/SendedAccounts.tsx:177-183 | the query's answer holds exactly the store's transactions sent from the account, as many as the store holds |
| SentAccounts.CardListsReceivers | src/components/SendedAccounts.tsx:177-204 | the grouped answer lists exactly the numbers the store has transfers from the account to |
| SentAccounts.CardOfStore | src/components/SendedAccounts.tsx:177-204 | against the store: the card lists exactly the numbers the account sent to, each row's date is the newest transfer to that number, and the counts sum to the number of transfers the account sent |
| SentAccounts.SentAccounts.GoToPage | src/components/SendedAccounts.tsx:336-340 | a page button selects its page |
| SentAccounts.SentAccounts.PrevPage | src/components/SendedAccounts.tsx:316-319 | the previous arrow moves back unless disabled or hidden, staying in range |
| SentAccounts.SentAccounts.NextPage | src/components/SendedAccounts.tsx:345-347 | the next arrow moves on unless disabled or hidden, staying in range |
| TransactionHistory.Merge | src/routes/transaction.tsx:215-218 | the merged list is the sent answers followed by the received ones; its length is the sum |
| TransactionHistory.MergedAllParties | src/routes/transaction.tsx:199-218 | every merged document has the account as sender or receiver |
| TransactionHistory.Classify | src/routes/transaction.tsx:224-247 | a row is a send iff the account sent it, with the receiver as counterpart; otherwise a receive with the sender as counterpart; id, amount, memo and time copied |
| TransactionHistory.ClassifyAll | src/routes/transaction.tsx:224-248 | the rows are the documents classified one by one, in order |
| TransactionHistory.SignOfRow | src/routes/transaction.tsx:226-246 | the row keeps the stored amount; a minus is drawn exactly for sends and a plus exactly for receives |
| TransactionHistory.SortNewestFirst | src/routes/transaction.tsx:220-222 | the in-place sort leaves a permutation of the array with non-increasing `createdAt` |
| TransactionHistory.InsertNewest | src/routes/transaction.tsx:220-222 | one insertion step extends the newest-first prefix by one, permuting the array |
| TransactionHistory.SwapDown | src/routes/transaction.tsx:220-222 | one exchange keeps the partly inserted prefix ordered and permutes the array |
| TransactionHistory.OfKind | src/routes/transaction.tsx:272-273 | the filter keeps exactly the rows of that kind |
| TransactionHistory.OfKindAppend | src/routes/transaction.tsx:272-273 | the filter distributes over concatenation, so kept rows stay in their order |
| TransactionHistory.FiltersPartition | src/routes/transaction.tsx:267-275 | 'all' is the whole list, and 'send' and 'receive' split it: counts add up and every row is in one of them |
| TransactionHistory.SendCount | src/routes/transaction.tsx:224-236 | the send rows are as many as the documents the account sent |
| TransactionHistory.SelfTransferListedTwice | src/routes/transaction.tsx:199-218 | a transfer from the account to itself is answered by both queries, so it is in the merged list twice, classified as a send |
| TransactionHistory.TwoPositions | src/routes/transaction.tsx:215-222 | an element listed twice has two positions |
| TransactionHistory.SelfTransferShownTwice | src/routes/transaction.tsx:215-248 | after the fetch, such a transfer is shown as two identical send rows |
| TransactionHistory.TransactionHistory.CurrentItems | src/routes/transaction.tsx:283-289 | the current page shows at most ten rows |
| TransactionHistory.TransactionHistory.constructor | src/routes/transaction.tsx:155-162 | mounting: nothing fetched, 'all', page 1 |
| TransactionHistory.TransactionHistory.Fetch | src/routes/transaction.tsx:195-257 | without an account or on failure nothing changes; otherwise the rows are the classified newest-first permutation of the merged answers, and the filtered list is all of them |
| TransactionHistory.TransactionHistory.SetFilter | src/routes/transaction.tsx:267-277 | a new filter re-filters the rows and resets the page to 1; the current filter changes nothing |
| TransactionHistory.TransactionHistory.GoToPage | src/routes/transaction.tsx:371-375 | a page button selects its page |
| TransactionHistory.TransactionHistory.PrevPage | src/routes/transaction.tsx:350-353 | the previous arrow moves back unless disabled or hidden |
| TransactionHistory.TransactionHistory.NextPage | src/routes/transaction.tsx:379-381 | the next arrow moves on unless disabled or hidden |
| Transfer.SubmitGuard | src/routes/transfer.tsx:165-176 | ignored iff loading or a field is empty; then a self-transfer is refused, then an amount above the balance; otherwise the lookup runs |
| Transfer.SelfTransferCheckedFirst | src/routes/transfer.tsx:168-176 | a self-transfer is refused as such even when the amount also exceeds the balance |
| Transfer.NonPositiveAmountAccepted | src/routes/transfer.tsx:166-176 | a zero or negative amount passes the checks |
| Transfer.LookupOutcome | src/routes/transfer.tsx:178-202 | a failing query gives the lookup error, no account the not-found error, and otherwise the typed number with the first matching account's holder name |
| Transfer.ModalOpensOnlyAfterChecks | src/routes/transfer.tsx:163-199 | the modal opens only for a filled form, another account, an amount within the balance and an existing receiver, whose first match's name is shown |
| Transfer.CheckPassword | src/routes/transfer.tsx:208-229 | true exactly when the query succeeds and the user's first profile holds exactly the typed password |
| Transfer.ProfileUnlocksTransfers | src/routes/transfer.tsx:208-229 | for a user without a profile, the password chosen in the profile modal is the one that unlocks transfers; a second profile decides instead of the first exactly when its id puts it at or before the first |
| Transfer.TransferRecord | src/routes/transfer.tsx:257-267 | the record carries both names and numbers, the amount, the memo, the clock's times and no deletion time |
| Transfer.Commit | src/routes/transfer.tsx:237-269 | nothing is written exactly when the receiver number finds no document or the sender's snapshot id names none; otherwise exactly one record is added, at the position its id gives it, and the account collection keeps its size |
| Transfer.CommitBalances | src/routes/transfer.tsx:249-255 | in a batch that goes through, the receiver document gets its re-read balance plus the amount, the sender document its snapshot balance minus it (the later write wins on a self-transfer), and every other account is unchanged |
| Transfer.CommitAccounts | src/routes/transfer.tsx:237-255 | with the sender document present and the receiver found, the batch goes through and its accounts are the debit followed by the credit |
| Transfer.CommitTotal | src/routes/transfer.tsx:237-269 | the sum of balances moves by exactly the snapshot's distance from the stored sender balance, so a current snapshot conserves it |
| Transfer.DebitCreditTotal | src/routes/transfer.tsx:249-255 | two updates on distinct documents change the sum by both differences |
| Transfer.TransferPage.constructor | src/routes/transfer.tsx:131-150 | the form starts with the handed-over receiver and no amount or memo |
| Transfer.TransferPage.ChangeReceiver | src/routes/transfer.tsx:152-159 | only the receiver field changes |
| Transfer.TransferPage.ChangeAmount | src/routes/transfer.tsx:152-159 | only the amount field changes |
| Transfer.TransferPage.ChangeMemo | src/routes/transfer.tsx:152-159 | only the memo field changes |
| Transfer.TransferPage.Submit | src/routes/transfer.tsx:161-179 | the error is cleared, then `SubmitGuard` decides; the modal and the store are untouched |
| Transfer.TransferPage.LookupReturned | src/routes/transfer.tsx:185-205 | a found receiver is shown and opens the modal; otherwise the error is set and the modal is unchanged; loading ends |
| Transfer.TransferPage.ValidatePaymentPassword | src/routes/transfer.tsx:208-229 | answers `CheckPassword`; a failing query sets the error; the store is not written |
| Transfer.TransferPage.UpdateTransaction | src/routes/transfer.tsx:231-277 | a batch that goes through writes exactly `Commit`'s collections and completes; otherwise nothing is written and the error is set; profiles are never written |
| Transfer.TransferPage.HandlePasswordSubmit | src/routes/transfer.tsx:279-287 | the batch runs only after a successful check, and the answer is the check's result whatever the batch does |
| Transfer.ConfirmInModal | src/routes/transfer.tsx:420-425 | the modal closes and the page hides it exactly when the password matched; a wrong password leaves the store as it was |

## Left out

- Firestore and Auth calls are not modelled. The store is three sequences in
  a `Db` object. A failed call is an `ok` parameter. The write batch is one
  atomic step.
- Concurrency and async interleaving are not modelled. Each await either
  splits a handler into two methods or happens inside one method. The race
  between concurrent transfers, where the page's stale balance snapshot is
  debited, is quantified by `Transfer.CommitTotal`, not simulated.
- `Math.random` is an input: twelve digit draws, a real `r`, and the
  exchanges of the keypad's sort. `ApplySwapsPermutes` covers any sequence
  of exchanges, which is all a comparison sort performs.
- `MyAccount.InitialValance`: exact reals stand in for IEEE-754 doubles, so
  rounding in `Math.random() * 99000000` is not captured.
- `localeCompare` is an abstract total preorder `nameLe`.
- `SentAccounts.NameSortMayThrow`: whether the name sort actually throws
  depends on which rows the engine passes to the comparator as its
  receiver. The model takes this as the input `engineThrows` and only
  states when a throw is possible: two rows or more, one of them without a
  name. Rendering the card before the crash, and React's own error
  reporting, are not modelled.
- `toLocaleString` (dates and amounts) is not modelled. Rows carry the
  numeric `createdAt`, and the insufficient-funds error carries the balance
  as a number.
- `+amount` parsing is abstracted: the amount field is `Option<int>`, with
  None for the empty text. Non-numeric text and fractional amounts are not
  modelled.
- Text-to-speech, clipboard copying, routing, styling, the loading screen
  and the login and account-creation pages are not modelled.
- `fetchAccount` in the history page is a first-match lookup. The found
  account is a constructor parameter of `TransactionHistory`.
- `SentAccounts.SortBy` and `TransactionHistory.SortNewestFirst`: both are
  stable, as JavaScript's sort is, but stability is not stated.
- `Object.values` lists receiver-number keys in insertion order. This holds
  because account numbers contain dashes and so are never array indices;
  integer-like keys, which JavaScript orders first, are not modelled.
- The keypad's `numbers` array is modelled from mount onward. It is empty
  before its first effect runs.
- The history page's documents come from two separate query answers. A
  document in neither, for which the `map` callback returns `undefined`, is
  excluded by `Classify`'s precondition. Both queries guarantee this
  precondition.
- `TransactionHistory.TransactionHistory.Fetch` does not reset the page
  (neither does the source), so its class invariant only keeps the page at
  or above 1.
- Timestamps are integer clock readings. `Date.now()` is epoch milliseconds
  on the client's clock, with no bound between two readings.
  `serverTimestamp()` is the server's commit time, one `now` per batch.
- A transaction's `createdAt` and `updatedAt` are the whole seconds of its
  server Timestamp. The history sort compares exactly those
  (`createdAt.seconds`). The card's `orderBy('createdAt', 'desc')` orders by
  the full Timestamp, so documents within one second come in an order
  `NewestFirst` leaves free. The nanoseconds are not modelled.
