# Loan ledger of a micro-lending shop

A shopkeeper (the *user*) records customers, issues loans to them and records repayments.
This project models the loan-ledger core of that backend:

- **The loan record** (`models/Loan.js`): schema bounds, the `updateStatus` rule and the
  pre-save hook.
- **The customer record** (`models/Customer.js`): required fields, the trust-score bounds, the
  defaults and trimmed text.
- **The loan controller** (`controllers/loanController.js`):
  - creating a loan, which credits the customer;
  - recording a repayment, which lowers the balance and adds to the customer's repaid total;
  - reading one loan or a filtered list, which refreshes the stored status and saves it when it
    changed;
  - the portfolio summary;
  - the overdue list.

The model is built in these modules:

- `LoanModel`:
  - a loan as stored is the datatype `LoanDoc`;
  - the in-memory document the controller loads, edits and saves is the class `Loan`, whose
    `UpdateStatus` and `PreSave` methods change its fields in place.
- `CustomerModel`: customer creation as a function returning either the record or the set of
  failing fields.
- `Store`: a class that holds the database state:
  - `customers`, a map;
  - `loans`, a sequence in insertion order, the order queries return them in;
  - the next loan id;
  - a ghost count of loan writes, so each operation states how many saves it performs.

  Each controller operation is a method of `Store`, and is proved against specification
  functions:
  - `Summarize` for the summary;
  - `OverdueLoans` over `Candidates` for the overdue list;
  - `Select` and `RefreshAll` for the list query;
  - `Repaid` for a repayment;
  - `CreatedLoan` for creation.
- `Portfolio`: those specification functions and their lemmas.
- `Ledger`: the customer totals.
  - `LedgerConsistent` states that every customer's `totalCredit` and `totalRepaid` equal the sums
    over that customer's loans.
  - Every operation of `Store` preserves it.

Three behaviours of the code are easy to miss; the model follows the code in each:

- **Initial status.** When the body supplies no status, a new loan gets the schema default
  status `pending`; the status is not derived at creation. A loan created already past its
  due date is therefore stored as `pending` until it is first read.
- **List filter.** The status filter of the loan list compares the stored status, before the
  refresh.
- **Non-atomic repayment.** A repayment is not atomic.
  - The loan is saved first, then the customer is looked up by id alone.
  - When that customer record was deleted, the loan save stands and the operation fails
    (`CustomerMissing`).

Times are milliseconds since the epoch (`Millis`, an integer). The current time, which the
source reads from the wall clock, is a parameter `now` of each operation. Money amounts are
integers.

## Model

| member | source | states |
|---|---|---|
| Text.Trim | models/Customer.js:8 | the trimmed text is no longer than the input and neither starts nor ends with a JavaScript whitespace character |
| Text.TrimCutsWhitespace | models/Customer.js:20-23 | trimming keeps one contiguous piece of the input and everything it removes on either side is whitespace |
| Text.TrimIdempotent | models/Loan.js:10-13 | trimming an already trimmed value (a stored description, name or address) changes nothing |
| Text.TrimBlank | models/Customer.js:5-9 | a name made only of whitespace trims to the empty string, which `required` refuses |
| LoanModel.ParseStatus | controllers/loanController.js:52-54 | a status query parameter is used only when it is one of `pending`, `paid`, `overdue`; any other text gives no status filter |
| LoanModel.Loan.UpdateStatus | models/Loan.js:66-75 | `paid` when nothing is left to repay, otherwise `overdue` strictly after the due date, otherwise `pending`; stores and returns it, changes only `status`, and leaves an already fresh status as it is |
| LoanModel.Loan.PreSave | models/Loan.js:58-63 | a new document's balance becomes its amount, whatever was supplied; a document saved before keeps its balance |
| LoanModel.SchemaValid | models/Loan.js:5-43 | the loan schema bounds: `amount` at least 1, `remainingAmount` at least 0, every repayment amount at least 1; the status enum is the type `Status` |
| LoanModel.Collected | controllers/loanController.js:202 | the `reduce` summing a loan's repayment amounts, in history order; its properties are stated by `CollectedAppend` and `CollectedAtLeastCount` |
| LoanModel.CollectedAtLeastCount | models/Loan.js:37-43 | with every repayment at least 1, what was collected is at least the number of repayments, so a non-empty history has collected something |
| LoanModel.DeriveStatus | models/Loan.js:66-75 | the status rule: `paid` iff nothing is left to repay, `overdue` iff something is owed and `now` is strictly after the due date, `pending` iff something is owed and the due date has not passed |
| LoanModel.DerivedStatusCoherent | models/Loan.js:66-75 | a derived status says `paid` exactly when the balance is not positive, and deriving again at the same time changes nothing |
| LoanModel.RefreshKeepsInvariant | controllers/loanController.js:109-114 | refreshing the status of a loan that satisfies the loan invariant (schema bounds, balance equals amount minus repayments floored at 0, `paid` iff no balance) keeps it |
| LoanModel.OverdueStaysOverdue | models/Loan.js:69-70 | while the balance does not change, an overdue loan stays overdue as time passes |
| LoanModel.CollectedAppend | controllers/loanController.js:155-159 | appending a repayment adds exactly its amount to what was collected |
| CustomerModel.NewCustomer | models/Customer.js:4-47 | creating a customer either fails with a non-empty set of failing fields or yields a record with a trust score in 1..10 and a non-empty name with no whitespace at either end |
| CustomerModel.NewCustomerRefusals | models/Customer.js:5-42 | creation fails exactly when the name is missing or blank after trimming, the phone is missing, empty or not a mobile number, a trust score outside 1..10 is given, or the owner is missing; a missing owner is reported iff it is missing |
| CustomerModel.NewCustomerDefaults | models/Customer.js:20-46 | trust score, credit and repaid totals as supplied, otherwise 5, 0 and 0; owner and phone as given; the name stored as the supplied name trimmed; the address absent when none is supplied and otherwise the supplied address trimmed; both stable under trimming |
| Portfolio.OverdueLoans | controllers/loanController.js:255-258 | the `filter` of the overdue list: the loans whose status at `now` is overdue, in order, each with that status recorded; what it returns is stated by `OverdueLoansSound` and `OverdueLoansComplete` |
| Portfolio.Summarize | controllers/loanController.js:189-232 | the figures of the summary; pending is loaned minus collected, and the overdue amount is exactly what the overdue list of the same loans still owes |
| Portfolio.OverdueLoansSound | controllers/loanController.js:255-258 | every loan on the overdue list is one of the given loans, with its status refreshed to overdue, with a positive balance past its due date; the list is no longer than the input |
| Portfolio.OverdueLoansComplete | controllers/loanController.js:255-258 | every loan with a positive balance past its due date is on the overdue list |
| Portfolio.TotalsOfConcat | controllers/loanController.js:198-203 | the amount, collected and balance totals of two portfolios together are the sums of the totals of each |
| Portfolio.OverdueAmountOfConcat | controllers/loanController.js:205-209 | the overdue amount of two portfolios together is the sum of both |
| Portfolio.RepaymentTimesOfConcat | controllers/loanController.js:211-217 | the repayment times of two portfolios together are those of the first followed by those of the second |
| Portfolio.OverdueLoansOfConcat | controllers/loanController.js:255-258 | the overdue list of two portfolios together is the first's list followed by the second's, so it keeps the store order |
| Portfolio.SummaryOfConcat | controllers/loanController.js:198-232 | every summary total of two portfolios together is the sum of the two summaries' totals |
| Portfolio.SummaryOfNothing | controllers/loanController.js:193-196 | an empty portfolio has all totals 0, an average of 0 and an empty overdue list |
| Portfolio.PendingAgainstBalances | controllers/loanController.js:232 | with balances kept consistent, loaned minus collected is at most the sum of the balances, and equal to it when no loan was overpaid |
| Portfolio.OverdueAmountIsOverdueList | controllers/loanController.js:205-209 | the summary's overdue amount is the sum of the balances of exactly the loans the overdue list returns |
| Portfolio.OverdueAmountBounds | controllers/loanController.js:205-209 | with no negative balance, the overdue amount is between 0 and the sum of all balances |
| Portfolio.WholeDaysBounds | controllers/loanController.js:213-215 | the day count of a repayment is the number of whole days elapsed since creation, truncated toward zero in both directions |
| Portfolio.WholeDays | controllers/loanController.js:213-215 | moment's `diff(..., 'days')` on millisecond times; its truncation toward zero is stated by `WholeDaysBounds` |
| Portfolio.RoundedMean | controllers/loanController.js:221-223 | `Math.round` of the mean repayment time, 0 when there is none; its rounding is stated by `RoundedMeanIsNearest` and `RoundedMeanBetween` |
| Portfolio.RoundedMeanIsNearest | controllers/loanController.js:221-223 | the average repayment time is the integer nearest the exact mean, halves rounding up |
| Portfolio.RoundedMeanBetween | controllers/loanController.js:221-223 | the average repayment time lies between the smallest and the largest repayment time |
| Portfolio.SummaryExample | controllers/loanController.js:189-234 | loans of 100 and 200 with 50 and 200 repaid give total loaned 300, collected 250 and pending 50 |
| Portfolio.AverageExample | controllers/loanController.js:211-223 | two paid loans created at 0 and last repaid five days and one hour, and seven days, later give a summary whose average repayment time is 6 |
| Portfolio.OverdueExample | controllers/loanController.js:244-258 | a loan owing 30 and due a day ago is listed as overdue; a settled loan with the same due date is not |
| Ledger.SharesOfAppend | controllers/loanController.js:28-30 | a new loan adds its amount to its own customer's credit total and nothing to any other total |
| Ledger.SharesOfReplace | controllers/loanController.js:167-172 | replacing one loan changes each customer's totals by exactly the difference of the old and new loan's shares |
| Ledger.NoLoansNoShares | models/Customer.js:30-37 | a customer with no loans has credit and repaid sums of 0 |
| Ledger.NewCustomerKeepsLedger | models/Customer.js:30-37 | a customer created by `NewCustomer` without totals (so with the defaults 0) and holding no loans keeps every customer's totals equal to the sums over their loans |
| Ledger.LedgerAfterCreate | controllers/loanController.js:21-30 | creating a loan with no repayments and crediting its amount to its customer keeps the ledger consistent |
| Ledger.LedgerAfterRefresh | controllers/loanController.js:67-74 | saving a refreshed status changes no customer total |
| Ledger.LedgerAfterRepayment | controllers/loanController.js:154-172 | appending a repayment and adding its amount to the customer's repaid total keeps the ledger consistent; with the customer record gone, the other customers' ledger stays consistent |
| LoanController.CreatedLoan | controllers/loanController.js:22-26 | the corrected creation (see Findings): the new loan owes its whole amount, has no repayments, is `pending`, satisfies the loan invariant, and carries the given id, owner, customer and creation time |
| LoanController.CreatedLoanAsWritten | controllers/loanController.js:22-26 | creation as written, for a body the schema accepts (amount at least 1, a due date, every body repayment at least 1): the body's repayments are stored while the balance is the whole amount, so the schema bounds hold but the balance agrees with the repayments iff there are none, and the status agrees with the balance iff it is not `paid` |
| LoanController.CreatedLoanAsWrittenBreaksBalance | controllers/loanController.js:22-26 | as written, a body with a full repayment and status `paid` yields a stored loan whose balance ignores the repayment and whose status contradicts it |
| LoanController.Repaid | controllers/loanController.js:155-165 | the loan after a repayment recorded at `now`: entry appended, balance lowered and floored at 0, status derived; its effect is stated by `RepaymentEffect` and `RepaymentKeepsInvariant` |
| LoanController.RepaymentEffect | controllers/loanController.js:154-165 | a repayment appends exactly one entry, lowers the balance by the amount but not below 0 (`paid` when it reaches 0, not `paid` otherwise) and changes no other field |
| LoanController.RepaymentKeepsInvariant | controllers/loanController.js:154-167 | a repayment of at least 1 keeps the loan invariant and adds exactly its amount to what was collected |
| LoanController.FindLoan | controllers/loanController.js:142-145 | the lookup finds a loan with that id owned by that user, or reports none when no such loan exists |
| LoanController.Owned | controllers/loanController.js:191 | the user's loans are exactly the stored loans owned by that user |
| LoanController.QueryOf | controllers/loanController.js:49-59 | the list query keeps the user and the customer filter, and has a status filter iff the parameter is one of the three status names, which it then names |
| LoanController.Select | controllers/loanController.js:61 | `find(query)`: the stored loans that match the query, in store order; the list pass is proved equal to it through `SelectStep` |
| LoanController.Candidates | controllers/loanController.js:246-248 | `find({user, remainingAmount > 0})`: the user's stored loans with a positive balance, in store order; `CandidatesKeepOverdue` states that it drops no overdue loan |
| LoanController.Matches | controllers/loanController.js:49-59 | the `find` query of the loan list: the user's loans, with the stored status and the customer equal to the filters when given |
| LoanController.SelectStep | controllers/loanController.js:49-61 | the list query over one more stored loan adds that loan, refreshed, exactly when it matches the query |
| LoanController.CandidatesStep | controllers/loanController.js:246-258 | the overdue query over one more stored loan adds that loan exactly when it is the user's, has a balance and is overdue |
| LoanController.CandidatesKeepOverdue | controllers/loanController.js:246-258 | the positive-balance pre-filter drops no overdue loan: the result is the overdue list of all the user's loans |
| LoanController.Store.Insert | models/Loan.js:57-63 | saving a new document sets its balance to its amount and appends it after the stored loans |
| LoanController.Store.SaveExisting | controllers/loanController.js:167 | saving a loaded document overwrites its stored record and nothing else |
| LoanController.Store.CreateLoan | controllers/loanController.js:6-44 | `NotFound` unless the customer exists and is the user's; `ValidationFailed` without an amount of at least 1 and a due date; both change nothing; otherwise the corrected new loan `CreatedLoan` (not the as-written one of Findings) is appended owing its amount and the customer's credit grows by that amount |
| LoanController.Store.RepayAt | controllers/loanController.js:154-167 | the loan at that position is replaced by its repaid form, saved once, with exactly the amount added to what was collected |
| LoanController.Store.RecordRepayment | controllers/loanController.js:131-186 | a missing or non-positive amount gives `InvalidAmount` and a loan not held for the user gives `NotFound`, both changing nothing; otherwise the loan is saved repaid, and the customer's repaid total grows by the amount or `CustomerMissing` is reported with the loan already saved |
| LoanController.Store.Reconcile | controllers/loanController.js:109-114 | the loan gets the status derived at `now` and is written only when that status differs from the stored one |
| LoanController.Store.ReconcileOverdue | controllers/loanController.js:255-265 | the loan is reported overdue exactly when its derived status is overdue, and only then is it stored refreshed; it is written only when it was not already stored as overdue |
| LoanController.Store.QueryAt | controllers/loanController.js:68-74 | one loan of the list pass is returned refreshed, and saved if stale, exactly when the query matches it |
| LoanController.Store.SweepAt | controllers/loanController.js:255-265 | one loan of the overdue pass is returned, and saved when newly overdue, exactly when it is the user's, has a balance and is overdue |
| LoanController.Store.GetLoan | controllers/loanController.js:92-128 | `NotFound` with nothing changed unless the user holds the loan; otherwise the loan with its status refreshed, written only when the status changed |
| LoanController.Store.GetAllLoans | controllers/loanController.js:47-89 | the loans matching user, stored status and customer, in store order, each refreshed; exactly the matching loans are refreshed in the store and exactly the stale ones among them are written |
| LoanController.Store.GetOverdueLoans | controllers/loanController.js:244-280 | the user's loans with a positive balance that are overdue, in store order, marked overdue; only those not stored as overdue are written |
| LoanController.Store.GetSummary | controllers/loanController.js:189-241 | the figures are the specification summary of the user's loans: total loaned, total collected, overdue amount, rounded average repayment time and loaned minus collected; nothing is saved |

## Left out

- Each operation's HTTP request and response are not modelled: routing, authentication (the user id
  is a parameter), the JSON envelopes, status codes, error message texts and the `results`
  counts. A failure is an `Error` value instead.
- The `populate` of the customer's name and phone into returned loans is not modelled. It only
  decorates the response.
- `controllers/customerController.js` is not part of this model; only the customer schema it
  relies on is. Updating or deleting a customer can set its totals freely, so `LedgerConsistent`
  is kept only by the loan operations.
- `utils/pdfGenerator.js`, `utils/smsService.js`, `routes/loanRoutes.js` and `index.js` are not
  part of this model. They are I/O wrappers.
- Asynchrony and concurrency are not modelled. Operations run one at a time, and a failed write
  between the two saves of `createLoan` or `recordRepayment` is not modelled.
- The database and the id generator are not modelled. The store is in memory, and loan ids come
  from a counter (unique, increasing) instead of ObjectIds.
- The list queries run the database filter and the refresh loop in one pass over the store. The
  saved records and the returned list are the same as those of the two-phase code.
- JavaScript numbers are not modelled. Amounts, scores and times are unbounded integers:
  - there is no floating point, no fractional amounts and no precision loss above 2^53;
  - a fractional repayment below 1, which passes the amount check but fails the schema on
    save, is not modelled;
  - neither is a fractional trust score.
- LoanController.Store.CreateLoan: stores the corrected creation of "## Findings". It drops
  a `status` and `repayments` sent in the body, which the code as written stores; the loan
  invariant kept by `Valid()` and the ledger proof for creation rely on this correction.
- The `amount` of a request body must be a number. A numeric string, which the schema would cast
  but `totalCredit +=` would concatenate, is not modelled.
- LoanController.LoanBody: only the body fields that reach the stored loan are modelled
  (`customer`, `amount`, `description`, `dueDate`, `status`, `repayments`). A body `createdAt`
  or `_id` is not modelled, nor is a body without a customer id.
- The phone check is a parameter `isMobilePhone`, standing for the `validator` library's phone
  validator.
- Portfolio.WholeDays: the day count is in UTC. moment's local time-zone and daylight-saving
  adjustment of the difference is not modelled.
- The repayment date is `now`, as the controller always supplies it. The schema default date is
  not modelled separately.

## Findings

| source | as written | input that shows it | evidently intended | confidence | as-written member | corrected member |
|---|---|---|---|---|---|---|
| controllers/loanController.js:22-26 | the whole request body is copied into the new loan; only `user` and `remainingAmount` are overridden, so a client-supplied `status` and `repayments` are stored | body `{customer, amount: 100, dueDate, status: 'paid', repayments: [{amount: 100}]}` stores a loan marked `paid` that still owes 100 and already lists 100 repaid | a new loan starts with no repayments and the default status, so balance, status and the customer's totals agree | medium, not executed | LoanController.CreatedLoanAsWritten, LoanController.CreatedLoanAsWrittenBreaksBalance | LoanController.CreatedLoan |
