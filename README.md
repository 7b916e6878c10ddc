# finTrack ledger core in Dafny

This project models the three controllers of the finTrack backend that
carry its business rules, and proves properties of the model.

- **Shares** (`sharesController.ts`). `createCompanyShares` registers a
  company with its shareholder roster. `generateFinanceCategories` gives
  every shareholder a `<NAME> FINANCE` category. `getTotalProfitByMonth`
  adds up the net profit of the settled credit transactions of a month,
  and `calculateShareDistribution` splits that profit across the roster.
  Each shareholder gets `total × percentage / 100` minus their finance
  advance, added to their running `shareProfit`.
- **Pay later** (`paylaterController.ts`). `payLater` settles a deferred
  transaction, either partly (operator amount plus agent amount) or in
  full. It lowers the transaction's `dueAmount` and its owner's aggregate
  `due` by the same amount.
- **Control panel** (`controlPanelController.ts`). The bus, agent and
  operator tables follow one pattern: a per-user table of trimmed,
  upper-cased names with no duplicate name for one user, and a listing of
  the caller's rows. The model has one `NameRegistry` class, and each
  table is one instance of it.

Modules: `Wrappers` (Option and the HTTP reply: `Ok(status, body)` or
`Fail(status, error)`); `Text` (`trim`, `toUpperCase`, `length`); `Transactions` (the
transaction row); `Profit` (the aggregator); `Shares`; `PayLater`;
`ControlPanel`. Money is exact (`real`), as Prisma's `Decimal` columns are.
The store's tables are fields of classes: maps keyed by id, or sequences
in table order. Each state-changing controller is a method on its class.
Its result and new state are tied to pure functions, and the lemmas are
stated about those functions.

The model follows the code as written, including these behaviours:

- The month window is inclusive at both ends, so an instant on the
  boundary counts in two months (`Profit.BoundaryCountedTwice`).
- The profit query has no owner condition: every user's transactions
  count toward every company's profit.
- The month parameter is only checked to be a string of 7 UTF-16 code units (JavaScript's `length`). A value
  such as `2024-13` passes that check. The date library then makes an
  invalid date, `toISOString` throws, and the reply is 500, not 400.
- Settlement has no guard against paying a fully paid transaction again.
  A `FULL` payment repeated changes nothing (`PayLater.FullTwiceIsOnce`).
  A partial payment that brings the due amount to 0 leaves the type
  `PARTIAL`.
- The partial-payment amounts are not required to be non-negative.
- A partial payment writes the transaction before it looks the owner up.
  A missing owner row gives 404 with the transaction already reduced.
- Running the distribution twice for one month credits everyone twice
  (`Shares.DistributingTwiceAddsTwice`).

## Model

| member | source | states |
|---|---|---|
| `Profit.Select` | ft-backend/src/controllers/sharesController.ts:175-186 | The rows the query returns are exactly the counted ones, each as often as it is in the table. A row counts if it is a CREDIT row, `start ≤ createdAt ≤ end`, and it is either not pay-later or pay-later with a due amount of exactly 0. There is no owner condition. |
| `Profit.GetTotalProfitByMonth` | ft-backend/src/controllers/sharesController.ts:172-205 | A failed fetch gives 0 and is never passed on. A table with no counted row gives 0. |
| `Profit.SumContributionsAppend` | ft-backend/src/controllers/sharesController.ts:193-198 | The fold over two runs of rows is the sum of the two folds. |
| `Profit.SelectAppend` | ft-backend/src/controllers/sharesController.ts:175-186 | Selecting from two runs of rows is the same as selecting from each run and joining the results. |
| `Profit.TotalAppend` | ft-backend/src/controllers/sharesController.ts:175-198 | The profit of two runs of transactions is the sum of their profits. |
| `Profit.TotalSnoc` | ft-backend/src/controllers/sharesController.ts:193-198 | One more row adds `amount − ((commission or 0) + (collection or 0))` if it counts, and nothing if it does not. |
| `Profit.TotalNothingCounted` | ft-backend/src/controllers/sharesController.ts:193-198 | With nothing counted, the sum starts from 0 and stays 0. |
| `Profit.TotalRemoveAt` | ft-backend/src/controllers/sharesController.ts:193-198 | Taking any one row out of the table takes away exactly what that row adds. |
| `Profit.TotalPermutation` | ft-backend/src/controllers/sharesController.ts:175-198 | The order in which the store returns the rows does not change the profit. |
| `Profit.BoundaryCountedTwice` | ft-backend/src/controllers/sharesController.ts:177-180 | Both bounds are inclusive, so a settled credit stamped at the end of one window and the start of the next counts in both. |
| `Text.Utf16Length` | ft-backend/src/controllers/sharesController.ts:227 | The length JavaScript reports counts a code point outside the Basic Multilingual Plane twice: it lies between the number of code points and twice that, and equals it exactly when every code point is below U+10000. |
| `Text.TrimStart` | ft-backend/src/controllers/user-feature/controlPanelController.ts:54 | The result is a suffix of the input that is empty or does not start with white space. That it is the longest such suffix is `Text.TrimStartDropsSpace`. |
| `Text.TrimEnd` | ft-backend/src/controllers/user-feature/controlPanelController.ts:54 | The result is a prefix of the input that is empty or does not end with white space. That it is the longest such prefix is `Text.TrimEndDropsSpace`. |
| `Text.TrimStartDropsSpace` | ft-backend/src/controllers/user-feature/controlPanelController.ts:54 | Everything the leading trim drops is white space. |
| `Text.TrimEndDropsSpace` | ft-backend/src/controllers/user-feature/controlPanelController.ts:54 | Everything the trailing trim drops is white space. |
| `Text.TrimmedHasNoEdgeSpace` | ft-backend/src/controllers/user-feature/controlPanelController.ts:54 | A trimmed string has no white space at either end. |
| `Text.TrimFixesNoEdgeSpace` | ft-backend/src/controllers/user-feature/controlPanelController.ts:54 | Trimming a string with no white space at its ends changes nothing. |
| `Text.UpperShape` | ft-backend/src/controllers/user-feature/controlPanelController.ts:54 | Upper-casing keeps the length and leaves no ASCII lower-case letter. |
| `Text.NormalizeEmptyIff` | ft-backend/src/controllers/user-feature/controlPanelController.ts:54-58 | The normalised name is empty exactly when the submitted name is all white space, which is when the 400 "name is required" reply comes. |
| `Text.NormalizeShape` | ft-backend/src/controllers/user-feature/controlPanelController.ts:54 | A normalised name has no ASCII lower-case letter, no white space at its ends, and is no longer than the input. |
| `Text.NormalizeIdempotent` | ft-backend/src/controllers/user-feature/controlPanelController.ts:54 | Normalising twice gives the same result as normalising once. |
| `Shares.Lines` | ft-backend/src/controllers/sharesController.ts:243-267 | The report has one line per roster row, in roster order. Each line holds the name, the percentage, `gross = total × pct / 100`, the finance deduction (0 when absent) and `gross − finance`. |
| `Shares.SumGrossOfLines` | ft-backend/src/controllers/sharesController.ts:244-245 | The gross shares add up to `total × (sum of percentages) / 100`. |
| `Shares.SumFinalOfLines` | ft-backend/src/controllers/sharesController.ts:244-249 | The final shares add up to the gross total minus all the finance deductions. |
| `Shares.SumFinanceZero` | ft-backend/src/controllers/sharesController.ts:248 | With no finance value on any row, the deductions add up to 0. |
| `Shares.FinalSharesAddUpToProfit` | ft-backend/src/controllers/sharesController.ts:243-274 | If the percentages add up to 100 and nobody has a finance deduction, the final shares and the gross shares both add up to `totalProfit`. |
| `Shares.DistributingTwiceAddsTwice` | ft-backend/src/controllers/sharesController.ts:252-257 | Nothing stops a month being distributed twice: crediting a roster of distinct rows a second time gives every roster row twice its net share on top of its old `shareProfit`, and leaves every other row as it was. |
| `Shares.CreditAll` | ft-backend/src/controllers/sharesController.ts:243-257 | Crediting the roster keeps the shareholder table's set of rows. |
| `Shares.CreditAllEffect` | ft-backend/src/controllers/sharesController.ts:244-257 | For a roster of distinct rows, each roster row gets `shareProfit + (gross − finance)` exactly once, and every other row is unchanged. |
| `Shares.AddMissingShape` | ft-backend/src/controllers/sharesController.ts:155-165 | The insert-if-absent loop keeps the old categories as they were. It adds only wanted ones, and leaves every wanted one present. |
| `Shares.AddMissingKeepsNoDuplicates` | ft-backend/src/controllers/sharesController.ts:155-165 | The loop never duplicates a category (same name, same owner). |
| `Shares.AddMissingPresent` | ft-backend/src/controllers/sharesController.ts:155-165 | When every wanted category already exists, the loop changes nothing. |
| `Shares.AddMissingIdempotent` | ft-backend/src/controllers/sharesController.ts:143-169 | Running it twice with the same names has the same effect as running it once. |
| `Shares.ExactlyOneFinanceCategory` | ft-backend/src/controllers/sharesController.ts:149-165 | The wanted categories are one per shareholder, named `upper(name + " Finance")` and owned by the user. Starting from a table without duplicates, each shareholder ends with exactly one such finance category. |
| `Shares.NewRows` | ft-backend/src/controllers/sharesController.ts:53-58 | The nested create makes one row per submitted shareholder, with consecutive ids in submission order, the given name and percentage, no finance value and no profit. |
| `Shares.ShareLedger.GenerateFinanceCategories` | ft-backend/src/controllers/sharesController.ts:143-169 | The loop leaves the category table equal to the insert-if-absent fold over the wanted categories. Companies and shareholders are untouched. |
| `Shares.ShareLedger.CreateCompanyShares` | ft-backend/src/controllers/sharesController.ts:19-75 | Sole Proprietorship or OPC with more than 0 shareholders gives 400. A list length other than `numberOfShareHolders` gives 400. Both are checked in that order, before anything is written. A failed create gives 500. Success gives 201 with the company row (the request's fields and the owner, no shareholders). The company, its roster, the new rows with consecutive ids, the next free id and the finance categories are stored. |
| `Shares.ShareLedger.Distribute` | ft-backend/src/controllers/sharesController.ts:209-279 | A missing company gives 400 before the date is looked at. A date that is absent, not a string or not 7 UTF-16 code units long (`Text.Utf16Length`, JavaScript's `length`) gives 400. An unusable month gives 500. None of these touch a shareholder. Otherwise the reply is 200 with the month, the aggregator's total and the report lines, and the roster is credited. |
| `Shares.ShareLedger.CreditRoster` | ft-backend/src/controllers/sharesController.ts:243-267 | The loop over the roster returns the report lines and leaves the table equal to `CreditAll`. |
| `PayLater.SettleOutcome` | ft-backend/src/controllers/user-feature/paylaterController.ts:13-107 | Only the named transaction and its owner's `due` can change. Every rejection leaves both tables alone, except a partial payment whose owner row is missing. A success takes the same amount off the transaction's due and off the owner's `due`. Whenever the transaction is written (on success or in the partial-payment 404), its due amount is 0 or above. |
| `PayLater.InputChecksComeFirst` | ft-backend/src/controllers/user-feature/paylaterController.ts:20-27 | A missing id gives 400, and then a payment type other than FULL or PARTIAL gives 400. Both come before any lookup, whatever the tables hold. |
| `PayLater.NotFoundLooksLikeUnauthorized` | ft-backend/src/controllers/user-feature/paylaterController.ts:30-37 | A missing transaction and another user's transaction get the same 404, and nothing changes. |
| `PayLater.PartialPayment` | ft-backend/src/controllers/user-feature/paylaterController.ts:40-77 | PARTIAL needs both amounts (else 400). The total above `dueAmount or 0` gives 400 with nothing changed. Otherwise the transaction gets `due − total` and PARTIAL. Then a missing owner gives 404; otherwise the owner's `due` drops by the total and the reply carries the remaining due. |
| `PayLater.FullPayment` | ft-backend/src/controllers/user-feature/paylaterController.ts:80-102 | FULL looks the owner up first (404 with nothing changed). It then sets the due amount to 0 and the type to FULL, and takes the old due amount off the owner's `due`. The two amounts play no part. |
| `PayLater.FullTwiceIsOnce` | ft-backend/src/controllers/user-feature/paylaterController.ts:86-99 | A second FULL payment changes nothing and gives the same reply. |
| `PayLater.OwedUpdate` | ft-backend/src/controllers/user-feature/paylaterController.ts:53-59 | Rewriting one transaction changes its owner's sum of dues by exactly the change in that transaction's due. |
| `PayLater.SettleKeepsBalance` | ft-backend/src/controllers/user-feature/paylaterController.ts:45-99 | If every user's `due` equals the sum of their transactions' due amounts before a settlement, it still does afterwards. |
| `PayLater.SettleKeepsDuesNonNegative` | ft-backend/src/controllers/user-feature/paylaterController.ts:45-59 | A settlement never makes a due amount negative. |
| `PayLater.BalancesNonNegative` | ft-backend/src/controllers/user-feature/paylaterController.ts:81-98 | In a balanced ledger without negative dues, a transaction's due amount lies between 0 and its owner's `due`. |
| `PayLater.SettleKeepsUserDuesNonNegative` | ft-backend/src/controllers/user-feature/paylaterController.ts:45-99 | In a balanced ledger without negative dues, no settlement, full or partial, leaves any user's `due` below 0. |
| `PayLater.PayLaterLedger.Settle` | ft-backend/src/controllers/user-feature/paylaterController.ts:13-107 | The checks and ordered writes of `payLater` give the reply and the tables that `SettleOutcome` describes. The balance invariant and non-negative dues are preserved, and from a balanced ledger without negative dues no user's `due` ends below 0. |
| `ControlPanel.Taken` | ft-backend/src/controllers/user-feature/controlPanelController.ts:75-84 | The duplicate lookup succeeds exactly when some row has the same normalised name and the same owner. |
| `ControlPanel.OwnedBy` | ft-backend/src/controllers/user-feature/controlPanelController.ts:264-266 | The listing holds exactly the rows whose owner is the caller. |
| `ControlPanel.OwnedByAppend` | ft-backend/src/controllers/user-feature/controlPanelController.ts:87-92 | A new row appears in its owner's listing, at the end, and in no other user's listing. |
| `ControlPanel.InsertKeepsTableOk` | ft-backend/src/controllers/user-feature/controlPanelController.ts:54-92 | Appending the normalised name with the next id, after a failed duplicate lookup, keeps the registry invariant: names unique per user, ids below the next one, stored names non-empty and in normal form. |
| `ControlPanel.AppendKeepsUnique` | ft-backend/src/controllers/user-feature/controlPanelController.ts:75-92 | Inserting only after a failed duplicate lookup keeps every user's names distinct. |
| `ControlPanel.NameRegistry.Create` | ft-backend/src/controllers/user-feature/controlPanelController.ts:51-113 | The name is trimmed and upper-cased first. An empty result gives 400. Then a caller id that is 0 or not a number gives 401, an unknown user gives 404, and a name the caller already has gives 400; none of these change the table. Otherwise exactly one row `{normalised name, userId}` is appended with 201, taking the next free id. Uniqueness per user holds. The same code serves `createAgent` (115-183) and `createOperator` (185-253). |
| `ControlPanel.NameRegistry.List` | ft-backend/src/controllers/user-feature/controlPanelController.ts:255-280 | A caller id that is 0 or not a number gives 401. Otherwise the reply is 200: the "none found" message when the caller has no row, else exactly the caller's rows. The same code serves `getAgents` (283-308) and `getOperators` (311-336). |

## Left out

- The date library (`parseISO`, `setMonth`, `toISOString`). The distribution takes the month window it would compute as a parameter, with `None` for an invalid date. Calendar and time-zone behaviour are not modelled.
- `toNumber()` and JavaScript floating point: amounts and percentages are exact, so rounding is not modelled.
- `Promise.all` and requests racing on the same rows: each controller runs as one sequential step.
- Store failures other than the ones named in the model, and Prisma error codes P2002/P2003. A failure half-way through the distribution loop or the category loop is not modelled either. `generateFinanceCategories` catches its own errors, and a failing insert there is not modelled.
- `Shares.ShareLedger.CreateCompanyShares`: every refused create (missing user row, a company already on file for the user) is one 500 `CreateFailed` case, decided by the `userExists` flag and the company table. The store's own reasons are not modelled.
- `Shares.ShareLedger.CreateCompanyShares`: the request body is taken as well-formed. A missing or non-array `shareholders` (its `.length` throws inside the `try`, giving 500) and a `numberOfShareHolders` sent as a string (which never `!==`-matches the length, giving 400) are not modelled: the count is an integer and the roster a sequence.
- `PayLater.PayLaterLedger.Settle`: amounts that `Decimal` cannot parse, and a `paymentType` that is not a string, are not modelled. The amounts are exact numbers or absent, and the payment type is a string.
- `ControlPanel.NameRegistry.Create`: a `name` that is not a string (a `TypeError` before the `try`) is not modelled.
- `Text.UpperChar`: only ASCII `a`–`z` are upper-cased. The full Unicode mapping of `toUpperCase` is not modelled, including mappings that change the length (`"ß".toUpperCase()` is `"SS"`). So `Text.UpperShape`'s "keeps the length" and `Text.NormalizeShape`'s "no longer than the input" hold for the ASCII-only model, not for JavaScript in general.
- Schema defaults: a new shareholder row has no finance value and a `shareProfit` of 0. The database schema is not part of this model.
- `verifyControlPanelPassword` (a bcrypt call), `setOpeningBalance` (float parsing), the commented-out `recordShareholderTransaction`, the routes file and the React pages.
- Reply message texts and the error objects returned with 500 replies.
