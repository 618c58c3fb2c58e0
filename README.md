# financial-planner, modelled in Dafny

A model of the computing core of a personal finance tracker written as
Next.js pages over a hosted record store. Users record transactions, debts
and monthly budget lines. The application derives two views from them:

- the **budget page** compares each month's planned amounts with actual
  spending per category;
- the **dashboard** shows the current month's balance, income and
  expenses, the most recent transactions and the largest active debts. It
  also computes the month's debt installments and the total debt, but does
  not display them.

Around these sit the transactions page (a filtered list and an entry form),
the route guard, the page frame (initials, active link) and the
password-reset form.

Money is integer cents and dates are `"YYYY-MM-DD"` strings. JavaScript's
string operations are written out over `seq<char>`: `startsWith`, `<`,
`String(n)`, `padStart`, `split`, `join`, `slice` and ASCII `toUpperCase`.
`parseFloat` on the plain decimal forms is `Money.Parse`, with `None`
standing for `NaN`; `toString` is `Money.Format`.

Modules, one per file:

| file | module | what it holds |
|---|---|---|
| option.dfy | Options | `Option` |
| text.dfy | Text | the string built-ins |
| money.dfy | Money | cents ⇄ text |
| financial_types.dfy | FinancialTypes | the records and enumerations of `types/financial.ts` |
| budget_actuals.dfy | BudgetActuals | the month window and the spending dictionary (imperative loop) |
| budget_reconcile.dfy | BudgetReconcile | joining lines with spending, synthetic rows (imperative loop), totals |
| budget_page.dfy | BudgetPage | the budget page's state and handlers (class) |
| dashboard.dfy | Dashboard | calendar, month filter, the summary, loading |
| transactions.dfy | TransactionsPage | the list filter, the form mapping, the page's state (class) |
| middleware.dfy | Middleware | the redirect decision |
| main_layout.dfy | MainLayout | initials, display name, active link |
| reset_password.dfy | ResetPassword | the reset form's state machine (class) |

The store is passed in as values. Each table is a sequence. The outcome of
each read or write (success or failure) is a boolean parameter. The ids and
timestamps the store assigns to new rows are parameters too. The current
month comes from the clock and is a parameter.

## Model

| member | source | states |
|---|---|---|
| FinancialTypes.CategoryNameRoundTrip | types/financial.ts:23 | a transaction category is exactly one of the four names, and each name parses back to its category |
| FinancialTypes.StrategyNameRoundTrip | types/financial.ts:9 | the priority strategy is exactly one of avalanche, snowball, custom |
| FinancialTypes.StatusNameRoundTrip | types/financial.ts:10 | the debt status is exactly one of active, negotiated, paid |
| Money.ParseFormat | app/budget/page.tsx:194 | reading back the text an amount is printed as (`toString`, then `parseFloat`) gives the same amount, negatives included |
| BudgetActuals.DecemberUpperBound | app/budget/page.tsx:126-129 | for month 12 the exclusive upper bound of the month query is `"YYYY-13-01"` |
| BudgetActuals.WindowQuery | app/budget/page.tsx:119-129 | the query returns exactly the table's transactions whose date string is ≥ the first of the month and < the first of `month + 1` |
| BudgetActuals.IsoDateOrder | app/budget/page.tsx:122-129 | for four-digit years, string comparison of ISO dates orders the days they name |
| BudgetActuals.WindowIsCalendarMonth | app/budget/page.tsx:122-129 | a well-formed date is in the string window iff it is a day of that month and year, December included |
| BudgetActuals.ComputeActuals | app/budget/page.tsx:116-140 | the loop builds the spending dictionary `Actuals` and its key insertion order; a missing query result (an unchecked failure) leaves both empty |
| BudgetActuals.ActualsSpec | app/budget/page.tsx:131-139 | each category's total is the sum of `Math.abs(amount)` over fixed and variable expenses filed under it, so never negative; a key is present iff such a transaction exists; missing or empty subcategory files under `"other"` |
| BudgetActuals.NonContributingIgnored | app/budget/page.tsx:132-135 | an income or debt-payment transaction anywhere in the list changes neither the dictionary nor its key order |
| BudgetActuals.KeyOrderSpec | app/budget/page.tsx:131-168 | the key order lists each dictionary key exactly once |
| BudgetActuals.ActualsTotal | app/budget/page.tsx:131-140 | the dictionary's values sum to the total `Math.abs(amount)` of the contributing transactions |
| BudgetActuals.DebtLineActual | app/budget/page.tsx:366 | a `"Dívida: <name>"` budget line gets no spending unless a fixed or variable expense is filed under that exact label; income and debt payments filed there never count |
| BudgetReconcile.MergeRows | app/budget/page.tsx:143-150 | one row per stored line, in store order, keeping its id, category and planned amount, with `actual = dictionary[category]` or 0 and `difference = planned − actual` |
| BudgetReconcile.AppendUnbudgeted | app/budget/page.tsx:153-168 | the push loop appends to the rows exactly the list `Unbudgeted` describes, re-checking the growing list at each key |
| BudgetReconcile.UnbudgetedIsSyntheticFor | app/budget/page.tsx:153-168 | with keys listed once, the growing-list loop equals one synthetic row per key, in key order, that no merged row covers |
| BudgetReconcile.ViewRows | app/budget/page.tsx:143-168 | the view is the merged stored lines first, then rows `temp-<category>`, planned 0, actual = spending, difference = −spending, only for spent categories with no stored line |
| BudgetReconcile.ViewDifferences | app/budget/page.tsx:143-168 | every row's difference is its planned minus its actual amount |
| BudgetReconcile.ViewCoversSpending | app/budget/page.tsx:143-168 | every spent category is the category of some row: no spending is dropped |
| BudgetReconcile.ViewCategoriesDistinct | app/budget/page.tsx:153-168 | with distinct stored categories, no two rows share a category |
| BudgetReconcile.TotalDifferenceIsSum | app/budget/page.tsx:277-285 | `totalPlanned − totalActual` equals the sum of the row differences |
| BudgetReconcile.ViewPlannedTotal | app/budget/page.tsx:277-285 | for any stored lines, repeated categories included, the view's planned total is the stored lines' planned sum |
| BudgetReconcile.ViewTotals | app/budget/page.tsx:277-285 | when the stored categories are distinct, the view's actual total is the whole dictionary's sum and its difference total is planned minus that sum |
| BudgetReconcile.DuplicateLineCountsTwice | app/budget/page.tsx:143-168 | a second stored line for a category already stored makes the categories repeat and adds that category's spending to the actual total a second time |
| BudgetPage.LinesOf | app/budget/page.tsx:89-93 | the budget query returns exactly the table's lines of the selected month and year |
| BudgetPage.ViewPlannedAndDifferences | app/budget/page.tsx:277-285 | for any stored lines and any query outcome, the page's planned total is the stored lines' total and its difference total is the sum of row differences |
| BudgetPage.ViewAccountsForSpending | app/budget/page.tsx:131-168 | when the stored categories are distinct, the page's actual total is exactly the month's fixed and variable `Math.abs(amount)` total |
| BudgetPage.FailedQueryShowsNoSpending | app/budget/page.tsx:119-131 | if the month query fails, every stored line shows actual 0 and difference = planned, and no synthetic row appears |
| BudgetPage.FindRow | app/budget/page.tsx:197 | the row found is the first row with the id asked for; none is found only when no row has it |
| BudgetPage.SaveDecisionSpec | app/budget/page.tsx:192-220 | saving writes nothing iff the input is not a number or no row has the id; a `temp-` id inserts the row's category with the parsed amount; any other id updates that id with the parsed amount |
| BudgetPage.ApplyWrite | app/budget/page.tsx:214-217 | an update keeps the table's length and every field but `planned_amount`, which becomes the new amount on the lines with that id only |
| BudgetPage.UncheckedAddCountsTwice | app/budget/page.tsx:230-251 | adding a category the month already has, as written, leaves two lines with that category, and the page's actual total exceeds the month's spending by that category's spending |
| BudgetPage.CheckedAddKeepsCategoriesDistinct | app/budget/page.tsx:230-251 | the add that refuses a category already present writes exactly when the category is new and the handler would write; it keeps the categories distinct and the actual total equal to the month's spending |
| BudgetPage.SaveUnchangedEdit | app/budget/page.tsx:192-220 | saving the value the edit field was loaded with writes the row's own planned amount back |
| BudgetPage.SavedSyntheticRowBecomesStored | app/budget/page.tsx:200-222 | after saving on a synthetic row, the refetched view shows the category as a stored row with the new amount and its spending, and no synthetic row for it |
| BudgetPage.BudgetPageState.FetchBudgetData | app/budget/page.tsx:84-176 | a failed budget query or a failed day-31 query leaves the rows unchanged; otherwise the rows become the computed view of the selected month |
| BudgetPage.BudgetPageState.StartEdit | app/budget/page.tsx:473-477 | editing loads the row's id and its planned amount as text |
| BudgetPage.BudgetPageState.CancelEdit | app/budget/page.tsx:457-460 | cancelling clears the editing id and text |
| BudgetPage.BudgetPageState.HandleSaveEdit | app/budget/page.tsx:192-228 | nothing changes when there is nothing to write or the write fails; otherwise the table takes the write, the view is refetched and the edit is closed |
| BudgetPage.BudgetPageState.HandleAddCategory | app/budget/page.tsx:230-251 | an empty name or amount, or a non-numeric amount, or a failed insert changes nothing; otherwise a line is inserted for the selected month, the view refetched and both fields cleared |
| Dashboard.DaysInMonth | app/page.tsx:89-97 | Gregorian month lengths: February has 29 days exactly in leap years |
| Dashboard.DayAfterFirst | app/page.tsx:89-93 | rolling a day number across month boundaries always lands on a real calendar day |
| Dashboard.DayAfterFirstPlacement | app/page.tsx:89-93 | a day before the 1st lands in an earlier month, a day past the month's end in a later one, any other day stays in the month |
| Dashboard.DueThisMonthIff | app/page.tsx:86-97 | `new Date(y, m, due_day)` stays in month m iff 1 ≤ due_day ≤ days in month (for years past 99) |
| Dashboard.ParseIsoDateRoundTrip | app/page.tsx:70 | a stored date reads back as the day it names |
| Dashboard.MonthFilterMatchesBudgetWindow | app/page.tsx:69-75 | the dashboard's month filter and the budget page's string window select the same dates |
| Dashboard.MonthTransactions | app/page.tsx:69-75 | the month list holds exactly the fetched transactions of the current month and year |
| Dashboard.ExpenseTotal | app/page.tsx:81-83 | expenses are never negative |
| Dashboard.FiguresAppend | app/page.tsx:77-83 | one more transaction moves income by its signed amount if it is income, expenses by `Math.abs(amount)` otherwise (debt payments included) |
| Dashboard.BalanceIsNetSum | app/page.tsx:106-110 | income minus expenses is the sum of each transaction's effect on the balance |
| Dashboard.DebtPaymentsAreInstallmentsDue | app/page.tsx:85-99 | debt payments are the installments (0 when absent) of the debts whose due day is a day of this month |
| Dashboard.SummarySpec | app/page.tsx:64-112 | each of the five figures in terms of the month's transactions and the fetched debts; total debt ignores due days |
| Dashboard.EmptySummary | app/page.tsx:77-112 | no transactions and no debts give five zeros |
| Dashboard.Limit | app/page.tsx:41-58 | `.limit(n)` keeps the first n rows, or all of them when there are fewer |
| Dashboard.ActiveDebts | app/page.tsx:53-56 | the debt query keeps exactly the active debts |
| Dashboard.FetchDashboard | app/page.tsx:36-122 | the first min(5, n) rows of the ordered transactions and of the active debts are shown (none for a failed query); the summary is set iff the transaction query succeeded, and it is then the summary of exactly the shown lists |
| Dashboard.FailedLoadShowsZeros | app/page.tsx:65-112 | an unset summary is shown like the summary of an empty account |
| Dashboard.OlderTransactionIgnored | app/page.tsx:41-83 | once 5 transactions exist, an older one of the month changes nothing; six incomes of 100 show 500 |
| Dashboard.EveryMonthTransactionCounts | app/page.tsx:69-83 | over all stored transactions, adding one of the month moves income, expenses and balance by its amount |
| Dashboard.OlderDebtIgnored | app/page.tsx:52-104 | once 5 debts are active, one more (listed after them) changes nothing on the page, the total debt included |
| Dashboard.EveryActiveDebtCounts | app/page.tsx:100-104 | over all debts, one more active debt raises the total debt by its `total_amount`, an inactive one changes nothing |
| TransactionsPage.FilterTransactions | app/transactions/page.tsx:227-235 | a transaction is kept iff its category matches (or the filter is `"all"`) and its date starts with the date filter (or it is empty) |
| TransactionsPage.FilterIsSubsequence | app/transactions/page.tsx:227-235 | the filtered list is a subsequence of the list: order kept, nothing added or altered |
| TransactionsPage.NoFilterKeepsAll | app/transactions/page.tsx:228-233 | filter `"all"` with no date keeps the whole list |
| TransactionsPage.FilterNarrows | app/transactions/page.tsx:228-233 | every kept transaction has the filtered category and date prefix |
| TransactionsPage.EmptyToNull | app/transactions/page.tsx:117-120 | an empty text becomes null, any other text is kept |
| TransactionsPage.EditResubmit | app/transactions/page.tsx:113-156 | submitting an unchanged edit form sends the transaction's own fields, with `Math.abs(amount)` and empty optional texts as null |
| TransactionsPage.UpdateRows | app/transactions/page.tsx:123-127 | rows with another id are untouched; rows with the id keep id, owner and timestamps and take the record's date, description, category, subcategory, account, debt and the given amount, sign included |
| TransactionsPage.DeleteRows | app/transactions/page.tsx:163-167 | a delete keeps exactly the rows with another id |
| TransactionsPage.ResaveStoresAbsoluteValue | app/transactions/page.tsx:113-153 | re-saving an unchanged negative transaction stores its absolute value and changes no other row |
| TransactionsPage.DebtName | app/transactions/page.tsx:347-353 | the subcategory picked with a debt is the name of the first listed debt with that id, or `""` when no listed debt has the id |
| TransactionsPage.TransactionsPageState.HandleEdit | app/transactions/page.tsx:146-158 | editing loads the form from the transaction and opens the dialog; the list is then filtered by the transaction's date |
| TransactionsPage.TransactionsPageState.ResetForm | app/transactions/page.tsx:176-187 | every form field returns to its default and no transaction is being edited; the list's date filter is cleared |
| TransactionsPage.TransactionsPageState.SelectCategory | app/transactions/page.tsx:315-321 | changing the category clears the subcategory and the debt |
| TransactionsPage.TransactionsPageState.SelectDebt | app/transactions/page.tsx:346-354 | picking a debt sets the debt id and the debt's name as subcategory |
| TransactionsPage.TransactionsPageState.SetCategoryFilter | app/transactions/page.tsx:431 | the category filter takes the selected value |
| TransactionsPage.TransactionsPageState.HandleSubmit | app/transactions/page.tsx:109-144 | a `NaN` amount or failed write changes nothing; otherwise the row is updated (when editing) or inserted, the list refetched, the form reset and the dialog closed |
| TransactionsPage.TransactionsPageState.HandleDelete | app/transactions/page.tsx:160-174 | without confirmation or on failure nothing changes; otherwise the rows with that id are removed and the list refetched |
| Middleware.ProtectedIffRooted | middleware.ts:65-74 | a path is protected iff it starts with `/`: every path is protected |
| Middleware.AuthRouteIsNotReset | middleware.ts:77-85 | the reset-password route is never an auth route |
| Middleware.DecideSpec | middleware.ts:58-124 | the decision case by case: thrown lookup → login without `redirectTo`; no user and no error → login with `redirectTo` = path; error → pass through; signed in → redirect away from auth routes only, to a target starting with `/`, or, when `new URL` rejects that target, to the login page as the catch block does; a target on this origin is never rejected |
| Middleware.LoginRedirectsToItself | middleware.ts:65-92 | a signed-out visitor of `/auth/login` is redirected to `/auth/login` |
| Middleware.SignedOutReachesLogin | middleware.ts:65-92 | with `/` matched exactly, auth and reset pages are open to signed-out visitors and the sections stay guarded |
| Middleware.ForeignTargetAccepted | middleware.ts:95-102 | for a plain host name such as `evil.example`, a `redirectTo` of `//host` or `/<tab>/host` names another host, and a signed-in visitor of the login page is redirected to it |
| Middleware.EmptyHostCaught | middleware.ts:98-121 | a `redirectTo` of `//` names an empty host, `new URL` throws, and the catch block sends the visitor to the login page |
| Middleware.SafeTargetStaysOnOrigin | middleware.ts:95-102 | the restricted target always starts with `/` and never names another host, and keeps every same-origin `redirectTo` |
| MainLayout.FirstCharsOfSplit | components/layout/main-layout.tsx:51-54 | splitting on spaces and joining the first characters gives exactly the word starts; empty pieces add nothing |
| MainLayout.InitialsSpec | components/layout/main-layout.tsx:49-59 | at most 2 characters: upper-cased starts of the first two words, else the email's first two characters upper-cased, else `"U"` |
| MainLayout.BlankNameHasNoInitials | components/layout/main-layout.tsx:50-56 | a name of only spaces yields empty initials |
| MainLayout.DisplayName | components/layout/main-layout.tsx:117 | the display name is the full name when it is present and non-empty, and `"Usuário"` otherwise |
| MainLayout.ActiveEntry | components/layout/main-layout.tsx:29-89 | at most one entry is active, one is iff the path equals its href, and a sub-page activates nothing |
| ResetPassword.SubmitEffectSpec | app/auth/reset-password/page.tsx:41-75 | mismatch is checked before length; exactly 6 characters passes; success iff both checks pass and the action reports success without error, and then no error and a non-empty message |
| ResetPassword.ResetPasswordForm.constructor | app/auth/reset-password/page.tsx:25-28 | not loading, no error, no success, no message |
| ResetPassword.ResetPasswordForm.CheckTokens | app/auth/reset-password/page.tsx:31-39 | a missing or empty token sets the invalid-link error |
| ResetPassword.ResetPasswordForm.HandleSubmit | app/auth/reset-password/page.tsx:41-75 | the action is called iff validation passes, regardless of an earlier error; loading is off on every path; error, success and message follow `SubmitEffect` |

## Left out

- Store I/O: every read, insert, update and delete of the hosted store is left out. The tables are sequences, failures are parameters, and row ownership and access rules are not modelled.
- Store ordering: `.order(...)` is not modelled. Each table is given in the order its query asks for, and a refetch after a write lists the table as it stands.
- Store date checks: whether the store rejects the impossible bounds `"YYYY-02-31"` (app/budget/page.tsx:102-111) and `"YYYY-13-01"` depends on the `date` column's type, which is not visible. The failure flags `firstQueryFails` and `monthQueryFails` cover both outcomes.
- The unused day-31 transaction query: only its error, which aborts the fetch, is modelled.
- Rendering: JSX, `Intl.NumberFormat` / `toLocaleString` currency text, colour and badge helpers and loading spinners are left out.
- Money: floating point is replaced by integer cents. `parseFloat` is modelled on the plain decimal forms `[-]digits[.d[d]]` only. Exponents, leading spaces, `+`, more than two decimals and trailing garbage all read as `NaN` here.
- `NaN` amounts: an insert or an update with `planned_amount` or `amount` `NaN` is sent as JSON `null`. The model assumes the required column refuses it, so nothing changes.
- Dashboard.ParseIsoDate: `new Date("YYYY-MM-DD")` is read as the named calendar day. The time zone shift of the local `getMonth` is left out. In a zone west of UTC it moves the first of a month into the previous month.
- Dashboard.DueThisMonthIff: proved for years from 100 on. The current year comes from the clock, and `new Date` maps years 0-99 to 1900-1999.
- JavaScript objects: the dictionary keeps keys in first-insertion order. Integer-like keys, which objects list first, and keys inherited from the prototype (`toString`, ...) are not modelled.
- Dashboard: the loading flag, the mount-time sequencing of the fetches and the debts list's display are left out.
- app/debts/page.tsx, app/auth/forgot-password/page.tsx, components/sidebar.tsx, lib/ and components/auth/ are not part of this model. They hold forms and wrappers with nothing computed.
- The middleware's cookie callbacks (middleware.ts:16-54) and its path matcher (middleware.ts:127-138) are left out.
- Middleware.Decide: for a `redirectTo` that names a non-empty host of its own, whether `new URL` accepts that host is the parameter `hostRejected`. The URL standard's host rules (forbidden code points, IDNA, ports, user info) are not modelled. An empty host is modelled as rejected, and a path on this origin is never rejected.
- BudgetReconcile.ViewTotals and BudgetPage.ViewAccountsForSpending: the actual total equals the month's spending only when the month's stored categories are distinct. The add handler does not keep them distinct, and no uniqueness rule of the store is visible. Repeated categories are covered by `DuplicateLineCountsTwice` and `UncheckedAddCountsTwice`. `BudgetPageState.HandleAddCategory` keeps the handler as written.
- ResetPassword.Validate and MainLayout.Initials: lengths, indexing and slicing count Unicode characters. JavaScript counts UTF-16 code units, so for characters outside the Basic Multilingual Plane the model differs. `"😀😀😀"` has length 6 in JavaScript and passes the length check, but the model rejects it as too short. An initial taken from such a character is a lone surrogate in JavaScript but the whole character here.
- Text.Upper: ASCII letters only. JavaScript's full Unicode case mapping is not modelled.

## Findings

| source | as written | input that shows it | evidently intended | confidence | as-written member | corrected member |
|---|---|---|---|---|---|---|
| app/page.tsx:41-83 | the monthly figures are computed over the 5 most recent transactions fetched for the "recent" list | six income transactions of 100 in the current month: income shows 500 | the month's figures over all of the month's transactions | medium, not executed | Dashboard.OlderTransactionIgnored | Dashboard.EveryMonthTransactionCounts |
| app/page.tsx:52-104 | the total debt is summed over the 5 largest active debts fetched for display; the page does not display this total today | six active debts: the smallest is left out of the total | the total over every active debt | low, not executed | Dashboard.OlderDebtIgnored | Dashboard.EveryActiveDebtCounts |
| app/budget/page.tsx:230-251 | adding a category does not check whether the month already has a line for it, and the merge gives each line its category's whole spending | lines food/500 and food/300 with one expense of −100 under food: total actual 200 against spending of 100 | one line per category of a month, so the actual total is the month's spending | medium, not executed | BudgetPage.UncheckedAddCountsTwice | BudgetPage.CheckedAddKeepsCategoriesDistinct |
| middleware.ts:65-92 | `"/"` as a prefix protects every path, the login page included | no user, no error, path `/auth/login`: redirect to `/auth/login?redirectTo=/auth/login`, again and again | `/` protects the home page only, so the auth pages stay reachable | medium, not executed | Middleware.LoginRedirectsToItself | Middleware.SignedOutReachesLogin |
| middleware.ts:95-102 | any `redirectTo` starting with `/` whose host the URL parser accepts is followed after login | signed in, `/auth/login?redirectTo=//evil.example`: redirect to another host | only paths on the application's own origin | high, not executed | Middleware.ForeignTargetAccepted | Middleware.SafeTargetStaysOnOrigin |
