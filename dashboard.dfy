/**
 * The dashboard's summary (app/page.tsx): the current month's income, expenses
 * and balance over the fetched transactions, the installments of the fetched
 * active debts that fall due this month, and their total balance.
 *
 * The current month comes from the clock and is a parameter; months are counted
 * from 0, as `Date#getMonth` counts them. Each store table is given in the order
 * its query asks for (transactions newest first, debts largest first).
 */
module Dashboard {
  import opened Options
  import opened Text
  import opened FinancialTypes
  import BudgetActuals
  import Money

  // ---------------------------------------------------------------------------
  // The calendar

  /** A day of the proleptic Gregorian calendar; `monthIndex` is 0 for January. */
  datatype CalendarDay = CalendarDay(year: int, monthIndex: int, day: int)

  predicate IsLeapYear(year: int)
  {
    year % 4 == 0 && (year % 100 != 0 || year % 400 == 0)
  }

  function DaysInMonth(year: int, monthIndex: int): (n: int)
    requires 0 <= monthIndex < 12
    ensures 28 <= n <= 31
    ensures n == 29 <==> monthIndex == 1 && IsLeapYear(year)
  {
    if monthIndex == 1 then (if IsLeapYear(year) then 29 else 28)
    else if monthIndex in {3, 5, 8, 10} then 30
    else 31
  }

  /** A position on the month line, to compare months of different years. */
  function MonthOrdinal(year: int, monthIndex: int): int
  {
    12 * year + monthIndex
  }

  /**
   * The day `offset` days after the first of a month (before it, when negative):
   * how a `Date` settles a day number outside the month, rolling into the
   * neighbouring months as often as needed.
   */
  function DayAfterFirst(year: int, monthIndex: int, offset: int): (r: CalendarDay)
    requires 0 <= monthIndex < 12
    ensures 0 <= r.monthIndex < 12 && 1 <= r.day <= DaysInMonth(r.year, r.monthIndex)
    decreases if offset < 0 then -offset else 0, if offset < 0 then 0 else offset
  {
    if offset < 0 then
      var py := if monthIndex == 0 then year - 1 else year;
      var pm := if monthIndex == 0 then 11 else monthIndex - 1;
      DayAfterFirst(py, pm, offset + DaysInMonth(py, pm))
    else if offset < DaysInMonth(year, monthIndex) then
      CalendarDay(year, monthIndex, offset + 1)
    else
      var ny := if monthIndex == 11 then year + 1 else year;
      var nm := if monthIndex == 11 then 0 else monthIndex + 1;
      DayAfterFirst(ny, nm, offset - DaysInMonth(year, monthIndex))
  }

  /** `new Date(year, monthIndex, day)`: a year from 0 to 99 means 1900 plus that year. */
  function JsDate(year: int, monthIndex: int, day: int): CalendarDay
    requires 0 <= monthIndex < 12
  {
    var fullYear := if 0 <= year <= 99 then 1900 + year else year;
    DayAfterFirst(fullYear, monthIndex, day - 1)
  }

  /** A negative offset lands in an earlier month, an offset past the month's end in a later one. */
  lemma {:induction false} DayAfterFirstPlacement(year: int, monthIndex: int, offset: int)
    requires 0 <= monthIndex < 12
    ensures var r := DayAfterFirst(year, monthIndex, offset);
      && (offset < 0 ==> MonthOrdinal(r.year, r.monthIndex) < MonthOrdinal(year, monthIndex))
      && (0 <= offset < DaysInMonth(year, monthIndex) ==> r == CalendarDay(year, monthIndex, offset + 1))
      && (offset >= DaysInMonth(year, monthIndex) ==> MonthOrdinal(r.year, r.monthIndex) > MonthOrdinal(year, monthIndex))
    decreases if offset < 0 then -offset else 0, if offset < 0 then 0 else offset
  {
    if offset < 0 {
      var py := if monthIndex == 0 then year - 1 else year;
      var pm := if monthIndex == 0 then 11 else monthIndex - 1;
      DayAfterFirstPlacement(py, pm, offset + DaysInMonth(py, pm));
    } else if offset >= DaysInMonth(year, monthIndex) {
      var ny := if monthIndex == 11 then year + 1 else year;
      var nm := if monthIndex == 11 then 0 else monthIndex + 1;
      DayAfterFirstPlacement(ny, nm, offset - DaysInMonth(year, monthIndex));
    }
  }

  /** The due-this-month test of lines 89-97: the installment date does not roll out of the month. */
  predicate DueThisMonth(year: int, monthIndex: int, dueDay: int)
    requires 0 <= monthIndex < 12
  {
    var d := JsDate(year, monthIndex, dueDay);
    d.monthIndex == monthIndex && d.year == year
  }

  /** For a year past 99, a debt is due this month exactly when its due day is a day of this month. */
  lemma DueThisMonthIff(year: int, monthIndex: int, dueDay: int)
    requires 0 <= monthIndex < 12 && year >= 100
    ensures DueThisMonth(year, monthIndex, dueDay) <==> 1 <= dueDay <= DaysInMonth(year, monthIndex)
  {
    DayAfterFirstPlacement(year, monthIndex, dueDay - 1);
  }

  // ---------------------------------------------------------------------------
  // Reading a transaction's date

  /** `"DDDD-DD-DD"`, the shape of a stored date. */
  predicate IsoShaped(s: string)
  {
    && |s| == 10 && s[4] == '-' && s[7] == '-'
    && AllDigits(s[0..2]) && AllDigits(s[2..4]) && AllDigits(s[5..7]) && AllDigits(s[8..10])
  }

  /** `new Date(s)` for a stored date, read as the calendar day it names; anything else is an invalid date. */
  function ParseIsoDate(s: string): (r: Option<CalendarDay>)
    ensures r.Some? ==> 0 <= r.value.monthIndex < 12 && 1 <= r.value.day <= DaysInMonth(r.value.year, r.value.monthIndex)
  {
    if !IsoShaped(s) then None
    else
      var year := 100 * DigitsValue(s[0..2]) + DigitsValue(s[2..4]);
      var month := DigitsValue(s[5..7]);
      var day := DigitsValue(s[8..10]);
      if 1 <= month <= 12 && 1 <= day <= DaysInMonth(year, month - 1) then Some(CalendarDay(year, month - 1, day))
      else None
  }

  /** Reading the ISO form of a day gives that day back. */
  lemma ParseIsoDateRoundTrip(year: nat, month: nat, day: nat)
    requires 1000 <= year <= 9999 && 1 <= month <= 12 && 1 <= day <= DaysInMonth(year, month - 1)
    ensures ParseIsoDate(BudgetActuals.IsoDate(year, month, day)) == Some(CalendarDay(year, month - 1, day))
  {
    FourDigitYear(year);
    var s := BudgetActuals.IsoDate(year, month, day);
    assert s == TwoDigits(year / 100) + TwoDigits(year % 100) + "-" + TwoDigits(month) + "-" + TwoDigits(day);
    assert s[0..2] == TwoDigits(year / 100);
    assert s[2..4] == TwoDigits(year % 100);
    assert s[5..7] == TwoDigits(month);
    assert s[8..10] == TwoDigits(day);
    TwoDigitsValue(year / 100);
    TwoDigitsValue(year % 100);
    TwoDigitsValue(month);
    TwoDigitsValue(day);
  }

  /** The month filter of lines 69-75. */
  predicate InMonth(t: Transaction, year: int, monthIndex: int)
  {
    var d := ParseIsoDate(t.date);
    d.Some? && d.value.monthIndex == monthIndex && d.value.year == year
  }

  /**
   * The dashboard and the budget page agree on what a month is: a stored date
   * with a four-digit year passes the dashboard's month filter exactly when it
   * falls in the budget page's string window for that month.
   */
  lemma MonthFilterMatchesBudgetWindow(t: Transaction, ty: nat, tm: nat, td: nat, year: nat, month: nat)
    requires 1000 <= ty <= 9999 && 1 <= tm <= 12 && 1 <= td <= DaysInMonth(ty, tm - 1)
    requires t.date == BudgetActuals.IsoDate(ty, tm, td)
    requires 1000 <= year <= 9999 && 1 <= month <= 12
    ensures InMonth(t, year, month - 1) <==> BudgetActuals.InWindow(t.date, year, month)
  {
    ParseIsoDateRoundTrip(ty, tm, td);
    BudgetActuals.WindowIsCalendarMonth(ty, tm, td, year, month);
  }

  // ---------------------------------------------------------------------------
  // The figures

  /** The fetched transactions of the current month, in fetched order. */
  function MonthTransactions(txs: seq<Transaction>, year: int, monthIndex: int): (r: seq<Transaction>)
    ensures |r| <= |txs|
    ensures forall t :: t in r <==> t in txs && InMonth(t, year, monthIndex)
  {
    if txs == [] then []
    else
      var rest := MonthTransactions(txs[1..], year, monthIndex);
      assert forall t :: t in txs <==> t == txs[0] || t in txs[1..];
      if InMonth(txs[0], year, monthIndex) then [txs[0]] + rest else rest
  }

  /** The signed sum of the income amounts (lines 77-79): no absolute value is taken. */
  function IncomeTotal(txs: seq<Transaction>): int
  {
    if txs == [] then 0
    else (if txs[0].category == Income then txs[0].amount else 0) + IncomeTotal(txs[1..])
  }

  /** The sum of `|amount|` over every other category, debt payments included (lines 81-83). */
  function ExpenseTotal(txs: seq<Transaction>): (r: int)
    ensures r >= 0
  {
    if txs == [] then 0
    else (if txs[0].category != Income then Money.Abs(txs[0].amount) else 0) + ExpenseTotal(txs[1..])
  }

  /** What one transaction does to the balance: an income adds its amount, anything else takes away its size. */
  function Net(t: Transaction): int
  {
    if t.category == Income then t.amount else 0 - Money.Abs(t.amount)
  }

  function NetSum(txs: seq<Transaction>): int
  {
    if txs == [] then 0 else NetSum(txs[..|txs| - 1]) + Net(txs[|txs| - 1])
  }

  /** Each transaction added at the end moves income and expenses by its own contribution only. */
  lemma {:induction false} FiguresAppend(txs: seq<Transaction>, t: Transaction)
    ensures IncomeTotal(txs + [t]) == IncomeTotal(txs) + (if t.category == Income then t.amount else 0)
    ensures ExpenseTotal(txs + [t]) == ExpenseTotal(txs) + (if t.category != Income then Money.Abs(t.amount) else 0)
  {
    if txs != [] {
      assert (txs + [t])[1..] == txs[1..] + [t];
      FiguresAppend(txs[1..], t);
    } else {
      assert [] + [t] == [t];
    }
  }

  /** Income minus expenses is the sum of every transaction's effect on the balance. */
  lemma {:induction false} BalanceIsNetSum(txs: seq<Transaction>)
    ensures IncomeTotal(txs) - ExpenseTotal(txs) == NetSum(txs)
  {
    if txs != [] {
      var init := txs[..|txs| - 1];
      assert txs == init + [txs[|txs| - 1]];
      BalanceIsNetSum(init);
      FiguresAppend(init, txs[|txs| - 1]);
    }
  }

  /** A debt row as the store returns it: the page also reads an `installment_amount` the record type does not declare. */
  datatype FetchedDebt = FetchedDebt(debt: Debt, installment_amount: Option<int>)

  /** `d.installment_amount || 0`. */
  function Installment(d: FetchedDebt): int
  {
    d.installment_amount.GetOr(0)
  }

  /** Lines 85-99. */
  function DebtPayments(debts: seq<FetchedDebt>, year: int, monthIndex: int): int
    requires 0 <= monthIndex < 12
  {
    if debts == [] then 0
    else (if DueThisMonth(year, monthIndex, debts[0].debt.due_day) then Installment(debts[0]) else 0)
         + DebtPayments(debts[1..], year, monthIndex)
  }

  /** The installments of the debts whose due day is a day of the month, as a calendar would count them. */
  function InstallmentsDue(debts: seq<FetchedDebt>, year: int, monthIndex: int): int
    requires 0 <= monthIndex < 12
  {
    if debts == [] then 0
    else
      var d := debts[|debts| - 1];
      InstallmentsDue(debts[..|debts| - 1], year, monthIndex)
      + if 1 <= d.debt.due_day <= DaysInMonth(year, monthIndex) then Installment(d) else 0
  }

  lemma {:induction false} DebtPaymentsAppend(debts: seq<FetchedDebt>, d: FetchedDebt, year: int, monthIndex: int)
    requires 0 <= monthIndex < 12
    ensures DebtPayments(debts + [d], year, monthIndex) ==
      DebtPayments(debts, year, monthIndex) + if DueThisMonth(year, monthIndex, d.debt.due_day) then Installment(d) else 0
  {
    if debts != [] {
      assert (debts + [d])[1..] == debts[1..] + [d];
      DebtPaymentsAppend(debts[1..], d, year, monthIndex);
    } else {
      assert [] + [d] == [d];
    }
  }

  /** The page's date-rolling test sums the same installments as the calendar rule `1 <= due_day <= days in month`. */
  lemma {:induction false} DebtPaymentsAreInstallmentsDue(debts: seq<FetchedDebt>, year: int, monthIndex: int)
    requires 0 <= monthIndex < 12 && year >= 100
    ensures DebtPayments(debts, year, monthIndex) == InstallmentsDue(debts, year, monthIndex)
  {
    if debts != [] {
      var init, d := debts[..|debts| - 1], debts[|debts| - 1];
      assert debts == init + [d];
      DebtPaymentsAreInstallmentsDue(init, year, monthIndex);
      DebtPaymentsAppend(init, d, year, monthIndex);
      DueThisMonthIff(year, monthIndex, d.debt.due_day);
    }
  }

  /** Lines 101-104: every fetched debt, whatever its due day. */
  function TotalDebt(debts: seq<FetchedDebt>): int
  {
    if debts == [] then 0 else debts[0].debt.total_amount + TotalDebt(debts[1..])
  }

  /** The summary of lines 67-112, over the lists it is given. */
  function Summarize(txs: seq<Transaction>, debts: seq<FetchedDebt>, year: int, monthIndex: int): DashboardSummary
    requires 0 <= monthIndex < 12
  {
    var month := MonthTransactions(txs, year, monthIndex);
    var income := IncomeTotal(month);
    var expenses := ExpenseTotal(month);
    DashboardSummary(income, expenses, DebtPayments(debts, year, monthIndex), income - expenses, TotalDebt(debts))
  }

  /**
   * What the summary means: income and expenses are taken over the month's
   * transactions only, expenses are never negative, the balance is every month
   * transaction's effect summed, and the debt payments are the installments due
   * on a day of this month.
   */
  lemma SummarySpec(txs: seq<Transaction>, debts: seq<FetchedDebt>, year: int, monthIndex: int)
    requires 0 <= monthIndex < 12 && year >= 100
    ensures var s := Summarize(txs, debts, year, monthIndex);
      && s.monthly_income == IncomeTotal(MonthTransactions(txs, year, monthIndex))
      && s.monthly_expenses >= 0
      && s.monthly_balance == NetSum(MonthTransactions(txs, year, monthIndex))
      && s.monthly_debt_payments == InstallmentsDue(debts, year, monthIndex)
      && s.total_debt_balance == TotalDebt(debts)
  {
    BalanceIsNetSum(MonthTransactions(txs, year, monthIndex));
    DebtPaymentsAreInstallmentsDue(debts, year, monthIndex);
  }

  /** The summary with every figure zero. */
  const ZeroSummary := DashboardSummary(0, 0, 0, 0, 0)

  /** No transactions and no debts give a summary of zeros. */
  lemma EmptySummary(year: int, monthIndex: int)
    requires 0 <= monthIndex < 12
    ensures Summarize([], [], year, monthIndex) == ZeroSummary
  {
  }

  // ---------------------------------------------------------------------------
  // Loading the page

  /** `.limit(n)`: the first `n` rows, or all of them when there are fewer. */
  function Limit<T>(s: seq<T>, n: nat): (r: seq<T>)
    ensures r <= s
    ensures |r| == if |s| <= n then |s| else n
  {
    if |s| <= n then s else s[..n]
  }

  /** `.eq("status", "active")`, in table order. */
  function ActiveDebts(debts: seq<FetchedDebt>): (r: seq<FetchedDebt>)
    ensures |r| <= |debts|
    ensures forall d :: d in r <==> d in debts && d.debt.status == Active
  {
    if debts == [] then []
    else
      var rest := ActiveDebts(debts[1..]);
      assert forall d :: d in debts <==> d == debts[0] || d in debts[1..];
      if debts[0].debt.status == Active then [debts[0]] + rest else rest
  }

  /** The page's state after `fetchData`: the summary, unset until a transaction list arrives, and the two lists shown. */
  datatype DashboardState = DashboardState(summary: Option<DashboardSummary>, transactions: seq<Transaction>, debts: seq<FetchedDebt>)

  /**
   * `fetchData` (lines 36-122). A failed query's data is null and its error is
   * only logged: without transactions the summary stays unset, without debts
   * the summary counts none.
   */
  function FetchDashboard(transactionsByDate: seq<Transaction>, debtsByTotal: seq<FetchedDebt>,
                          transactionsFail: bool, debtsFail: bool, year: int, monthIndex: int): (r: DashboardState)
    requires 0 <= monthIndex < 12
    ensures |r.transactions| <= 5 && r.transactions <= transactionsByDate
    ensures |r.debts| <= 5 && forall d :: d in r.debts ==> d in debtsByTotal && d.debt.status == Active
    ensures r.summary.Some? <==> !transactionsFail
    ensures r.summary.Some? ==> r.summary.value == Summarize(r.transactions, r.debts, year, monthIndex)
    ensures transactionsFail ==> r.transactions == []
    ensures !transactionsFail ==> |r.transactions| == if |transactionsByDate| <= 5 then |transactionsByDate| else 5
    ensures debtsFail ==> r.debts == []
    ensures !debtsFail ==> r.debts <= ActiveDebts(debtsByTotal)
    ensures !debtsFail ==> |r.debts| == if |ActiveDebts(debtsByTotal)| <= 5 then |ActiveDebts(debtsByTotal)| else 5
  {
    var txData := if transactionsFail then None else Some(Limit(transactionsByDate, 5));
    var debtsData := if debtsFail then None else Some(Limit(ActiveDebts(debtsByTotal), 5));
    var summary := if txData.Some? then Some(Summarize(txData.value, debtsData.GetOr([]), year, monthIndex)) else None;
    DashboardState(summary, txData.GetOr([]), debtsData.GetOr([]))
  }

  /** `dashboardData?.x || "R$ 0,00"`: an unset summary is shown as zeros. */
  function Shown(summary: Option<DashboardSummary>): DashboardSummary
  {
    summary.GetOr(ZeroSummary)
  }

  /** A failed transaction query shows the same figures as an empty account. */
  lemma FailedLoadShowsZeros(transactionsByDate: seq<Transaction>, debtsByTotal: seq<FetchedDebt>, debtsFail: bool, year: int, monthIndex: int)
    requires 0 <= monthIndex < 12
    ensures Shown(FetchDashboard(transactionsByDate, debtsByTotal, true, debtsFail, year, monthIndex).summary)
         == Shown(FetchDashboard([], [], false, false, year, monthIndex).summary)
  {
    EmptySummary(year, monthIndex);
  }

  // ---------------------------------------------------------------------------
  // The monthly figures over a five-row list

  /**
   * As written, the figures are taken over the five most recent transactions
   * only: once there are five, an older transaction of the month changes nothing.
   * Six incomes of 100 in the month show an income of 500.
   */
  lemma OlderTransactionIgnored(transactionsByDate: seq<Transaction>, t: Transaction, debtsByTotal: seq<FetchedDebt>, year: int, monthIndex: int)
    requires 0 <= monthIndex < 12
    requires |transactionsByDate| >= 5
    ensures FetchDashboard(transactionsByDate + [t], debtsByTotal, false, false, year, monthIndex)
         == FetchDashboard(transactionsByDate, debtsByTotal, false, false, year, monthIndex)
    ensures var six := Transaction("t", "u", BudgetActuals.IsoDate(2024, 3, 10), "", Income, None, 100, None, None, "", "");
      FetchDashboard([six, six, six, six, six, six], [], false, false, 2024, 2).summary.value.monthly_income == 500
  {
    assert (transactionsByDate + [t])[..5] == transactionsByDate[..5];
    var six := Transaction("t", "u", BudgetActuals.IsoDate(2024, 3, 10), "", Income, None, 100, None, None, "", "");
    ParseIsoDateRoundTrip(2024, 3, 10);
    assert InMonth(six, 2024, 2);
    var five := [six, six, six, six, six];
    assert Limit([six, six, six, six, six, six], 5) == five;
    AllInMonth(five, 2024, 2);
    var four, three, two, one := [six, six, six, six], [six, six, six], [six, six], [six];
    assert five[1..] == four && four[1..] == three && three[1..] == two && two[1..] == one && one[1..] == [];
    assert IncomeTotal(one) == 100 && IncomeTotal(two) == 200 && IncomeTotal(three) == 300;
    assert IncomeTotal(five) == 500;
  }

  /** A list of the month's transactions passes the month filter whole. */
  lemma {:induction false} AllInMonth(txs: seq<Transaction>, year: int, monthIndex: int)
    requires forall i :: 0 <= i < |txs| ==> InMonth(txs[i], year, monthIndex)
    ensures MonthTransactions(txs, year, monthIndex) == txs
  {
    if txs != [] {
      AllInMonth(txs[1..], year, monthIndex);
    }
  }

  /** The month's figures over every stored transaction and every active debt. */
  function MonthlySummary(transactions: seq<Transaction>, debts: seq<FetchedDebt>, year: int, monthIndex: int): DashboardSummary
    requires 0 <= monthIndex < 12
  {
    Summarize(transactions, ActiveDebts(debts), year, monthIndex)
  }

  /** Every transaction of the month counts, however many there are: adding one moves income or expenses by its amount. */
  lemma {:induction false} EveryMonthTransactionCounts(transactions: seq<Transaction>, t: Transaction, debts: seq<FetchedDebt>, year: int, monthIndex: int)
    requires 0 <= monthIndex < 12
    requires InMonth(t, year, monthIndex)
    ensures var before := MonthlySummary(transactions, debts, year, monthIndex);
      var after := MonthlySummary(transactions + [t], debts, year, monthIndex);
      && after.monthly_income == before.monthly_income + (if t.category == Income then t.amount else 0)
      && after.monthly_expenses == before.monthly_expenses + (if t.category != Income then Money.Abs(t.amount) else 0)
      && after.monthly_balance == before.monthly_balance + Net(t)
  {
    MonthTransactionsAppend(transactions, t, year, monthIndex);
    FiguresAppend(MonthTransactions(transactions, year, monthIndex), t);
  }

  /**
   * As written, the total debt is taken over the five largest active debts
   * fetched for display only: once five are active, a smaller one changes
   * nothing, however large the sum of the rest.
   */
  lemma {:induction false} OlderDebtIgnored(transactionsByDate: seq<Transaction>, debtsByTotal: seq<FetchedDebt>, d: FetchedDebt, year: int, monthIndex: int)
    requires 0 <= monthIndex < 12
    requires |ActiveDebts(debtsByTotal)| >= 5
    ensures FetchDashboard(transactionsByDate, debtsByTotal + [d], false, false, year, monthIndex)
         == FetchDashboard(transactionsByDate, debtsByTotal, false, false, year, monthIndex)
  {
    ActiveDebtsAppend(debtsByTotal, d);
    var active := ActiveDebts(debtsByTotal);
    assert (active + (if d.debt.status == Active then [d] else []))[..5] == active[..5];
    assert Limit(ActiveDebts(debtsByTotal + [d]), 5) == Limit(active, 5);
  }

  /** Every active debt counts towards the total debt, however many there are. */
  lemma {:induction false} EveryActiveDebtCounts(transactions: seq<Transaction>, debts: seq<FetchedDebt>, d: FetchedDebt, year: int, monthIndex: int)
    requires 0 <= monthIndex < 12
    ensures MonthlySummary(transactions, debts + [d], year, monthIndex).total_debt_balance
         == MonthlySummary(transactions, debts, year, monthIndex).total_debt_balance
            + (if d.debt.status == Active then d.debt.total_amount else 0)
  {
    ActiveDebtsAppend(debts, d);
    if d.debt.status == Active {
      TotalDebtAppend(ActiveDebts(debts), d);
    } else {
      assert ActiveDebts(debts) + [] == ActiveDebts(debts);
    }
  }

  lemma {:induction false} ActiveDebtsAppend(debts: seq<FetchedDebt>, d: FetchedDebt)
    ensures ActiveDebts(debts + [d]) == ActiveDebts(debts) + if d.debt.status == Active then [d] else []
  {
    if debts != [] {
      assert (debts + [d])[1..] == debts[1..] + [d];
      ActiveDebtsAppend(debts[1..], d);
    } else {
      assert [] + [d] == [d];
    }
  }

  lemma {:induction false} TotalDebtAppend(debts: seq<FetchedDebt>, d: FetchedDebt)
    ensures TotalDebt(debts + [d]) == TotalDebt(debts) + d.debt.total_amount
  {
    if debts != [] {
      assert (debts + [d])[1..] == debts[1..] + [d];
      TotalDebtAppend(debts[1..], d);
    } else {
      assert [] + [d] == [d];
    }
  }

  lemma {:induction false} MonthTransactionsAppend(txs: seq<Transaction>, t: Transaction, year: int, monthIndex: int)
    ensures MonthTransactions(txs + [t], year, monthIndex) ==
      MonthTransactions(txs, year, monthIndex) + if InMonth(t, year, monthIndex) then [t] else []
  {
    if txs != [] {
      assert (txs + [t])[1..] == txs[1..] + [t];
      MonthTransactionsAppend(txs[1..], t, year, monthIndex);
    } else {
      assert [] + [t] == [t];
    }
  }
}
