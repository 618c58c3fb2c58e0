/**
 * The records the application stores: debts, transactions and monthly budget
 * lines, and the dashboard summary derived from them. Money is integer cents;
 * dates and timestamps are the strings the store returns (`"YYYY-MM-DD"` for a
 * transaction date). A field declared with `?` is an `Option`.
 */
module FinancialTypes {
  import opened Options

  /** `Transaction.category`: exactly one of four values. */
  datatype Category = Income | FixedExpense | VariableExpense | DebtPayment

  function CategoryName(c: Category): string
  {
    match c
    case Income => "income"
    case FixedExpense => "fixed_expense"
    case VariableExpense => "variable_expense"
    case DebtPayment => "debt_payment"
  }

  /** The category a stored or selected string names, if any. */
  function ParseCategory(s: string): (r: Option<Category>)
    ensures r.Some? ==> CategoryName(r.value) == s
  {
    if s == "income" then Some(Income)
    else if s == "fixed_expense" then Some(FixedExpense)
    else if s == "variable_expense" then Some(VariableExpense)
    else if s == "debt_payment" then Some(DebtPayment)
    else None
  }

  /** The four names are distinct and are the only strings that name a category. */
  lemma CategoryNameRoundTrip(c: Category, s: string)
    ensures ParseCategory(s) == Some(c) <==> s == CategoryName(c)
  {
  }

  /** `Debt.priority_strategy`. */
  datatype PriorityStrategy = Avalanche | Snowball | Custom

  function StrategyName(p: PriorityStrategy): string
  {
    match p
    case Avalanche => "avalanche"
    case Snowball => "snowball"
    case Custom => "custom"
  }

  function ParseStrategy(s: string): (r: Option<PriorityStrategy>)
    ensures r.Some? ==> StrategyName(r.value) == s
  {
    if s == "avalanche" then Some(Avalanche)
    else if s == "snowball" then Some(Snowball)
    else if s == "custom" then Some(Custom)
    else None
  }

  lemma StrategyNameRoundTrip(p: PriorityStrategy, s: string)
    ensures ParseStrategy(s) == Some(p) <==> s == StrategyName(p)
  {
  }

  /** `Debt.status`. */
  datatype DebtStatus = Active | Negotiated | Paid

  function StatusName(d: DebtStatus): string
  {
    match d
    case Active => "active"
    case Negotiated => "negotiated"
    case Paid => "paid"
  }

  function ParseStatus(s: string): (r: Option<DebtStatus>)
    ensures r.Some? ==> StatusName(r.value) == s
  {
    if s == "active" then Some(Active)
    else if s == "negotiated" then Some(Negotiated)
    else if s == "paid" then Some(Paid)
    else None
  }

  lemma StatusNameRoundTrip(d: DebtStatus, s: string)
    ensures ParseStatus(s) == Some(d) <==> s == StatusName(d)
  {
  }

  /**
   * A debt. `monthly_interest_rate` is in hundredths of a percent, `due_day` is
   * the day of the month the installment falls due. There is no
   * `installment_amount` field, although the dashboard reads one.
   */
  datatype Debt = Debt(
    id: string,
    user_id: string,
    name: string,
    total_amount: int,
    monthly_interest_rate: int,
    minimum_payment: int,
    due_day: int,
    priority_strategy: PriorityStrategy,
    status: DebtStatus,
    notes: Option<string>,
    created_at: string,
    updated_at: string,
    paid_amount: Option<int>,
    current_balance: Option<int>)

  /** A transaction: a signed amount on a date, in one of the four categories. */
  datatype Transaction = Transaction(
    id: string,
    user_id: string,
    date: string,
    description: string,
    category: Category,
    subcategory: Option<string>,
    amount: int,
    account_source: Option<string>,
    debt_id: Option<string>,
    created_at: string,
    updated_at: string)

  /** A budget line: a planned amount for a free-form category in one month of one year. */
  datatype Budget = Budget(
    id: string,
    user_id: string,
    month: int,
    year: int,
    category: string,
    planned_amount: int,
    created_at: string,
    updated_at: string,
    actual_amount: Option<int>)

  /** The five figures of the dashboard. */
  datatype DashboardSummary = DashboardSummary(
    monthly_income: int,
    monthly_expenses: int,
    monthly_debt_payments: int,
    monthly_balance: int,
    total_debt_balance: int)
}
