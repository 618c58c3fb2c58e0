/**
 * The budget page's state and handlers (app/budget/page.tsx): loading the view
 * for the selected month, editing a row's planned amount, and adding a
 * category. The store is two tables held as sequences; its failures are
 * parameters, and the ids and timestamps it assigns to a new line are given.
 */
module BudgetPage {
  import opened Options
  import opened Text
  import opened FinancialTypes
  import opened BudgetActuals
  import opened BudgetReconcile
  import Money

  /** Which of the reads of `fetchBudgetData` fail. */
  datatype FetchOutcome = FetchOutcome(
    budgetFails: bool,      // the budget query: thrown, the view is not replaced
    firstQueryFails: bool,  // the unused query bounded by day 31: thrown, the view is not replaced
    monthQueryFails: bool)  // the month's query: its error is never looked at, so no actuals

  /** `.from("budget").select("*").eq("month", month).eq("year", year)`, in table order. */
  function LinesOf(table: seq<Budget>, month: int, year: int): (r: seq<Budget>)
    ensures |r| <= |table|
    ensures forall b :: b in r <==> b in table && b.month == month && b.year == year
  {
    if table == [] then []
    else
      var rest := LinesOf(table[1..], month, year);
      assert forall b :: b in table <==> b == table[0] || b in table[1..];
      if table[0].month == month && table[0].year == year then [table[0]] + rest else rest
  }

  lemma {:induction false} LinesOfAppend(table: seq<Budget>, b: Budget, month: int, year: int)
    ensures LinesOf(table + [b], month, year) ==
      LinesOf(table, month, year) + if b.month == month && b.year == year then [b] else []
  {
    if table != [] {
      assert (table + [b])[1..] == table[1..] + [b];
      LinesOfAppend(table[1..], b, month, year);
    } else {
      assert [] + [b] == [b];
    }
  }

  /** What the month's query hands to the loop: nothing when it failed. */
  function MonthData(table: seq<Transaction>, year: nat, month: nat, fails: bool): Option<seq<Transaction>>
  {
    if fails then None else Some(WindowQuery(table, year, month))
  }

  /** The rows `fetchBudgetData` computes from the month's lines and the month's query result. */
  function ComputeView(lines: seq<Budget>, data: Option<seq<Transaction>>, month: int, year: int): seq<BudgetRow>
  {
    var txs := if data.Some? then data.value else [];
    KeyOrderSpec(txs);
    View(lines, Actuals(txs), KeyOrder(txs), month, year)
  }

  /**
   * The page's totals, whatever the stored lines: the planned total is that of the
   * stored lines and the total difference is the sum of the row differences.
   */
  lemma ViewPlannedAndDifferences(lines: seq<Budget>, data: Option<seq<Transaction>>, month: int, year: int)
    ensures var rows := ComputeView(lines, data, month, year);
      && TotalPlanned(rows) == PlannedOf(lines)
      && TotalDifference(rows) == SumDifferences(rows)
  {
    var txs := if data.Some? then data.value else [];
    KeyOrderSpec(txs);
    ViewPlannedTotal(lines, Actuals(txs), KeyOrder(txs), month, year);
    ViewDifferences(lines, Actuals(txs), KeyOrder(txs), month, year);
    TotalDifferenceIsSum(ComputeView(lines, data, month, year));
  }

  /**
   * The page's actual total accounts for the month exactly when the stored
   * categories are distinct: it is the sum of `|amount|` over the month's fixed and
   * variable expenses.
   */
  lemma ViewAccountsForSpending(lines: seq<Budget>, txs: seq<Transaction>, month: int, year: int)
    requires DistinctCategories(lines)
    ensures TotalActual(ComputeView(lines, Some(txs), month, year)) == ContributingTotal(txs)
  {
    KeyOrderSpec(txs);
    ActualsTotal(txs);
    ViewTotals(lines, Actuals(txs), KeyOrder(txs), month, year);
  }

  /** A failed month query shows every stored line with no spending and adds no synthetic row. */
  lemma FailedQueryShowsNoSpending(lines: seq<Budget>, month: int, year: int)
    ensures var rows := ComputeView(lines, None, month, year);
      && |rows| == |lines|
      && forall i :: 0 <= i < |rows| ==> rows[i].actual_amount == 0 && rows[i].difference == lines[i].planned_amount
  {
    var rows := ComputeView(lines, None, month, year);
    assert Actuals([]) == map[] && KeyOrder([]) == [];
    ViewRows(lines, map[], [], month, year);
  }

  // ---------------------------------------------------------------------------
  // Writes

  /** What a handler asks the store to do. */
  datatype Write = NoWrite | InsertLine(category: string, amount: int) | UpdateLine(id: string, amount: int)

  /** `budgetItems.find((item) => item.id === id)`. */
  function FindRow(rows: seq<BudgetRow>, id: string): (r: Option<BudgetRow>)
    ensures r.Some? ==> r.value in rows && r.value.id == id
    ensures r.Some? ==> exists i :: 0 <= i < |rows| && rows[i] == r.value && forall k :: 0 <= k < i ==> rows[k].id != id
    ensures r.None? ==> forall x :: x in rows ==> x.id != id
  {
    if rows == [] then None
    else if rows[0].id == id then Some(rows[0])
    else
      var r := FindRow(rows[1..], id);
      if r.Some? then
        var i :| 0 <= i < |rows[1..]| && rows[1..][i] == r.value && forall k :: 0 <= k < i ==> rows[1..][k].id != id;
        assert rows[i + 1] == r.value;
        assert forall k :: 0 <= k < i + 1 ==> rows[k].id != id by {
          forall k | 0 <= k < i + 1 ensures rows[k].id != id {
            if k > 0 { assert rows[k] == rows[1..][k - 1]; }
          }
        }
        r
      else r
  }

  /** The decision of `handleSaveEdit` (lines 192-220). */
  function SaveDecision(rows: seq<BudgetRow>, budgetId: string, editValue: string): Write
  {
    match Money.Parse(editValue)
    case None => NoWrite
    case Some(amount) =>
      match FindRow(rows, budgetId)
      case None => NoWrite
      case Some(row) =>
        if StartsWith(budgetId, TempPrefix) then InsertLine(row.category, amount) else UpdateLine(budgetId, amount)
  }

  /**
   * The decision of `handleAddCategory` (lines 230-243). A non-empty amount that
   * does not parse would be sent as `NaN`, which JSON carries as `null`, and the
   * required `planned_amount` column refuses it: no line is written.
   */
  function AddDecision(newCategory: string, newAmount: string): Write
  {
    if newCategory == "" || newAmount == "" then NoWrite
    else
      match Money.Parse(newAmount)
      case None => NoWrite
      case Some(amount) => InsertLine(newCategory, amount)
  }

  /**
   * The add decision with the check the handler lacks: a category the month
   * already has a line for is refused, like an empty field.
   */
  function CheckedAddDecision(lines: seq<Budget>, newCategory: string, newAmount: string): Write
  {
    if newCategory in Categories(lines) then NoWrite else AddDecision(newCategory, newAmount)
  }

  /** The new line the store creates for an insert. */
  function NewLine(id: string, owner: string, stamp: string, month: int, year: int, category: string, amount: int): Budget
  {
    Budget(id, owner, month, year, category, amount, stamp, stamp, None)
  }

  /**
   * The budget table after a write: an insert appends a line, an update sets
   * `planned_amount` on every line with that id and changes nothing else.
   */
  function ApplyWrite(table: seq<Budget>, w: Write, month: int, year: int, newId: string, owner: string, stamp: string): (r: seq<Budget>)
    ensures w.UpdateLine? ==> |r| == |table| && forall i :: 0 <= i < |r| ==>
      && r[i].(planned_amount := table[i].planned_amount) == table[i]
      && r[i].planned_amount == (if table[i].id == w.id then w.amount else table[i].planned_amount)
  {
    match w
    case NoWrite => table
    case InsertLine(category, amount) => table + [NewLine(newId, owner, stamp, month, year, category, amount)]
    case UpdateLine(id, amount) =>
      seq(|table|, i requires 0 <= i < |table| => if table[i].id == id then table[i].(planned_amount := amount) else table[i])
  }

  /**
   * Saving an edit: non-numeric input or an id that is not a row of the view writes
   * nothing; a `"temp-"` row inserts a line for its category; any other row
   * updates that id's planned amount, and only that.
   */
  lemma SaveDecisionSpec(rows: seq<BudgetRow>, budgetId: string, editValue: string)
    ensures var w := SaveDecision(rows, budgetId, editValue);
      && (w.NoWrite? <==> Money.Parse(editValue).None? || forall r :: r in rows ==> r.id != budgetId)
      && (w.InsertLine? ==> StartsWith(budgetId, TempPrefix) && Money.Parse(editValue) == Some(w.amount)
                            && exists r :: r in rows && r.id == budgetId && r.category == w.category)
      && (w.UpdateLine? ==> !StartsWith(budgetId, TempPrefix) && Money.Parse(editValue) == Some(w.amount) && w.id == budgetId)
  {
    var w := SaveDecision(rows, budgetId, editValue);
    if Money.Parse(editValue).Some? && FindRow(rows, budgetId).None? {
      assert w.NoWrite?;
    }
  }

  /**
   * Adding a category the month already has, as the handler is written: the
   * month's lines stop being distinct and the page's actual total counts that
   * category's spending twice.
   */
  lemma UncheckedAddCountsTwice(table: seq<Budget>, txs: seq<Transaction>, month: int, year: int,
                                category: string, amount: string, newId: string, owner: string, stamp: string)
    requires DistinctCategories(LinesOf(table, month, year))
    requires category in Categories(LinesOf(table, month, year))
    requires AddDecision(category, amount).InsertLine?
    ensures var lines := LinesOf(ApplyWrite(table, AddDecision(category, amount), month, year, newId, owner, stamp), month, year);
      && !DistinctCategories(lines)
      && TotalActual(ComputeView(lines, Some(txs), month, year)) == ContributingTotal(txs) + Get(Actuals(txs), category)
  {
    var w := AddDecision(category, amount);
    var line := NewLine(newId, owner, stamp, month, year, category, w.amount);
    LinesOfAppend(table, line, month, year);
    KeyOrderSpec(txs);
    ActualsTotal(txs);
    DuplicateLineCountsTwice(LinesOf(table, month, year), line, Actuals(txs), KeyOrder(txs), month, year);
  }

  /**
   * The checked add keeps the month's categories distinct, so the page's actual
   * total stays the month's spending; it writes exactly when the category is new
   * and the handler would write.
   */
  lemma CheckedAddKeepsCategoriesDistinct(table: seq<Budget>, txs: seq<Transaction>, month: int, year: int,
                                          category: string, amount: string, newId: string, owner: string, stamp: string)
    requires DistinctCategories(LinesOf(table, month, year))
    ensures var w := CheckedAddDecision(LinesOf(table, month, year), category, amount);
      var lines := LinesOf(ApplyWrite(table, w, month, year, newId, owner, stamp), month, year);
      && (w.InsertLine? <==> category !in Categories(LinesOf(table, month, year)) && AddDecision(category, amount).InsertLine?)
      && DistinctCategories(lines)
      && TotalActual(ComputeView(lines, Some(txs), month, year)) == ContributingTotal(txs)
  {
    var old_lines := LinesOf(table, month, year);
    var w := CheckedAddDecision(old_lines, category, amount);
    var lines := LinesOf(ApplyWrite(table, w, month, year, newId, owner, stamp), month, year);
    if w.InsertLine? {
      var line := NewLine(newId, owner, stamp, month, year, category, w.amount);
      LinesOfAppend(table, line, month, year);
      assert lines == old_lines + [line];
      forall i, j | 0 <= i < j < |lines| ensures lines[i].category != lines[j].category {
        if j == |old_lines| {
          assert lines[i] == old_lines[i];
          assert old_lines[i].category in Categories(old_lines);
        } else {
          assert lines[i] == old_lines[i] && lines[j] == old_lines[j];
        }
      }
    }
    ViewAccountsForSpending(lines, txs, month, year);
  }

  /** Re-saving the value the edit field was loaded with keeps the row's planned amount. */
  lemma SaveUnchangedEdit(rows: seq<BudgetRow>, row: BudgetRow)
    requires FindRow(rows, row.id) == Some(row)
    ensures SaveDecision(rows, row.id, Money.Format(row.planned_amount)) ==
      if StartsWith(row.id, TempPrefix) then InsertLine(row.category, row.planned_amount) else UpdateLine(row.id, row.planned_amount)
  {
    Money.ParseFormat(row.planned_amount);
  }

  /**
   * Saving a planned amount on a synthetic row creates a stored line: after the
   * insert, the view of the same month shows that category as a stored row with
   * the new id and amount and its spending, and no synthetic row for it.
   */
  lemma SavedSyntheticRowBecomesStored(table: seq<Budget>, data: Option<seq<Transaction>>, month: int, year: int,
                                       category: string, amount: int, newId: string, owner: string, stamp: string)
    ensures var t := ApplyWrite(table, InsertLine(category, amount), month, year, newId, owner, stamp);
      var lines := LinesOf(t, month, year);
      var rows := ComputeView(lines, data, month, year);
      var txs := if data.Some? then data.value else [];
      && |lines| == |LinesOf(table, month, year)| + 1
      && rows[|lines| - 1] == BudgetRow(newId, owner, month, year, category, amount,
                                        Get(Actuals(txs), category), amount - Get(Actuals(txs), category), stamp, stamp)
      && forall i :: |lines| <= i < |rows| ==> rows[i].category != category
  {
    var line := NewLine(newId, owner, stamp, month, year, category, amount);
    var t := table + [line];
    LinesOfAppend(table, line, month, year);
    var lines := LinesOf(t, month, year);
    var txs := if data.Some? then data.value else [];
    KeyOrderSpec(txs);
    ViewRows(lines, Actuals(txs), KeyOrder(txs), month, year);
    assert lines[|lines| - 1] == line;
    assert category in Categories(lines);
  }

  // ---------------------------------------------------------------------------
  // The page

  class BudgetPageState {
    var budgetTable: seq<Budget>
    var transactionTable: seq<Transaction>
    var selectedMonth: int
    var selectedYear: int
    var budgetItems: seq<BudgetRow>
    var editingId: Option<string>
    var editValue: string
    var newCategory: string
    var newAmount: string

    /** The month comes from a twelve-entry select, the year from a list of years. */
    ghost predicate Valid()
      reads this
    {
      1 <= selectedMonth <= 12 && selectedYear >= 0
    }

    /** The initial state, before the first fetch. */
    constructor (month: int, year: int, budgets: seq<Budget>, transactions: seq<Transaction>)
      requires 1 <= month <= 12 && year >= 0
      ensures Valid()
      ensures selectedMonth == month && selectedYear == year
      ensures budgetTable == budgets && transactionTable == transactions
      ensures budgetItems == [] && editingId == None && editValue == ""
      ensures newCategory == "" && newAmount == ""
    {
      selectedMonth, selectedYear := month, year;
      budgetTable, transactionTable := budgets, transactions;
      budgetItems := [];
      editingId, editValue := None, "";
      newCategory, newAmount := "", "";
    }

    /** The rows a successful `fetchBudgetData` shows for the current tables and month. */
    function FetchedView(monthQueryFails: bool): seq<BudgetRow>
      reads this
      requires Valid()
    {
      ComputeView(LinesOf(budgetTable, selectedMonth, selectedYear),
                  MonthData(transactionTable, selectedYear, selectedMonth, monthQueryFails),
                  selectedMonth, selectedYear)
    }

    /** `fetchBudgetData` (lines 84-176): errors are caught, leaving the previous rows in place. */
    method FetchBudgetData(outcome: FetchOutcome)
      requires Valid()
      modifies this`budgetItems
      ensures budgetItems == if outcome.budgetFails || outcome.firstQueryFails then old(budgetItems)
                             else FetchedView(outcome.monthQueryFails)
    {
      if outcome.budgetFails {
        return;
      }
      var lines := LinesOf(budgetTable, selectedMonth, selectedYear);
      if outcome.firstQueryFails {
        return;
      }
      var data := MonthData(transactionTable, selectedYear, selectedMonth, outcome.monthQueryFails);
      var amounts, order := ComputeActuals(data);
      var txs := if data.Some? then data.value else [];
      KeyOrderSpec(txs);
      var merged := MergeRows(lines, amounts);
      budgetItems := AppendUnbudgeted(merged, amounts, order, selectedMonth, selectedYear);
    }

    /** The edit button (lines 473-477): the field is loaded with the planned amount. */
    method StartEdit(row: BudgetRow)
      modifies this`editingId, this`editValue
      ensures editingId == Some(row.id) && editValue == Money.Format(row.planned_amount)
    {
      editingId := Some(row.id);
      editValue := Money.Format(row.planned_amount);
    }

    /** The cancel button (lines 457-460). */
    method CancelEdit()
      modifies this`editingId, this`editValue
      ensures editingId == None && editValue == ""
    {
      editingId, editValue := None, "";
    }

    /**
     * `handleSaveEdit` (lines 192-228). When there is nothing to write, or the
     * write fails, nothing changes; otherwise the table takes the write, the view
     * is fetched again and the edit is closed.
     */
    method HandleSaveEdit(budgetId: string, newId: string, owner: string, stamp: string, writeFails: bool, refetch: FetchOutcome)
      requires Valid()
      modifies this`budgetTable, this`budgetItems, this`editingId, this`editValue
      ensures Valid()
      ensures var w := SaveDecision(old(budgetItems), budgetId, old(editValue));
        if w.NoWrite? || writeFails then
          budgetTable == old(budgetTable) && budgetItems == old(budgetItems)
          && editingId == old(editingId) && editValue == old(editValue)
        else
          && budgetTable == ApplyWrite(old(budgetTable), w, selectedMonth, selectedYear, newId, owner, stamp)
          && budgetItems == (if refetch.budgetFails || refetch.firstQueryFails then old(budgetItems)
                             else FetchedView(refetch.monthQueryFails))
          && editingId == None && editValue == ""
    {
      var w := SaveDecision(budgetItems, budgetId, editValue);
      if w.NoWrite? || writeFails {
        return;
      }
      budgetTable := ApplyWrite(budgetTable, w, selectedMonth, selectedYear, newId, owner, stamp);
      FetchBudgetData(refetch);
      editingId, editValue := None, "";
    }

    /** `handleAddCategory` (lines 230-251). */
    method HandleAddCategory(newId: string, owner: string, stamp: string, writeFails: bool, refetch: FetchOutcome)
      requires Valid()
      modifies this`budgetTable, this`budgetItems, this`newCategory, this`newAmount
      ensures Valid()
      ensures var w := AddDecision(old(newCategory), old(newAmount));
        if w.NoWrite? || writeFails then
          budgetTable == old(budgetTable) && budgetItems == old(budgetItems)
          && newCategory == old(newCategory) && newAmount == old(newAmount)
        else
          && budgetTable == ApplyWrite(old(budgetTable), w, selectedMonth, selectedYear, newId, owner, stamp)
          && budgetItems == (if refetch.budgetFails || refetch.firstQueryFails then old(budgetItems)
                             else FetchedView(refetch.monthQueryFails))
          && newCategory == "" && newAmount == ""
    {
      var w := AddDecision(newCategory, newAmount);
      if w.NoWrite? || writeFails {
        return;
      }
      budgetTable := ApplyWrite(budgetTable, w, selectedMonth, selectedYear, newId, owner, stamp);
      FetchBudgetData(refetch);
      newCategory, newAmount := "", "";
    }
  }
}
