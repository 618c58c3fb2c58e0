/**
 * The transactions page (app/transactions/page.tsx): the filtered list, the
 * form that creates or edits a transaction, and the handlers that change the
 * form. The transaction table is a sequence; store failures are parameters, and
 * the id and timestamps the store assigns to a new row are given.
 */
module TransactionsPage {
  import opened Options
  import opened Text
  import opened FinancialTypes
  import Money

  // ---------------------------------------------------------------------------
  // The list filter

  /** Lines 228-233: the category test unless the filter is `"all"`, then the date-prefix test unless the date is empty. */
  predicate PassesFilter(t: Transaction, categoryFilter: string, dateFilter: string)
  {
    && (categoryFilter == "all" || CategoryName(t.category) == categoryFilter)
    && (dateFilter == "" || StartsWith(t.date, dateFilter))
  }

  /** `filteredTransactions` (lines 227-235). */
  function FilterTransactions(txs: seq<Transaction>, categoryFilter: string, dateFilter: string): (r: seq<Transaction>)
    ensures |r| <= |txs|
    ensures forall t :: t in r <==> t in txs && PassesFilter(t, categoryFilter, dateFilter)
  {
    if txs == [] then []
    else
      var rest := FilterTransactions(txs[1..], categoryFilter, dateFilter);
      assert forall t :: t in txs <==> t == txs[0] || t in txs[1..];
      if PassesFilter(txs[0], categoryFilter, dateFilter) then [txs[0]] + rest else rest
  }

  /** `r` is `s` with some elements removed, the rest kept in order. */
  predicate IsSubsequence<T(==)>(r: seq<T>, s: seq<T>)
  {
    if r == [] then true
    else if s == [] then false
    else if r[0] == s[0] then IsSubsequence(r[1..], s[1..])
    else IsSubsequence(r, s[1..])
  }

  /** The filter keeps the list's order and neither adds nor alters a transaction. */
  lemma {:induction false} FilterIsSubsequence(txs: seq<Transaction>, categoryFilter: string, dateFilter: string)
    ensures IsSubsequence(FilterTransactions(txs, categoryFilter, dateFilter), txs)
  {
    if txs != [] {
      FilterIsSubsequence(txs[1..], categoryFilter, dateFilter);
      var rest := FilterTransactions(txs[1..], categoryFilter, dateFilter);
      if !PassesFilter(txs[0], categoryFilter, dateFilter) && rest != [] {
        SubsequenceDropFront(rest, txs);
      }
    }
  }

  /** A subsequence of the tail is a subsequence of the whole. */
  lemma {:induction false} SubsequenceDropFront<T>(r: seq<T>, s: seq<T>)
    requires s != [] && IsSubsequence(r, s[1..])
    ensures IsSubsequence(r, s)
    decreases |s|
  {
    if r != [] && r[0] == s[0] {
      SubsequenceOfTailDropsHead(r, s[1..]);
      SubsequenceDropFront(r[1..], s[1..]);
    }
  }

  /** Once the head of a non-empty subsequence is matched, the rest lies in the tail. */
  lemma {:induction false} SubsequenceOfTailDropsHead<T>(r: seq<T>, s: seq<T>)
    requires r != [] && IsSubsequence(r, s)
    ensures s != [] && IsSubsequence(r[1..], s[1..])
    decreases |s|
  {
    if r[0] != s[0] {
      SubsequenceOfTailDropsHead(r, s[1..]);
      SubsequenceDropFront(r[1..], s[1..]);
    }
  }

  /** The default filters, category `"all"` and no date, show every transaction. */
  lemma {:induction false} NoFilterKeepsAll(txs: seq<Transaction>)
    ensures FilterTransactions(txs, "all", "") == txs
  {
    if txs != [] {
      NoFilterKeepsAll(txs[1..]);
    }
  }

  /** A category filter other than `"all"` keeps only that category; a date filter keeps only dates that start with it. */
  lemma FilterNarrows(txs: seq<Transaction>, categoryFilter: string, dateFilter: string, t: Transaction)
    requires t in FilterTransactions(txs, categoryFilter, dateFilter)
    ensures categoryFilter != "all" ==> CategoryName(t.category) == categoryFilter
    ensures dateFilter != "" ==> StartsWith(t.date, dateFilter)
  {
  }

  // ---------------------------------------------------------------------------
  // The form

  /** `formData`: every field is the text of an input, except the category. */
  datatype FormData = FormData(
    date: string,
    description: string,
    category: Category,
    subcategory: string,
    amount: string,
    account_source: string,
    debt_id: string)

  /** The initial form and the one `resetForm` restores. */
  const DefaultForm := FormData("", "", Income, "", "", "", "")

  /** `s || null`. */
  function EmptyToNull(s: string): (r: Option<string>)
    ensures r.None? <==> s == ""
    ensures r.Some? ==> r.value == s
  {
    if s == "" then None else Some(s)
  }

  /** `o || ""`. */
  function NullToEmpty(o: Option<string>): (r: string)
    ensures r == "" <==> o.None? || o == Some("")
  {
    if o.Some? then o.value else ""
  }

  /** The record sent to the store; an amount that is `NaN` travels as `null` and is `None` here. */
  datatype TransactionInput = TransactionInput(
    date: string,
    description: string,
    category: Category,
    subcategory: Option<string>,
    amount: Option<int>,
    account_source: Option<string>,
    debt_id: Option<string>)

  /** `transactionData` (lines 113-121). */
  function BuildRecord(form: FormData): TransactionInput
  {
    TransactionInput(form.date, form.description, form.category, EmptyToNull(form.subcategory),
                     Money.Parse(form.amount), EmptyToNull(form.account_source), EmptyToNull(form.debt_id))
  }

  /** The form `handleEdit` loads (lines 148-156): the amount's absolute value, absent fields as empty text. */
  function FormFromTransaction(t: Transaction): FormData
  {
    FormData(t.date, t.description, t.category, NullToEmpty(t.subcategory), Money.Format(Money.Abs(t.amount)),
             NullToEmpty(t.account_source), NullToEmpty(t.debt_id))
  }

  /** An optional text field after a trip through an input: an empty text becomes absent. */
  function Blanked(o: Option<string>): Option<string>
  {
    if o == Some("") then None else o
  }

  /**
   * Submitting a transaction's edit form unchanged sends its own fields back,
   * except that the amount loses its sign and empty optional texts become null.
   */
  lemma EditResubmit(t: Transaction)
    ensures BuildRecord(FormFromTransaction(t)) ==
      TransactionInput(t.date, t.description, t.category, Blanked(t.subcategory), Some(Money.Abs(t.amount)),
                       Blanked(t.account_source), Blanked(t.debt_id))
  {
    Money.ParseFormat(Money.Abs(t.amount));
  }

  /** The store's `insert`: the new row takes the given id, owner and timestamps. */
  function InsertRow(table: seq<Transaction>, rec: TransactionInput, amount: int, newId: string, owner: string, stamp: string): seq<Transaction>
  {
    table + [Transaction(newId, owner, rec.date, rec.description, rec.category, rec.subcategory, amount,
                         rec.account_source, rec.debt_id, stamp, stamp)]
  }

  /** The store's `update(...).eq("id", id)`: the record's fields replace those of every row with that id. */
  function UpdateRows(table: seq<Transaction>, id: string, rec: TransactionInput, amount: int): (r: seq<Transaction>)
    ensures |r| == |table|
    ensures forall i :: 0 <= i < |table| && table[i].id != id ==> r[i] == table[i]
    ensures forall i :: 0 <= i < |table| && table[i].id == id ==>
      && r[i].id == id && r[i].user_id == table[i].user_id
      && r[i].created_at == table[i].created_at && r[i].updated_at == table[i].updated_at
      && r[i].date == rec.date && r[i].description == rec.description && r[i].category == rec.category
      && r[i].subcategory == rec.subcategory && r[i].account_source == rec.account_source
      && r[i].debt_id == rec.debt_id && r[i].amount == amount
  {
    seq(|table|, i requires 0 <= i < |table| =>
      if table[i].id == id then
        table[i].(date := rec.date, description := rec.description, category := rec.category,
                  subcategory := rec.subcategory, amount := amount, account_source := rec.account_source,
                  debt_id := rec.debt_id)
      else table[i])
  }

  /** The store's `delete().eq("id", id)`, in table order. */
  function DeleteRows(table: seq<Transaction>, id: string): (r: seq<Transaction>)
    ensures |r| <= |table|
    ensures forall t :: t in r <==> t in table && t.id != id
  {
    if table == [] then []
    else
      var rest := DeleteRows(table[1..], id);
      assert forall t :: t in table <==> t == table[0] || t in table[1..];
      if table[0].id == id then rest else [table[0]] + rest
  }

  /**
   * Re-saving an unchanged edit of a negative transaction stores its absolute
   * value: the row keeps its id, owner and timestamps and every other field, and
   * only the sign of the amount (and any empty optional text) changes.
   */
  lemma ResaveStoresAbsoluteValue(table: seq<Transaction>, t: Transaction, i: nat)
    requires i < |table| && table[i] == t
    ensures var r := UpdateRows(table, t.id, BuildRecord(FormFromTransaction(t)), Money.Abs(t.amount));
      && r[i] == t.(amount := Money.Abs(t.amount), subcategory := Blanked(t.subcategory),
                    account_source := Blanked(t.account_source), debt_id := Blanked(t.debt_id))
      && (t.amount < 0 ==> r[i].amount == -t.amount)
      && forall j :: 0 <= j < |table| && table[j].id != t.id ==> r[j] == table[j]
  {
    EditResubmit(t);
  }

  /** `debts.find((d) => d.id === value)?.name || ""`. */
  function DebtName(debts: seq<Debt>, id: string): (r: string)
    ensures r != "" ==> exists d :: d in debts && d.id == id && d.name == r
    ensures (forall d :: d in debts ==> d.id != id) ==> r == ""
    ensures forall k :: 0 <= k < |debts| && debts[k].id == id && (forall j :: 0 <= j < k ==> debts[j].id != id) ==>
      r == debts[k].name
  {
    if debts == [] then ""
    else if debts[0].id == id then debts[0].name
    else
      var r := DebtName(debts[1..], id);
      assert forall k :: 1 <= k < |debts| ==> debts[k] == debts[1..][k - 1];
      r
  }

  // ---------------------------------------------------------------------------
  // The page

  class TransactionsPageState {
    var table: seq<Transaction>
    var transactions: seq<Transaction>
    var debts: seq<Debt>
    var form: FormData
    var editing: Option<Transaction>
    var dialogOpen: bool
    var categoryFilter: string

    /** The page after its first load: the listed transactions and active debts come from the store. */
    constructor (stored: seq<Transaction>, activeDebts: seq<Debt>)
      ensures table == stored && transactions == stored && debts == activeDebts
      ensures form == DefaultForm && editing == None && !dialogOpen && categoryFilter == "all"
    {
      table, transactions, debts := stored, stored, activeDebts;
      form, editing, dialogOpen, categoryFilter := DefaultForm, None, false, "all";
    }

    /** The list shown: the month filter input is bound to the form's own `date` field. */
    function Filtered(): seq<Transaction>
      reads this
    {
      FilterTransactions(transactions, categoryFilter, form.date)
    }

    /**
     * `handleEdit` (lines 146-158). Because the month filter shares the form's
     * `date`, loading a transaction narrows the list to the dates starting with its date.
     */
    method HandleEdit(t: Transaction)
      modifies this`editing, this`form, this`dialogOpen
      ensures editing == Some(t) && form == FormFromTransaction(t) && dialogOpen
      ensures Filtered() == FilterTransactions(transactions, categoryFilter, t.date)
    {
      editing := Some(t);
      form := FormFromTransaction(t);
      dialogOpen := true;
    }

    /** `resetForm` (lines 176-187): it also clears the list's month filter. */
    method ResetForm()
      modifies this`form, this`editing
      ensures form == DefaultForm && editing == None
      ensures Filtered() == FilterTransactions(transactions, categoryFilter, "")
    {
      form := DefaultForm;
      editing := None;
    }

    /** The category select (lines 315-321): the subcategory and the debt are cleared. */
    method SelectCategory(c: Category)
      modifies this`form
      ensures form == old(form).(category := c, subcategory := "", debt_id := "")
    {
      form := form.(category := c, subcategory := "", debt_id := "");
    }

    /** The debt select (lines 346-354): the debt's name becomes the subcategory, or `""` when it is not listed. */
    method SelectDebt(id: string)
      modifies this`form
      ensures form == old(form).(debt_id := id, subcategory := DebtName(debts, id))
    {
      form := form.(debt_id := id, subcategory := DebtName(debts, id));
    }

    /** The category filter select (line 431). */
    method SetCategoryFilter(value: string)
      modifies this`categoryFilter
      ensures categoryFilter == value
    {
      categoryFilter := value;
    }

    /**
     * `handleSubmit` (lines 109-144). A `NaN` amount reaches the store as `null`
     * and the required column refuses it; a refused or failed write changes
     * nothing. Otherwise the table takes the write, the list is fetched again
     * unless that read fails, and the form is reset and the dialog closed.
     */
    method HandleSubmit(newId: string, owner: string, stamp: string, writeFails: bool, refetchFails: bool)
      modifies this`table, this`transactions, this`form, this`editing, this`dialogOpen
      ensures var rec := BuildRecord(old(form));
        if rec.amount.None? || writeFails then
          table == old(table) && transactions == old(transactions) && form == old(form)
          && editing == old(editing) && dialogOpen == old(dialogOpen)
        else
          && table == (if old(editing).Some? then UpdateRows(old(table), old(editing).value.id, rec, rec.amount.value)
                       else InsertRow(old(table), rec, rec.amount.value, newId, owner, stamp))
          && transactions == (if refetchFails then old(transactions) else table)
          && form == DefaultForm && editing == None && !dialogOpen
    {
      var rec := BuildRecord(form);
      if rec.amount.None? || writeFails {
        return;
      }
      if editing.Some? {
        table := UpdateRows(table, editing.value.id, rec, rec.amount.value);
      } else {
        table := InsertRow(table, rec, rec.amount.value, newId, owner, stamp);
      }
      if !refetchFails {
        transactions := table;
      }
      ResetForm();
      dialogOpen := false;
    }

    /** `handleDelete` (lines 160-174): nothing happens unless the user confirms and the delete succeeds. */
    method HandleDelete(id: string, confirmed: bool, deleteFails: bool, refetchFails: bool)
      modifies this`table, this`transactions
      ensures if !confirmed || deleteFails then table == old(table) && transactions == old(transactions)
              else table == DeleteRows(old(table), id) && transactions == (if refetchFails then old(transactions) else table)
    {
      if !confirmed || deleteFails {
        return;
      }
      table := DeleteRows(table, id);
      if !refetchFails {
        transactions := table;
      }
    }
  }
}
