/**
 * The budget-versus-actual view (app/budget/page.tsx): every stored budget line
 * becomes a row carrying its category's spending and `planned - actual`; every
 * category with spending but no line is appended as a synthetic row whose id is
 * `"temp-" + category`; the page's totals are sums over the rows.
 */
module BudgetReconcile {
  import opened Text
  import opened FinancialTypes
  import opened BudgetActuals

  /** `BudgetWithActual`: a budget line with its actual amount and difference. */
  datatype BudgetRow = BudgetRow(
    id: string,
    user_id: string,
    month: int,
    year: int,
    category: string,
    planned_amount: int,
    actual_amount: int,
    difference: int,
    created_at: string,
    updated_at: string)

  /** The id prefix that marks a row with no stored line behind it. */
  const TempPrefix: string := "temp-"

  /** A stored line joined with the dictionary (lines 144-149). */
  function RowFor(b: Budget, amounts: map<string, int>): BudgetRow
  {
    BudgetRow(b.id, b.user_id, b.month, b.year, b.category, b.planned_amount,
              Get(amounts, b.category), b.planned_amount - Get(amounts, b.category),
              b.created_at, b.updated_at)
  }

  /** `(budgetData || []).map(...)`. */
  function MergeRows(items: seq<Budget>, amounts: map<string, int>): (rows: seq<BudgetRow>)
    ensures |rows| == |items|
    ensures forall i :: 0 <= i < |items| ==>
      && rows[i].id == items[i].id && rows[i].category == items[i].category
      && rows[i].planned_amount == items[i].planned_amount
      && rows[i].actual_amount == Get(amounts, items[i].category)
      && rows[i].difference == rows[i].planned_amount - rows[i].actual_amount
  {
    seq(|items|, i requires 0 <= i < |items| => RowFor(items[i], amounts))
  }

  /** The synthetic row pushed for a category with spending but no line (lines 155-166). */
  function SyntheticRow(category: string, amounts: map<string, int>, month: int, year: int): BudgetRow
    requires category in amounts
  {
    BudgetRow(TempPrefix + category, "", month, year, category, 0,
              amounts[category], -amounts[category], "", "")
  }

  /** `rows.find((item) => item.category === category)` succeeds. */
  predicate HasCategory(rows: seq<BudgetRow>, category: string)
  {
    exists i :: 0 <= i < |rows| && rows[i].category == category
  }

  /**
   * The rows the loop of lines 153-168 pushes, given the rows so far and the keys
   * still to visit: each key is looked up among all rows so far, including the
   * ones pushed before it.
   */
  function Unbudgeted(rows: seq<BudgetRow>, amounts: map<string, int>, order: seq<string>, month: int, year: int): seq<BudgetRow>
    requires forall k :: k in order ==> k in amounts
    decreases |order|
  {
    if order == [] then []
    else if HasCategory(rows, order[0]) then Unbudgeted(rows, amounts, order[1..], month, year)
    else
      var r := SyntheticRow(order[0], amounts, month, year);
      [r] + Unbudgeted(rows + [r], amounts, order[1..], month, year)
  }

  /** The loop of lines 153-168: `Object.keys(actualAmounts).forEach(...)` pushing onto the merged rows. */
  method AppendUnbudgeted(rows: seq<BudgetRow>, amounts: map<string, int>, order: seq<string>, month: int, year: int)
    returns (out: seq<BudgetRow>)
    requires forall k :: k in order ==> k in amounts
    ensures out == rows + Unbudgeted(rows, amounts, order, month, year)
  {
    out := rows;
    var i := 0;
    while i < |order|
      invariant 0 <= i <= |order|
      invariant out + Unbudgeted(out, amounts, order[i..], month, year) == rows + Unbudgeted(rows, amounts, order, month, year)
    {
      var category := order[i];
      assert order[i..][1..] == order[i + 1..];
      var found := false;
      var j := 0;
      while j < |out|
        invariant 0 <= j <= |out|
        invariant found <==> exists x :: 0 <= x < j && out[x].category == category
      {
        if out[j].category == category {
          found := true;
        }
        j := j + 1;
      }
      if !found {
        var r := SyntheticRow(category, amounts, month, year);
        assert [r] + Unbudgeted(out + [r], amounts, order[i + 1..], month, year) == Unbudgeted(out, amounts, order[i..], month, year);
        out := out + [r];
      }
      i := i + 1;
    }
  }

  /** The whole view: stored lines first, in store order, then the synthetic rows. */
  function View(items: seq<Budget>, amounts: map<string, int>, order: seq<string>, month: int, year: int): seq<BudgetRow>
    requires forall k :: k in order ==> k in amounts
  {
    var merged := MergeRows(items, amounts);
    merged + Unbudgeted(merged, amounts, order, month, year)
  }

  // ---------------------------------------------------------------------------
  // The synthetic rows, stated without the growing list

  /** The categories of the stored lines. */
  function Categories(items: seq<Budget>): set<string>
  {
    set i | 0 <= i < |items| :: items[i].category
  }

  /** One synthetic row for every key, in key order, that names no category among `rows`. */
  function SyntheticFor(rows: seq<BudgetRow>, amounts: map<string, int>, order: seq<string>, month: int, year: int): seq<BudgetRow>
    requires forall k :: k in order ==> k in amounts
  {
    if order == [] then []
    else
      var rest := SyntheticFor(rows, amounts, order[1..], month, year);
      if HasCategory(rows, order[0]) then rest else [SyntheticRow(order[0], amounts, month, year)] + rest
  }

  /**
   * Because the keys are distinct, looking a key up among the rows pushed so far
   * finds nothing new: the loop adds one row per key that no stored line covers.
   */
  lemma {:induction false} UnbudgetedIsSyntheticFor(rows: seq<BudgetRow>, amounts: map<string, int>, order: seq<string>, month: int, year: int)
    requires forall k :: k in order ==> k in amounts
    requires NoDuplicates(order)
    ensures Unbudgeted(rows, amounts, order, month, year) == SyntheticFor(rows, amounts, order, month, year)
    decreases |order|
  {
    if order != [] {
      var k := order[0];
      assert NoDuplicates(order[1..]);
      if HasCategory(rows, k) {
        UnbudgetedIsSyntheticFor(rows, amounts, order[1..], month, year);
      } else {
        var r := SyntheticRow(k, amounts, month, year);
        UnbudgetedIsSyntheticFor(rows + [r], amounts, order[1..], month, year);
        SyntheticForIgnores(rows, r, amounts, order[1..], month, year);
      }
    }
  }

  /** A row whose category is none of the remaining keys changes nothing in `SyntheticFor`. */
  lemma {:induction false} SyntheticForIgnores(rows: seq<BudgetRow>, r: BudgetRow, amounts: map<string, int>, order: seq<string>, month: int, year: int)
    requires forall k :: k in order ==> k in amounts
    requires r.category !in order
    ensures SyntheticFor(rows + [r], amounts, order, month, year) == SyntheticFor(rows, amounts, order, month, year)
  {
    if order != [] {
      SyntheticForIgnores(rows, r, amounts, order[1..], month, year);
      assert HasCategory(rows + [r], order[0]) == HasCategory(rows, order[0]) by {
        if HasCategory(rows + [r], order[0]) {
          var x :| 0 <= x < |rows + [r]| && (rows + [r])[x].category == order[0];
          assert x < |rows|;
          assert rows[x].category == order[0];
        }
        if HasCategory(rows, order[0]) {
          var x :| 0 <= x < |rows| && rows[x].category == order[0];
          assert (rows + [r])[x].category == order[0];
        }
      }
    }
  }

  /** A merged row exists for a category exactly when a stored line has it. */
  lemma MergedCategories(items: seq<Budget>, amounts: map<string, int>, k: string)
    ensures HasCategory(MergeRows(items, amounts), k) <==> k in Categories(items)
  {
    var rows := MergeRows(items, amounts);
    if k in Categories(items) {
      var i :| 0 <= i < |items| && items[i].category == k;
      assert rows[i].category == k;
    }
  }

  /** A key in order that no row covers gets a synthetic row. */
  lemma {:induction false} SyntheticForCovers(rows: seq<BudgetRow>, amounts: map<string, int>, order: seq<string>, month: int, year: int, k: string)
    requires forall k :: k in order ==> k in amounts
    requires k in order && !HasCategory(rows, k)
    ensures HasCategory(SyntheticFor(rows, amounts, order, month, year), k)
  {
    var s := SyntheticFor(rows, amounts, order, month, year);
    if k == order[0] {
      assert s[0].category == k;
    } else {
      assert k in order[1..];
      SyntheticForCovers(rows, amounts, order[1..], month, year, k);
      var rest := SyntheticFor(rows, amounts, order[1..], month, year);
      var x :| 0 <= x < |rest| && rest[x].category == k;
      if s != rest {
        assert s == [SyntheticRow(order[0], amounts, month, year)] + rest;
        assert s[x + 1].category == k;
      }
    }
  }

  /** What the synthetic part holds: for each key in order that no row covers, its temp row. */
  lemma {:induction false} SyntheticForSpec(rows: seq<BudgetRow>, amounts: map<string, int>, order: seq<string>, month: int, year: int)
    requires forall k :: k in order ==> k in amounts
    ensures forall r :: r in SyntheticFor(rows, amounts, order, month, year) ==>
      r.category in order && !HasCategory(rows, r.category) && r == SyntheticRow(r.category, amounts, month, year)
    ensures forall k :: k in order && !HasCategory(rows, k) ==> HasCategory(SyntheticFor(rows, amounts, order, month, year), k)
  {
    if order != [] {
      SyntheticForSpec(rows, amounts, order[1..], month, year);
    }
    forall k | k in order && !HasCategory(rows, k)
      ensures HasCategory(SyntheticFor(rows, amounts, order, month, year), k)
    {
      SyntheticForCovers(rows, amounts, order, month, year, k);
    }
  }

  // ---------------------------------------------------------------------------
  // Properties of the view

  /** Stored categories are distinct (nothing in the store enforces this). */
  predicate DistinctCategories(items: seq<Budget>)
  {
    forall i, j :: 0 <= i < j < |items| ==> items[i].category != items[j].category
  }

  /** The facts about the dictionary that `View` relies on: its keys, listed once each in `order`. */
  ghost predicate KeysListed(amounts: map<string, int>, order: seq<string>)
  {
    NoDuplicates(order) && forall k :: k in order <==> k in amounts
  }

  /**
   * Row by row: each stored line yields exactly one row, in store order, with its
   * category's spending (0 when none) and `planned - actual`; every later row is
   * the synthetic row of a spent category that no stored line has.
   */
  lemma ViewRows(items: seq<Budget>, amounts: map<string, int>, order: seq<string>, month: int, year: int)
    requires KeysListed(amounts, order)
    ensures var v := View(items, amounts, order, month, year);
      && |v| >= |items|
      && (forall i :: 0 <= i < |items| ==> v[i] == RowFor(items[i], amounts))
      && (forall i :: |items| <= i < |v| ==>
            && v[i].category in amounts && v[i].category !in Categories(items)
            && v[i] == SyntheticRow(v[i].category, amounts, month, year))
  {
    var merged := MergeRows(items, amounts);
    UnbudgetedIsSyntheticFor(merged, amounts, order, month, year);
    SyntheticForSpec(merged, amounts, order, month, year);
    var v := View(items, amounts, order, month, year);
    forall i | |items| <= i < |v|
      ensures v[i].category in amounts && v[i].category !in Categories(items)
      ensures v[i] == SyntheticRow(v[i].category, amounts, month, year)
    {
      var s := SyntheticFor(merged, amounts, order, month, year);
      assert v[i] == s[i - |items|];
      assert v[i] in s;
      MergedCategories(items, amounts, v[i].category);
    }
  }

  /** Every row's difference is its planned amount minus its actual amount. */
  lemma ViewDifferences(items: seq<Budget>, amounts: map<string, int>, order: seq<string>, month: int, year: int)
    requires KeysListed(amounts, order)
    ensures forall r :: r in View(items, amounts, order, month, year) ==> r.difference == r.planned_amount - r.actual_amount
  {
    ViewRows(items, amounts, order, month, year);
  }

  /** No spending is dropped: every category in the dictionary is the category of some row. */
  lemma {:induction false} ViewCoversSpending(items: seq<Budget>, amounts: map<string, int>, order: seq<string>, month: int, year: int, k: string)
    requires KeysListed(amounts, order)
    requires k in amounts
    ensures HasCategory(View(items, amounts, order, month, year), k)
  {
    var merged := MergeRows(items, amounts);
    var v := View(items, amounts, order, month, year);
    UnbudgetedIsSyntheticFor(merged, amounts, order, month, year);
    var s := SyntheticFor(merged, amounts, order, month, year);
    assert v == merged + s;
    if HasCategory(merged, k) {
      var x :| 0 <= x < |merged| && merged[x].category == k;
      assert v[x].category == k;
    } else {
      SyntheticForCovers(merged, amounts, order, month, year, k);
      var x :| 0 <= x < |s| && s[x].category == k;
      assert v[|merged| + x].category == k;
    }
  }

  /**
   * When the stored categories are distinct, so are the categories of all rows:
   * each spent category then appears in exactly one row.
   */
  lemma ViewCategoriesDistinct(items: seq<Budget>, amounts: map<string, int>, order: seq<string>, month: int, year: int)
    requires KeysListed(amounts, order)
    requires DistinctCategories(items)
    ensures var v := View(items, amounts, order, month, year);
      forall i, j :: 0 <= i < j < |v| ==> v[i].category != v[j].category
  {
    var merged := MergeRows(items, amounts);
    var v := View(items, amounts, order, month, year);
    UnbudgetedIsSyntheticFor(merged, amounts, order, month, year);
    var s := SyntheticFor(merged, amounts, order, month, year);
    assert v == merged + s;
    ViewRows(items, amounts, order, month, year);
    forall i, j | 0 <= i < j < |v| ensures v[i].category != v[j].category {
      if j < |items| {
        assert v[i].category == items[i].category && v[j].category == items[j].category;
      } else if i < |items| {
        assert v[i].category == items[i].category;
        assert v[i].category in Categories(items);
      } else {
        assert v[i] == s[i - |items|] && v[j] == s[j - |items|];
        SyntheticDistinct(merged, amounts, order, month, year, i - |items|, j - |items|);
      }
    }
  }

  /** Synthetic rows come from distinct keys, so no two of them share a category. */
  lemma {:induction false} SyntheticDistinct(rows: seq<BudgetRow>, amounts: map<string, int>, order: seq<string>, month: int, year: int, i: int, j: int)
    requires forall k :: k in order ==> k in amounts
    requires NoDuplicates(order)
    requires 0 <= i < j < |SyntheticFor(rows, amounts, order, month, year)|
    ensures SyntheticFor(rows, amounts, order, month, year)[i].category != SyntheticFor(rows, amounts, order, month, year)[j].category
  {
    var rest := SyntheticFor(rows, amounts, order[1..], month, year);
    assert NoDuplicates(order[1..]);
    SyntheticForSpec(rows, amounts, order[1..], month, year);
    if HasCategory(rows, order[0]) {
      SyntheticDistinct(rows, amounts, order[1..], month, year, i, j);
    } else if i == 0 {
      assert rest[j - 1] in rest;
    } else {
      SyntheticDistinct(rows, amounts, order[1..], month, year, i - 1, j - 1);
    }
  }

  // ---------------------------------------------------------------------------
  // Totals (lines 277-285)

  /** `budgetItems.reduce((sum, item) => sum + item.planned_amount, 0)`. */
  function TotalPlanned(rows: seq<BudgetRow>): int
  {
    if rows == [] then 0 else rows[0].planned_amount + TotalPlanned(rows[1..])
  }

  /** `budgetItems.reduce((sum, item) => sum + item.actual_amount, 0)`. */
  function TotalActual(rows: seq<BudgetRow>): int
  {
    if rows == [] then 0 else rows[0].actual_amount + TotalActual(rows[1..])
  }

  /** `totalPlanned - totalActual`. */
  function TotalDifference(rows: seq<BudgetRow>): int
  {
    TotalPlanned(rows) - TotalActual(rows)
  }

  /** The sum of the rows' differences. */
  function SumDifferences(rows: seq<BudgetRow>): int
  {
    if rows == [] then 0 else rows[0].difference + SumDifferences(rows[1..])
  }

  /** When every row keeps `difference == planned - actual`, the total difference is the sum of the row differences. */
  lemma {:induction false} TotalDifferenceIsSum(rows: seq<BudgetRow>)
    requires forall r :: r in rows ==> r.difference == r.planned_amount - r.actual_amount
    ensures TotalDifference(rows) == SumDifferences(rows)
  {
    if rows != [] {
      assert forall r :: r in rows[1..] ==> r in rows;
      TotalDifferenceIsSum(rows[1..]);
    }
  }

  lemma {:induction false} TotalsAppend(a: seq<BudgetRow>, b: seq<BudgetRow>)
    ensures TotalPlanned(a + b) == TotalPlanned(a) + TotalPlanned(b)
    ensures TotalActual(a + b) == TotalActual(a) + TotalActual(b)
  {
    if a != [] {
      assert (a + b)[1..] == a[1..] + b;
      TotalsAppend(a[1..], b);
    } else {
      assert a + b == b;
    }
  }

  /** `Σ planned_amount` over the stored lines. */
  function PlannedOf(items: seq<Budget>): int
  {
    if items == [] then 0 else items[0].planned_amount + PlannedOf(items[1..])
  }

  /** `Σ amounts[k]` over the keys of `order` that are (`inside`) or are not (`!inside`) in `s`. */
  function SumSplit(order: seq<string>, amounts: map<string, int>, s: set<string>, inside: bool): int
    requires forall k :: k in order ==> k in amounts
  {
    if order == [] then 0
    else (if (order[0] in s) == inside then amounts[order[0]] else 0) + SumSplit(order[1..], amounts, s, inside)
  }

  lemma {:induction false} SumSplitWhole(order: seq<string>, amounts: map<string, int>, s: set<string>)
    requires forall k :: k in order ==> k in amounts
    ensures SumSplit(order, amounts, s, true) + SumSplit(order, amounts, s, false) == SumOver(order, amounts)
  {
    if order != [] {
      SumSplitWhole(order[1..], amounts, s);
    }
  }

  lemma {:induction false} SumSplitAdd(order: seq<string>, amounts: map<string, int>, s: set<string>, c: string)
    requires forall k :: k in order ==> k in amounts
    requires NoDuplicates(order)
    requires c !in s
    ensures SumSplit(order, amounts, s + {c}, true) == SumSplit(order, amounts, s, true) + if c in order then amounts[c] else 0
  {
    if order != [] {
      assert NoDuplicates(order[1..]);
      SumSplitAdd(order[1..], amounts, s, c);
      assert order[0] == c ==> c !in order[1..];
    }
  }

  /** The merged rows carry the planned amounts of the stored lines and, with distinct categories, the spending of the keys they cover. */
  lemma {:induction false} MergedTotals(items: seq<Budget>, amounts: map<string, int>, order: seq<string>)
    requires KeysListed(amounts, order)
    requires DistinctCategories(items)
    ensures TotalPlanned(MergeRows(items, amounts)) == PlannedOf(items)
    ensures TotalActual(MergeRows(items, amounts)) == SumSplit(order, amounts, Categories(items), true)
  {
    var rows := MergeRows(items, amounts);
    if items == [] {
      assert Categories(items) == {};
      SumSplitEmpty(order, amounts);
    } else {
      var rest := items[1..];
      assert DistinctCategories(rest);
      MergedTotals(rest, amounts, order);
      assert rows[1..] == MergeRows(rest, amounts);
      var c := items[0].category;
      assert Categories(items) == Categories(rest) + {c} by {
        forall k ensures k in Categories(items) <==> k in Categories(rest) + {c} {
          if k in Categories(items) {
            var i :| 0 <= i < |items| && items[i].category == k;
            if i > 0 { assert rest[i - 1].category == k; }
          }
          if k in Categories(rest) {
            var i :| 0 <= i < |rest| && rest[i].category == k;
            assert items[i + 1].category == k;
          }
        }
      }
      assert c !in Categories(rest) by {
        forall i | 0 <= i < |rest| ensures rest[i].category != c {
          assert rest[i] == items[i + 1];
        }
      }
      SumSplitAdd(order, amounts, Categories(rest), c);
    }
  }

  lemma {:induction false} SumSplitEmpty(order: seq<string>, amounts: map<string, int>)
    requires forall k :: k in order ==> k in amounts
    ensures SumSplit(order, amounts, {}, true) == 0
  {
    if order != [] {
      SumSplitEmpty(order[1..], amounts);
    }
  }

  /** The synthetic rows plan nothing and carry the spending of the keys no stored line covers. */
  lemma {:induction false} SyntheticTotals(items: seq<Budget>, amounts: map<string, int>, order: seq<string>, month: int, year: int)
    requires forall k :: k in order ==> k in amounts
    ensures TotalPlanned(SyntheticFor(MergeRows(items, amounts), amounts, order, month, year)) == 0
    ensures TotalActual(SyntheticFor(MergeRows(items, amounts), amounts, order, month, year)) == SumSplit(order, amounts, Categories(items), false)
  {
    if order != [] {
      SyntheticTotals(items, amounts, order[1..], month, year);
      MergedCategories(items, amounts, order[0]);
    }
  }

  /** The merged rows plan what the stored lines plan, whether or not their categories repeat. */
  lemma {:induction false} MergedPlanned(items: seq<Budget>, amounts: map<string, int>)
    ensures TotalPlanned(MergeRows(items, amounts)) == PlannedOf(items)
  {
    if items != [] {
      assert MergeRows(items, amounts)[1..] == MergeRows(items[1..], amounts);
      MergedPlanned(items[1..], amounts);
    }
  }

  /** The planned total of the view is the stored lines' planned total: synthetic rows plan nothing. */
  lemma ViewPlannedTotal(items: seq<Budget>, amounts: map<string, int>, order: seq<string>, month: int, year: int)
    requires KeysListed(amounts, order)
    ensures TotalPlanned(View(items, amounts, order, month, year)) == PlannedOf(items)
  {
    var merged := MergeRows(items, amounts);
    UnbudgetedIsSyntheticFor(merged, amounts, order, month, year);
    TotalsAppend(merged, SyntheticFor(merged, amounts, order, month, year));
    MergedPlanned(items, amounts);
    SyntheticTotals(items, amounts, order, month, year);
  }

  /**
   * The actual total of the view when the stored categories are distinct: the sum
   * of every entry of the dictionary, so each unit of spending is counted once.
   */
  lemma ViewTotals(items: seq<Budget>, amounts: map<string, int>, order: seq<string>, month: int, year: int)
    requires KeysListed(amounts, order)
    requires DistinctCategories(items)
    ensures TotalActual(View(items, amounts, order, month, year)) == SumOver(order, amounts)
    ensures TotalDifference(View(items, amounts, order, month, year)) == PlannedOf(items) - SumOver(order, amounts)
  {
    var merged := MergeRows(items, amounts);
    UnbudgetedIsSyntheticFor(merged, amounts, order, month, year);
    var s := SyntheticFor(merged, amounts, order, month, year);
    TotalsAppend(merged, s);
    MergedTotals(items, amounts, order);
    SyntheticTotals(items, amounts, order, month, year);
    SumSplitWhole(order, amounts, Categories(items));
    ViewPlannedTotal(items, amounts, order, month, year);
  }

  /** A line whose category is already stored adds nothing to the categories. */
  lemma CategoriesOfRepeat(items: seq<Budget>, b: Budget)
    requires b.category in Categories(items)
    ensures Categories(items + [b]) == Categories(items)
  {
    forall k | k in Categories(items + [b]) ensures k in Categories(items) {
      var i :| 0 <= i < |items + [b]| && (items + [b])[i].category == k;
      if i < |items| { assert items[i].category == k; }
    }
    forall k | k in Categories(items) ensures k in Categories(items + [b]) {
      var i :| 0 <= i < |items| && items[i].category == k;
      assert (items + [b])[i].category == k;
    }
  }

  /**
   * A second line for a stored category, as the view is written: both lines carry
   * that category's whole spending, so the actual total counts it twice.
   */
  lemma DuplicateLineCountsTwice(items: seq<Budget>, b: Budget, amounts: map<string, int>, order: seq<string>, month: int, year: int)
    requires KeysListed(amounts, order)
    requires DistinctCategories(items)
    requires b.category in Categories(items)
    ensures !DistinctCategories(items + [b])
    ensures TotalActual(View(items + [b], amounts, order, month, year)) == SumOver(order, amounts) + Get(amounts, b.category)
  {
    var all := items + [b];
    var i :| 0 <= i < |items| && items[i].category == b.category;
    assert all[i].category == all[|items|].category;
    var merged := MergeRows(items, amounts);
    var merged' := MergeRows(all, amounts);
    assert merged' == merged + [RowFor(b, amounts)];
    UnbudgetedIsSyntheticFor(merged', amounts, order, month, year);
    var s := SyntheticFor(merged', amounts, order, month, year);
    TotalsAppend(merged', s);
    TotalsAppend(merged, [RowFor(b, amounts)]);
    assert TotalActual([RowFor(b, amounts)]) == Get(amounts, b.category) by {
      assert [RowFor(b, amounts)][1..] == [];
    }
    MergedTotals(items, amounts, order);
    SyntheticTotals(all, amounts, order, month, year);
    CategoriesOfRepeat(items, b);
    SumSplitWhole(order, amounts, Categories(items));
  }
}
