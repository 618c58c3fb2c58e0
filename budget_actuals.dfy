/**
 * Spending per category for one budget month (app/budget/page.tsx): the month's
 * transactions are selected by comparing their date strings with two
 * `"YYYY-MM-01"` bounds, and every fixed or variable expense adds the absolute
 * value of its amount under its subcategory, or under `"other"` when it has none.
 *
 * A JavaScript object keeps its keys in insertion order, and the page later walks
 * them with `Object.keys`; so the dictionary is modelled as a map together with
 * the order in which its keys were first written.
 */
module BudgetActuals {
  import opened Options
  import opened Text
  import opened FinancialTypes
  import Money

  // ---------------------------------------------------------------------------
  // The month window

  /** `${year}-${String(month).padStart(2, "0")}-01`. */
  function FirstOfMonth(year: nat, month: nat): string
  {
    DecimalString(year) + "-" + PadStart2(DecimalString(month)) + "-01"
  }

  /** The inclusive lower bound of the month's query. */
  function StartDate(year: nat, month: nat): string
  {
    FirstOfMonth(year, month)
  }

  /** The exclusive upper bound: the first of `month + 1`, with no wrap-around into January. */
  function EndDate(year: nat, month: nat): string
  {
    FirstOfMonth(year, month + 1)
  }

  /** In December the upper bound names a thirteenth month. */
  lemma DecemberUpperBound(year: nat)
    ensures EndDate(year, 12) == DecimalString(year) + "-13-01"
  {
    PaddedIsTwoDigits(13);
  }

  /** The query's filter: `.gte("date", start).lt("date", end)`, comparing the strings. */
  predicate InWindow(date: string, year: nat, month: nat)
  {
    !LexLess(date, StartDate(year, month)) && LexLess(date, EndDate(year, month))
  }

  /** The rows of the transaction table the month's query returns, in table order. */
  function WindowQuery(table: seq<Transaction>, year: nat, month: nat): (r: seq<Transaction>)
    ensures |r| <= |table|
    ensures forall t :: t in r <==> t in table && InWindow(t.date, year, month)
  {
    if table == [] then []
    else
      var rest := WindowQuery(table[1..], year, month);
      assert forall t :: t in table <==> t == table[0] || t in table[1..];
      if InWindow(table[0].date, year, month) then [table[0]] + rest else rest
  }

  /** The `"YYYY-MM-DD"` form of a calendar day, as the store returns a date. */
  function IsoDate(year: nat, month: nat, day: nat): string
    requires month < 100 && day < 100
  {
    DecimalString(year) + "-" + TwoDigits(month) + "-" + TwoDigits(day)
  }

  /** Lexicographic order on (year, month, day). */
  predicate DayBefore(y1: int, m1: int, d1: int, y2: int, m2: int, d2: int)
  {
    y1 < y2 || (y1 == y2 && (m1 < m2 || (m1 == m2 && d1 < d2)))
  }

  /** For four-digit years, comparing ISO date strings compares the days they name. */
  lemma IsoDateOrder(y1: nat, m1: nat, d1: nat, y2: nat, m2: nat, d2: nat)
    requires 1000 <= y1 <= 9999 && 1000 <= y2 <= 9999
    requires m1 < 100 && d1 < 100 && m2 < 100 && d2 < 100
    ensures LexLess(IsoDate(y1, m1, d1), IsoDate(y2, m2, d2)) == DayBefore(y1, m1, d1, y2, m2, d2)
  {
    FourDigitYear(y1);
    FourDigitYear(y2);
    var tail1 := "-" + TwoDigits(d1);
    var tail2 := "-" + TwoDigits(d2);
    var md1 := "-" + (TwoDigits(m1) + tail1);
    var md2 := "-" + (TwoDigits(m2) + tail2);
    assert IsoDate(y1, m1, d1) == TwoDigits(y1 / 100) + (TwoDigits(y1 % 100) + md1);
    assert IsoDate(y2, m2, d2) == TwoDigits(y2 / 100) + (TwoDigits(y2 % 100) + md2);
    TwoDigitsLexLess(y1 / 100, y2 / 100, TwoDigits(y1 % 100) + md1, TwoDigits(y2 % 100) + md2);
    TwoDigitsLexLess(y1 % 100, y2 % 100, md1, md2);
    LexLessCommonPrefix("-", TwoDigits(m1) + tail1, TwoDigits(m2) + tail2);
    TwoDigitsLexLess(m1, m2, tail1, tail2);
    LexLessCommonPrefix("-", TwoDigits(d1), TwoDigits(d2));
    TwoDigitsLexLess(d1, d2, [], []);
    assert TwoDigits(d1) + [] == TwoDigits(d1) && TwoDigits(d2) + [] == TwoDigits(d2);
    assert y1 == 100 * (y1 / 100) + y1 % 100 && y2 == 100 * (y2 / 100) + y2 % 100;
  }

  /** The window's bounds are the ISO dates of the first of the month and of the first of the next month number. */
  lemma BoundsAreIsoDates(year: nat, month: nat)
    requires month < 99
    ensures StartDate(year, month) == IsoDate(year, month, 1)
    ensures EndDate(year, month) == IsoDate(year, month + 1, 1)
  {
    PaddedIsTwoDigits(month);
    PaddedIsTwoDigits(month + 1);
    assert "-01" == "-" + TwoDigits(1);
  }

  /**
   * The string window is exactly the calendar month: a well-formed date with a
   * four-digit year falls in the window of (year, month) if and only if it is a
   * day of that month. This holds for December too, whose upper bound
   * `"YYYY-13-01"` still sorts after every December day.
   */
  lemma WindowIsCalendarMonth(ty: nat, tm: nat, td: nat, year: nat, month: nat)
    requires 1000 <= ty <= 9999 && tm < 100 && 1 <= td < 100
    requires 1000 <= year <= 9999 && 1 <= month <= 12
    ensures InWindow(IsoDate(ty, tm, td), year, month) <==> ty == year && tm == month
  {
    BoundsAreIsoDates(year, month);
    IsoDateOrder(ty, tm, td, year, month, 1);
    IsoDateOrder(ty, tm, td, year, month + 1, 1);
  }

  // ---------------------------------------------------------------------------
  // The actuals dictionary

  /** Only fixed and variable expenses count towards a budget category. */
  predicate Contributes(t: Transaction)
  {
    t.category == FixedExpense || t.category == VariableExpense
  }

  /** `transaction.subcategory || "other"`: a missing or empty subcategory falls back to `"other"`. */
  function SpendKey(t: Transaction): (k: string)
    ensures k != ""
  {
    match t.subcategory
    case Some(s) => if s == "" then "other" else s
    case None => "other"
  }

  /** `actualAmounts[k] || 0`. */
  function Get(amounts: map<string, int>, k: string): int
  {
    if k in amounts then amounts[k] else 0
  }

  /** The dictionary after folding `txs` in order, starting from `{}`. */
  function Actuals(txs: seq<Transaction>): map<string, int>
  {
    if txs == [] then map[]
    else
      var m := Actuals(txs[..|txs| - 1]);
      var t := txs[|txs| - 1];
      if Contributes(t) then m[SpendKey(t) := Get(m, SpendKey(t)) + Money.Abs(t.amount)] else m
  }

  /** The order in which the fold first writes each key (what `Object.keys` returns). */
  function KeyOrder(txs: seq<Transaction>): seq<string>
  {
    if txs == [] then []
    else
      var o := KeyOrder(txs[..|txs| - 1]);
      var t := txs[|txs| - 1];
      if Contributes(t) && SpendKey(t) !in Actuals(txs[..|txs| - 1]) then o + [SpendKey(t)] else o
  }

  /**
   * The loop of lines 131-140: the `forEach` over the month's transactions,
   * which does nothing when the query returned no data.
   */
  method ComputeActuals(data: Option<seq<Transaction>>) returns (amounts: map<string, int>, order: seq<string>)
    ensures data.None? ==> amounts == map[] && order == []
    ensures data.Some? ==> amounts == Actuals(data.value) && order == KeyOrder(data.value)
  {
    amounts, order := map[], [];
    if data.Some? {
      var txs := data.value;
      var i := 0;
      while i < |txs|
        invariant 0 <= i <= |txs|
        invariant amounts == Actuals(txs[..i])
        invariant order == KeyOrder(txs[..i])
      {
        var t := txs[i];
        assert txs[..i + 1][..i] == txs[..i];
        if t.category == FixedExpense || t.category == VariableExpense {
          var key := if t.subcategory.Some? && t.subcategory.value != "" then t.subcategory.value else "other";
          if key !in amounts {
            order := order + [key];
          }
          amounts := amounts[key := (if key in amounts then amounts[key] else 0) + Money.Abs(t.amount)];
        }
        i := i + 1;
      }
      assert txs[..|txs|] == txs;
    }
  }

  // ---------------------------------------------------------------------------
  // What the dictionary holds

  /** The spending of category `k`: the sum of `|amount|` over the contributing transactions filed under `k`. */
  function CategorySpend(txs: seq<Transaction>, k: string): int
  {
    if txs == [] then 0
    else
      var t := txs[|txs| - 1];
      CategorySpend(txs[..|txs| - 1], k) + if Contributes(t) && SpendKey(t) == k then Money.Abs(t.amount) else 0
  }

  /** The sum of `|amount|` over every contributing transaction. */
  function ContributingTotal(txs: seq<Transaction>): int
  {
    if txs == [] then 0
    else
      var t := txs[|txs| - 1];
      ContributingTotal(txs[..|txs| - 1]) + if Contributes(t) then Money.Abs(t.amount) else 0
  }

  /**
   * Each entry of the dictionary is that category's spending, a key is present
   * exactly when some fixed or variable expense is filed under it, and no entry
   * is negative.
   */
  lemma {:induction false} ActualsSpec(txs: seq<Transaction>, k: string)
    ensures Get(Actuals(txs), k) == CategorySpend(txs, k) >= 0
    ensures k in Actuals(txs) <==> exists i :: 0 <= i < |txs| && Contributes(txs[i]) && SpendKey(txs[i]) == k
  {
    if txs != [] {
      var p := txs[..|txs| - 1];
      ActualsSpec(p, k);
      forall i | 0 <= i < |p| ensures txs[i] == p[i] { }
    }
  }

  /** Income and debt payments never reach the dictionary, wherever they stand in the list. */
  lemma {:induction false} NonContributingIgnored(before: seq<Transaction>, t: Transaction, after: seq<Transaction>)
    requires !Contributes(t)
    ensures Actuals(before + [t] + after) == Actuals(before + after)
    ensures KeyOrder(before + [t] + after) == KeyOrder(before + after)
  {
    if after == [] {
      assert before + [t] + after == before + [t];
      assert (before + [t])[..|before|] == before;
      assert before + after == before;
    } else {
      var a := after[..|after| - 1];
      NonContributingIgnored(before, t, a);
      assert (before + [t] + after)[..|before + [t] + after| - 1] == before + [t] + a;
      assert (before + after)[..|before + after| - 1] == before + a;
    }
  }

  /** Keys appear once in the key order, and the key order lists exactly the dictionary's keys. */
  predicate NoDuplicates(s: seq<string>)
  {
    forall i, j :: 0 <= i < j < |s| ==> s[i] != s[j]
  }

  lemma {:induction false} KeyOrderSpec(txs: seq<Transaction>)
    ensures NoDuplicates(KeyOrder(txs))
    ensures forall k :: k in KeyOrder(txs) <==> k in Actuals(txs)
  {
    if txs != [] {
      KeyOrderSpec(txs[..|txs| - 1]);
    }
  }

  /** `Σ amounts[k]` over the keys in `order`. */
  function SumOver(order: seq<string>, amounts: map<string, int>): int
    requires forall k :: k in order ==> k in amounts
  {
    if order == [] then 0 else amounts[order[0]] + SumOver(order[1..], amounts)
  }

  lemma {:induction false} SumOverAppend(order: seq<string>, k: string, amounts: map<string, int>)
    requires forall j :: j in order ==> j in amounts
    requires k in amounts
    ensures SumOver(order + [k], amounts) == SumOver(order, amounts) + amounts[k]
  {
    if order != [] {
      assert (order + [k])[1..] == order[1..] + [k];
      SumOverAppend(order[1..], k, amounts);
    }
  }

  lemma {:induction false} SumOverUpdate(order: seq<string>, amounts: map<string, int>, k: string, v: int)
    requires forall j :: j in order ==> j in amounts
    requires NoDuplicates(order)
    ensures SumOver(order, amounts[k := v]) == SumOver(order, amounts) + if k in order then v - Get(amounts, k) else 0
  {
    if order != [] {
      assert NoDuplicates(order[1..]);
      SumOverUpdate(order[1..], amounts, k, v);
      assert order[0] == k ==> k !in order[1..];
    }
  }

  /** The dictionary's entries add up to the total of every fixed and variable expense: no spending is lost or counted twice. */
  lemma {:induction false} ActualsTotal(txs: seq<Transaction>)
    ensures KeyOrderSpecHolds(txs)
    ensures SumOver(KeyOrder(txs), Actuals(txs)) == ContributingTotal(txs)
  {
    KeyOrderSpec(txs);
    if txs != [] {
      var p := txs[..|txs| - 1];
      var t := txs[|txs| - 1];
      ActualsTotal(p);
      KeyOrderSpec(p);
      var m, o := Actuals(p), KeyOrder(p);
      if Contributes(t) {
        var k := SpendKey(t);
        var m' := m[k := Get(m, k) + Money.Abs(t.amount)];
        SumOverUpdate(o, m, k, Get(m, k) + Money.Abs(t.amount));
        if k !in m {
          SumOverAppend(o, k, m');
        }
      }
    }
  }

  /** The facts of `KeyOrderSpec`, as one predicate so that they can travel in a contract. */
  ghost predicate KeyOrderSpecHolds(txs: seq<Transaction>)
  {
    NoDuplicates(KeyOrder(txs)) && forall k :: k in KeyOrder(txs) <==> k in Actuals(txs)
  }

  /** The category of a budget line linked to a debt. */
  function DebtLineCategory(debtName: string): string
  {
    "Dívida: " + debtName
  }

  /**
   * A debt-linked budget line only ever sees fixed or variable expenses filed
   * under its exact label; debt payments, whose subcategory is the bare debt
   * name, never reach it.
   */
  lemma DebtLineActual(txs: seq<Transaction>, debtName: string)
    requires forall i :: 0 <= i < |txs| && Contributes(txs[i]) ==> SpendKey(txs[i]) != DebtLineCategory(debtName)
    ensures Get(Actuals(txs), DebtLineCategory(debtName)) == 0
  {
    ActualsSpec(txs, DebtLineCategory(debtName));
  }
}
