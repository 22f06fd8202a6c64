/**
 * The dashboard's cost table: the rows fetched from `/api/costs`, the sort the user
 * last asked for, and the total compared against a budget. Costs are exact integers
 * (cents); the budget is None when its field is empty or is not a number.
 */
module CostTable {
  import opened Schema
  import opened Server

  /** The columns the sort buttons offer. */
  datatype Column = ProviderName | ServiceName | ProjectName | TeamName | Cost | Date

  datatype SortDirection = Asc | Desc

  /** `sortConfig`; the key is None before the first click. */
  datatype SortConfig = SortConfig(key: Option<Column>, direction: SortDirection)

  /** A click on the column already sorted ascending turns it descending; any other click
      sorts ascending. */
  function NextDirection(config: SortConfig, key: Column): (direction: SortDirection)
    ensures direction == Desc <==> config.key == Some(key) && config.direction == Asc
  {
    if config.key == Some(key) && config.direction == Asc then Desc else Asc
  }

  /** Clicking the same column again flips the direction. */
  lemma RepeatedClickAlternates(config: SortConfig, key: Column)
    ensures var d := NextDirection(config, key);
      NextDirection(SortConfig(Some(key), d), key) == (if d == Asc then Desc else Asc)
  {
  }

  /** Lexicographic order on text; it stands for `localeCompare`, and for the calendar
      order of ISO dates, which agrees with it. */
  predicate TextLe(a: string, b: string)
    decreases |a|
  {
    a == [] || (b != [] && (a[0] < b[0] || (a[0] == b[0] && TextLe(a[1..], b[1..]))))
  }

  lemma {:induction false} TextLeTotal(a: string, b: string)
    ensures TextLe(a, b) || TextLe(b, a)
    decreases |a|
  {
    if a != [] && b != [] && a[0] == b[0] {
      TextLeTotal(a[1..], b[1..]);
    }
  }

  lemma {:induction false} TextLeTransitive(a: string, b: string, c: string)
    requires TextLe(a, b) && TextLe(b, c)
    ensures TextLe(a, c)
    decreases |a|
  {
    if a != [] && b != [] && c != [] && a[0] == b[0] && b[0] == c[0] {
      TextLeTransitive(a[1..], b[1..], c[1..]);
    }
  }

  lemma {:induction false} TextLeReflexive(a: string)
    ensures TextLe(a, a)
    decreases |a|
  {
    if a != [] {
      TextLeReflexive(a[1..]);
    }
  }

  /** The comparator for `key`, ascending: numeric on costs, textual otherwise. Equal
      rows may come in either order. */
  predicate KeyLe(key: Column, a: CostView, b: CostView)
    ensures a == b ==> KeyLe(key, a, b)
  {
    TextLeReflexive(a.date);
    TextLeReflexive(a.providerName);
    TextLeReflexive(a.serviceName);
    TextLeReflexive(a.projectName);
    TextLeReflexive(a.teamName);
    match key
    case Cost => a.cost <= b.cost
    case Date => TextLe(a.date, b.date)
    case ProviderName => TextLe(a.providerName, b.providerName)
    case ServiceName => TextLe(a.serviceName, b.serviceName)
    case ProjectName => TextLe(a.projectName, b.projectName)
    case TeamName => TextLe(a.teamName, b.teamName)
  }

  /** `a` may come before `b`: the comparator, with its arguments swapped for Desc. */
  predicate InOrder(key: Column, direction: SortDirection, a: CostView, b: CostView) {
    if direction == Asc then KeyLe(key, a, b) else KeyLe(key, b, a)
  }

  lemma InOrderTotal(key: Column, direction: SortDirection, a: CostView, b: CostView)
    ensures InOrder(key, direction, a, b) || InOrder(key, direction, b, a)
  {
    match key
    case Cost =>
    case Date => TextLeTotal(a.date, b.date);
    case ProviderName => TextLeTotal(a.providerName, b.providerName);
    case ServiceName => TextLeTotal(a.serviceName, b.serviceName);
    case ProjectName => TextLeTotal(a.projectName, b.projectName);
    case TeamName => TextLeTotal(a.teamName, b.teamName);
  }

  lemma InOrderTransitive(key: Column, direction: SortDirection, a: CostView, b: CostView, c: CostView)
    requires InOrder(key, direction, a, b) && InOrder(key, direction, b, c)
    ensures InOrder(key, direction, a, c)
  {
    var (x, z) := if direction == Asc then (a, c) else (c, a);
    match key
    case Cost =>
    case Date => TextLeTransitive(x.date, b.date, z.date);
    case ProviderName => TextLeTransitive(x.providerName, b.providerName, z.providerName);
    case ServiceName => TextLeTransitive(x.serviceName, b.serviceName, z.serviceName);
    case ProjectName => TextLeTransitive(x.projectName, b.projectName, z.projectName);
    case TeamName => TextLeTransitive(x.teamName, b.teamName, z.teamName);
  }

  /** `le` is what a comparator gives a sort: a total, transitive "may come before". */
  ghost predicate TotalPreorder<T(!new)>(le: (T, T) -> bool) {
    && (forall a, b :: le(a, b) || le(b, a))
    && (forall a, b, c {:trigger le(a, b), le(b, c)} :: le(a, b) && le(b, c) ==> le(a, c))
  }

  /** The comparator `handleSort` hands to `sort` for `key` and `direction`: every row
      may stand next to itself, and descending is ascending with the arguments swapped. */
  function Comparator(key: Column, direction: SortDirection): (le: (CostView, CostView) -> bool)
    ensures forall a: CostView :: le(a, a)
    ensures direction == Desc ==> forall a: CostView, b: CostView :: le(a, b) <==> KeyLe(key, b, a)
  {
    (a: CostView, b: CostView) => InOrder(key, direction, a, b)
  }

  lemma ComparatorIsTotalPreorder(key: Column, direction: SortDirection)
    ensures TotalPreorder(Comparator(key, direction))
  {
    var le := Comparator(key, direction);
    forall a: CostView, b: CostView
      ensures le(a, b) || le(b, a)
    {
      InOrderTotal(key, direction, a, b);
    }
    forall a: CostView, b: CostView, c: CostView | le(a, b) && le(b, c)
      ensures le(a, c)
    {
      InOrderTransitive(key, direction, a, b, c);
    }
  }

  predicate Sorted<T>(rows: seq<T>, le: (T, T) -> bool) {
    forall i, j :: 0 <= i < j < |rows| ==> le(rows[i], rows[j])
  }

  /** `x` placed before the first row it may precede. */
  function Insert<T>(x: T, rows: seq<T>, le: (T, T) -> bool): (r: seq<T>)
    ensures multiset(r) == multiset(rows) + multiset{x}
  {
    if rows == [] then [x]
    else if le(x, rows[0]) then [x] + rows
    else
      assert rows == [rows[0]] + rows[1..];
      [rows[0]] + Insert(x, rows[1..], le)
  }

  lemma {:induction false} InsertKeepsSorted<T(!new)>(x: T, rows: seq<T>, le: (T, T) -> bool)
    requires TotalPreorder(le) && Sorted(rows, le)
    ensures Sorted(Insert(x, rows, le), le)
    decreases |rows|
  {
    if rows != [] && !le(x, rows[0]) {
      var rest := Insert(x, rows[1..], le);
      InsertKeepsSorted(x, rows[1..], le);
      forall j | 0 <= j < |rest|
        ensures le(rows[0], rest[j])
      {
        assert rest[j] in multiset(rest);
        if rest[j] != x {
          assert rest[j] in multiset(rows[1..]);
          var k :| 0 <= k < |rows[1..]| && rows[1..][k] == rest[j];
          assert rows[k + 1] == rest[j];
        }
      }
      var r := [rows[0]] + rest;
      forall i, j | 0 <= i < j < |r|
        ensures le(r[i], r[j])
      {
        if i > 0 {
          assert r[i] == rest[i - 1] && r[j] == rest[j - 1];
        }
      }
    }
  }

  /** `[...costs].sort(comparator)`: the same rows, in the comparator's order. */
  function SortRows<T(!new)>(rows: seq<T>, le: (T, T) -> bool): (r: seq<T>)
    requires TotalPreorder(le)
    ensures Sorted(r, le)
    ensures multiset(r) == multiset(rows)
  {
    if rows == [] then []
    else
      assert rows == [rows[0]] + rows[1..];
      var rest := SortRows(rows[1..], le);
      InsertKeepsSorted(rows[0], rest, le);
      Insert(rows[0], rest, le)
  }

  /** Sorted on `cost`, the rows are non-decreasing in cost ascending and non-increasing
      descending. */
  lemma SortedOnCost(rows: seq<CostView>, direction: SortDirection)
    requires Sorted(rows, Comparator(Cost, direction))
    ensures forall i, j :: 0 <= i < j < |rows| ==>
      if direction == Asc then rows[i].cost <= rows[j].cost else rows[i].cost >= rows[j].cost
  {
    var le := Comparator(Cost, direction);
    forall i, j | 0 <= i < j < |rows|
      ensures if direction == Asc then rows[i].cost <= rows[j].cost else rows[i].cost >= rows[j].cost
    {
      assert le(rows[i], rows[j]);
    }
  }

  /** `data.reduce((sum, item) => sum + parseFloat(item.cost), 0)`, with each cost
      already a number of cents, so `parseFloat` is the identity here. */
  function Total(rows: seq<CostView>): (total: int)
    ensures |rows| == 1 ==> total == rows[0].cost
    ensures (forall i :: 0 <= i < |rows| ==> rows[i].cost >= 0) ==> total >= 0
  {
    if rows == [] then 0 else rows[0].cost + Total(rows[1..])
  }

  lemma {:induction false} TotalOfInsert(x: CostView, rows: seq<CostView>, le: (CostView, CostView) -> bool)
    ensures Total(Insert(x, rows, le)) == x.cost + Total(rows)
    decreases |rows|
  {
    if rows != [] && !le(x, rows[0]) {
      TotalOfInsert(x, rows[1..], le);
      var r := Insert(x, rows, le);
      assert r[1..] == Insert(x, rows[1..], le);
    }
  }

  /** Sorting neither adds nor loses cost: the total is unchanged. */
  lemma {:induction false} TotalOfSort(rows: seq<CostView>, le: (CostView, CostView) -> bool)
    requires TotalPreorder(le)
    ensures Total(SortRows(rows, le)) == Total(rows)
    decreases |rows|
  {
    if rows != [] {
      TotalOfSort(rows[1..], le);
      TotalOfInsert(rows[0], SortRows(rows[1..], le), le);
    }
  }

  /** The flag as written: set when a positive budget is at least the total. */
  function OverBudgetAsWritten(budget: Option<int>, total: int): (flag: bool)
    ensures budget.None? || budget.value <= 0 ==> !flag
    ensures budget.Some? && budget.value > 0 ==> (flag <==> budget.value >= total)
  {
    if budget.Some? && budget.value > 0 then budget.value >= total else false
  }

  /** A budget of 100.00 against a total of 50.00 raises the warning that the budget is
      lower than or equal to the total, and a total of 150.00 does not. */
  lemma OverBudgetAsWrittenIsInverted()
    ensures OverBudgetAsWritten(Some(10000), 5000)
    ensures !OverBudgetAsWritten(Some(10000), 15000)
  {
  }

  /** The flag the alert's text describes: a positive budget that is lower than or equal
      to the total. */
  function OverBudget(budget: Option<int>, total: int): (flag: bool)
    ensures flag <==> budget.Some? && budget.value > 0 && budget.value <= total
  {
    budget.Some? && budget.value > 0 && budget.value <= total
  }

  /** The two flags agree only where the budget equals the total, or where no positive
      budget is set. */
  lemma OverBudgetDiffersFromAsWritten(budget: Option<int>, total: int)
    ensures OverBudget(budget, total) == OverBudgetAsWritten(budget, total) <==>
      budget.None? || budget.value <= 0 || budget.value == total
  {
  }

  /** The component's state. */
  class Dashboard {
    var costs: seq<CostView>
    var sortConfig: SortConfig
    var totalCost: int
    var isOverBudget: bool

    constructor ()
      ensures costs == [] && sortConfig == SortConfig(None, Asc) && totalCost == 0 && !isOverBudget
    {
      costs := [];
      sortConfig := SortConfig(None, Asc);
      totalCost := 0;
      isOverBudget := false;
    }

    /** `calculateTotalCost(data)` with the budget in the field at that moment; the flag
        is set by the comparison as written, so the alert shows when a positive budget is
        at least the total. */
    method CalculateTotalCost(data: seq<CostView>, budget: Option<int>)
      modifies this
      ensures totalCost == Total(data) && isOverBudget == OverBudgetAsWritten(budget, Total(data))
      ensures isOverBudget <==> budget.Some? && budget.value > 0 && budget.value >= totalCost
      ensures costs == old(costs) && sortConfig == old(sortConfig)
    {
      totalCost := Total(data);
      isOverBudget := OverBudgetAsWritten(budget, totalCost);
    }

    /** The fetch's success path: the rows are shown and totalled. */
    method Loaded(data: seq<CostView>, budget: Option<int>)
      modifies this
      ensures costs == data && totalCost == Total(data) && isOverBudget == OverBudgetAsWritten(budget, Total(data))
      ensures sortConfig == old(sortConfig)
    {
      costs := data;
      CalculateTotalCost(data, budget);
    }

    /** `handleSort(key)`: the next direction, the rows sorted by it, and the new config. */
    method HandleSort(key: Column)
      modifies this
      ensures sortConfig == SortConfig(Some(key), NextDirection(old(sortConfig), key))
      ensures TotalPreorder(Comparator(key, sortConfig.direction))
      ensures costs == SortRows(old(costs), Comparator(key, sortConfig.direction))
      ensures Sorted(costs, Comparator(key, sortConfig.direction)) && multiset(costs) == multiset(old(costs))
      ensures Total(costs) == Total(old(costs))
      ensures totalCost == old(totalCost) && isOverBudget == old(isOverBudget)
    {
      var direction := NextDirection(sortConfig, key);
      ComparatorIsTotalPreorder(key, direction);
      var sorted := SortRows(costs, Comparator(key, direction));
      TotalOfSort(costs, Comparator(key, direction));
      costs := sorted;
      sortConfig := SortConfig(Some(key), direction);
    }
  }
}
