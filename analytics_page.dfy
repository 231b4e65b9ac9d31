/**
 * The analytics page's `loadAnalyticsData`: it awaits the repository's metrics, compliance trends,
 * violation trends and county statistics in turn, folds the monthly category counts into one
 * total per category, turns the totals into rounded percentages ordered by count, and keeps the
 * ten first counties. Each repository call is an input saying what it returned or that it threw.
 */
module AnalyticsPage {
  import opened Wrappers
  import opened OrderedMap
  import opened AnalyticsRepo

  // ---------------------------------------------------------------------------------------------
  // The category totals: the nested `forEach` over months and their categories
  // ---------------------------------------------------------------------------------------------

  /** `categoryMap.set(category, (categoryMap.get(category) || 0) + count)`. */
  function AddEntry(acc: seq<(string, int)>, e: (string, int)): seq<(string, int)> {
    Put(acc, e.0, Get(acc, e.0).GetOr(0) + e.1)
  }

  /** The inner `forEach`, over one month's categories in turn. */
  function AddEntries(acc: seq<(string, int)>, cats: seq<(string, int)>): seq<(string, int)>
    decreases |cats|
  {
    if cats == [] then acc else AddEntries(AddEntry(acc, cats[0]), cats[1..])
  }

  /** The outer `forEach`, over the months in turn. */
  function Tally(acc: seq<(string, int)>, trends: seq<MonthTrend>): seq<(string, int)>
    decreases |trends|
  {
    if trends == [] then acc else Tally(AddEntries(acc, trends[0].categories), trends[1..])
  }

  /** The `categoryMap` the two loops build from an empty map. */
  function CategoryTotals(trends: seq<MonthTrend>): seq<(string, int)> {
    Tally([], trends)
  }

  /** The nested loops that fill `categoryMap`. */
  method TallyCategories(trends: seq<MonthTrend>) returns (categoryMap: seq<(string, int)>)
    ensures categoryMap == CategoryTotals(trends)
  {
    categoryMap := [];
    var i := 0;
    while i < |trends|
      invariant 0 <= i <= |trends|
      invariant Tally(categoryMap, trends[i..]) == CategoryTotals(trends)
    {
      var cats := trends[i].categories;
      assert trends[i..][1..] == trends[i + 1..];
      var j := 0;
      while j < |cats|
        invariant 0 <= j <= |cats|
        invariant Tally(AddEntries(categoryMap, cats[j..]), trends[i + 1..]) == CategoryTotals(trends)
      {
        assert cats[j..][1..] == cats[j + 1..];
        categoryMap := AddEntry(categoryMap, cats[j]);
        j := j + 1;
      }
      i := i + 1;
    }
  }

  /** The sum of the counts one month lists under category `c`. */
  function EntrySum(cats: seq<(string, int)>, c: string): int {
    if cats == [] then 0 else (if cats[0].0 == c then cats[0].1 else 0) + EntrySum(cats[1..], c)
  }

  /** The sum over all months of the counts listed under category `c`. */
  function MonthsSum(trends: seq<MonthTrend>, c: string): int {
    if trends == [] then 0 else EntrySum(trends[0].categories, c) + MonthsSum(trends[1..], c)
  }

  /** Whether some month lists category `c`. */
  predicate Mentioned(trends: seq<MonthTrend>, c: string) {
    trends != [] && (c in Keys(trends[0].categories) || Mentioned(trends[1..], c))
  }

  lemma {:induction false} AddEntriesGet(acc: seq<(string, int)>, cats: seq<(string, int)>, c: string)
    ensures Get(AddEntries(acc, cats), c).GetOr(0) == Get(acc, c).GetOr(0) + EntrySum(cats, c)
    decreases |cats|
  {
    if cats != [] {
      AddEntriesGet(AddEntry(acc, cats[0]), cats[1..], c);
      GetPut(acc, cats[0].0, Get(acc, cats[0].0).GetOr(0) + cats[0].1, c);
    }
  }

  lemma {:induction false} AddEntriesKeys(acc: seq<(string, int)>, cats: seq<(string, int)>, c: string)
    ensures c in Keys(AddEntries(acc, cats)) <==> c in Keys(acc) || c in Keys(cats)
    decreases |cats|
  {
    if cats != [] {
      AddEntriesKeys(AddEntry(acc, cats[0]), cats[1..], c);
      PutKeys(acc, cats[0].0, Get(acc, cats[0].0).GetOr(0) + cats[0].1);
      assert Keys(cats) == [cats[0].0] + Keys(cats[1..]);
    }
  }

  lemma {:induction false} AddEntriesDistinct(acc: seq<(string, int)>, cats: seq<(string, int)>)
    requires DistinctKeys(acc)
    ensures DistinctKeys(AddEntries(acc, cats))
    decreases |cats|
  {
    if cats != [] {
      PutKeepsDistinct(acc, cats[0].0, Get(acc, cats[0].0).GetOr(0) + cats[0].1);
      AddEntriesDistinct(AddEntry(acc, cats[0]), cats[1..]);
    }
  }

  /** Folding one month in adds the month's counts to the running total. */
  lemma {:induction false} AddEntriesTotal(acc: seq<(string, int)>, cats: seq<(string, int)>)
    requires DistinctKeys(acc)
    ensures SumOf(AddEntries(acc, cats), Count) == SumOf(acc, Count) + MonthTotal(cats)
    decreases |cats|
  {
    if cats != [] {
      var e := cats[0];
      SumOfPut(acc, e.0, Get(acc, e.0).GetOr(0) + e.1, Count);
      PutKeepsDistinct(acc, e.0, Get(acc, e.0).GetOr(0) + e.1);
      AddEntriesTotal(AddEntry(acc, e), cats[1..]);
      GetFound(acc, e.0);
    }
  }

  lemma {:induction false} TallyGet(acc: seq<(string, int)>, trends: seq<MonthTrend>, c: string)
    ensures Get(Tally(acc, trends), c).GetOr(0) == Get(acc, c).GetOr(0) + MonthsSum(trends, c)
    decreases |trends|
  {
    if trends != [] {
      AddEntriesGet(acc, trends[0].categories, c);
      TallyGet(AddEntries(acc, trends[0].categories), trends[1..], c);
    }
  }

  lemma {:induction false} TallyKeys(acc: seq<(string, int)>, trends: seq<MonthTrend>, c: string)
    ensures c in Keys(Tally(acc, trends)) <==> c in Keys(acc) || Mentioned(trends, c)
    decreases |trends|
  {
    if trends != [] {
      AddEntriesKeys(acc, trends[0].categories, c);
      TallyKeys(AddEntries(acc, trends[0].categories), trends[1..], c);
    }
  }

  lemma {:induction false} TallyDistinct(acc: seq<(string, int)>, trends: seq<MonthTrend>)
    requires DistinctKeys(acc)
    ensures DistinctKeys(Tally(acc, trends))
    decreases |trends|
  {
    if trends != [] {
      AddEntriesDistinct(acc, trends[0].categories);
      TallyDistinct(AddEntries(acc, trends[0].categories), trends[1..]);
    }
  }

  /** The total over all months of all their counts. */
  function MonthsTotal(trends: seq<MonthTrend>): int {
    if trends == [] then 0 else MonthTotal(trends[0].categories) + MonthsTotal(trends[1..])
  }

  lemma {:induction false} TallyTotal(acc: seq<(string, int)>, trends: seq<MonthTrend>)
    requires DistinctKeys(acc)
    ensures SumOf(Tally(acc, trends), Count) == SumOf(acc, Count) + MonthsTotal(trends)
    decreases |trends|
  {
    if trends != [] {
      AddEntriesTotal(acc, trends[0].categories);
      AddEntriesDistinct(acc, trends[0].categories);
      TallyTotal(AddEntries(acc, trends[0].categories), trends[1..]);
    }
  }

  /**
   * Each category's count is the sum of its counts over every month, a category has an entry
   * exactly when some month lists it, and no category has two entries.
   */
  lemma CategoryTotalsMeaning(trends: seq<MonthTrend>, c: string)
    ensures Get(CategoryTotals(trends), c).GetOr(0) == MonthsSum(trends, c)
    ensures c in Keys(CategoryTotals(trends)) <==> Mentioned(trends, c)
    ensures DistinctKeys(CategoryTotals(trends))
  {
    TallyGet([], trends, c);
    TallyKeys([], trends, c);
    TallyDistinct([], trends);
  }

  /** `totalViolations`: the sum of the values of `categoryMap`. */
  function TotalViolations(categoryMap: seq<(string, int)>): int {
    SumOf(categoryMap, Count)
  }

  /** The total of the category counts is the total of all counts of all months. */
  lemma TotalIsAllCounts(trends: seq<MonthTrend>)
    ensures TotalViolations(CategoryTotals(trends)) == MonthsTotal(trends)
  {
    TallyTotal([], trends);
  }

  lemma {:induction false} MonthsTotalOfTrends(t: Trends)
    ensures MonthsTotal(AsMonthTrends(t)) == SumOf(t, MonthTotal)
  {
    if t != [] {
      assert AsMonthTrends(t)[1..] == AsMonthTrends(t[1..]);
      MonthsTotalOfTrends(t[1..]);
    }
  }

  /**
   * Over the repository's trend list for some violation rows, the page's total is the number of
   * those rows that have a begin date.
   */
  lemma TotalOfRepositoryTrends(rows: seq<TrendRow>)
    ensures TotalViolations(CategoryTotals(AsMonthTrends(TrendsOf(rows)))) == Dated(rows)
  {
    TotalIsAllCounts(AsMonthTrends(TrendsOf(rows)));
    MonthsTotalOfTrends(TrendsOf(rows));
    TrendTotal(rows);
  }

  // ---------------------------------------------------------------------------------------------
  // Percentages and ordering
  // ---------------------------------------------------------------------------------------------

  /**
   * `totalViolations > 0 ? Math.round((count / totalViolations) * 100) : 0`, in exact arithmetic:
   * the integer nearest to `100 * count / total`, halves rounded up.
   */
  function Percentage(count: int, total: int): (p: int)
    ensures total <= 0 ==> p == 0
    ensures total > 0 ==> 2 * total * p <= 200 * count + total < 2 * total * (p + 1)
  {
    if total > 0 then (200 * count + total) / (2 * total) else 0
  }

  /** A share of a positive total is a percentage between 0 and 100. */
  lemma PercentageBounds(count: int, total: int)
    requires 0 <= count <= total
    ensures 0 <= Percentage(count, total) <= 100
  {
    if total > 0 {
      var p := Percentage(count, total);
      if p > 100 {
        ScaleMonotone(2 * total, 101, p);
      }
      if p < 0 {
        ScaleMonotone(2 * total, p + 1, 0);
      }
    }
  }

  lemma ScaleMonotone(k: int, a: int, b: int)
    requires k >= 0 && a <= b
    ensures k * a <= k * b
  {
  }

  /** An entry of the category list. */
  datatype ViolationCategory = ViolationCategory(category: string, count: int, percentage: int)

  function CategoryCount(v: ViolationCategory): int {
    v.count
  }

  /** `Array.from(categoryMap.entries()).map(...)`, before sorting. */
  function CategoryEntries(categoryMap: seq<(string, int)>, total: int): (r: seq<ViolationCategory>)
    ensures |r| == |categoryMap|
    ensures forall i :: 0 <= i < |r| ==>
      r[i] == ViolationCategory(categoryMap[i].0, categoryMap[i].1, Percentage(categoryMap[i].1, total))
  {
    if categoryMap == [] then []
    else [ViolationCategory(categoryMap[0].0, categoryMap[0].1, Percentage(categoryMap[0].1, total))]
         + CategoryEntries(categoryMap[1..], total)
  }

  /** `categories`: the entries with their percentages, by count descending. */
  function CategoryList(categoryMap: seq<(string, int)>): (r: seq<ViolationCategory>)
    ensures SortedDesc(r, CategoryCount)
    ensures multiset(r) == multiset(CategoryEntries(categoryMap, TotalViolations(categoryMap)))
  {
    SortDesc(CategoryEntries(categoryMap, TotalViolations(categoryMap)), CategoryCount)
  }

  /**
   * The list has one entry per entry of the map: every listed entry is a category of the map with
   * its count and percentage, and every category of the map is listed.
   */
  lemma CategoryListEntries(categoryMap: seq<(string, int)>, v: ViolationCategory)
    requires DistinctKeys(categoryMap)
    ensures |CategoryList(categoryMap)| == |categoryMap|
    ensures v in CategoryList(categoryMap) <==>
      Get(categoryMap, v.category) == Some(v.count)
      && v.percentage == Percentage(v.count, TotalViolations(categoryMap))
  {
    var entries := CategoryEntries(categoryMap, TotalViolations(categoryMap));
    var r := CategoryList(categoryMap);
    assert |r| == |multiset(r)| == |multiset(entries)| == |entries|;
    assert v in r <==> v in entries by {
      assert v in r <==> v in multiset(r);
      assert v in entries <==> v in multiset(entries);
    }
    if v in entries {
      var i :| 0 <= i < |entries| && entries[i] == v;
      assert categoryMap[i] in categoryMap;
      GetEntry(categoryMap, v.category, v.count);
    }
    if Get(categoryMap, v.category) == Some(v.count) && v.percentage == Percentage(v.count, TotalViolations(categoryMap)) {
      GetFound(categoryMap, v.category);
      var i :| 0 <= i < |categoryMap| && categoryMap[i] == (v.category, v.count);
      assert entries[i] == v;
    }
  }

  /**
   * When every category count is non-negative, every percentage lies between 0 and 100.
   */
  lemma CategoryPercentagesBounded(categoryMap: seq<(string, int)>, v: ViolationCategory)
    requires forall i :: 0 <= i < |categoryMap| ==> categoryMap[i].1 >= 0
    requires v in CategoryList(categoryMap)
    ensures 0 <= v.percentage <= 100
  {
    var entries := CategoryEntries(categoryMap, TotalViolations(categoryMap));
    assert v in entries by {
      assert v in multiset(CategoryList(categoryMap));
    }
    var i :| 0 <= i < |entries| && entries[i] == v;
    SumOfNonNegative(categoryMap, Count);
    assert Count(categoryMap[i].1) <= SumOf(categoryMap, Count);
    PercentageBounds(v.count, TotalViolations(categoryMap));
  }

  /** `complianceTrends.slice(-6)`: the trend rows the Trends tab shows. */
  function ShownTrends<T>(trends: seq<T>): (r: seq<T>)
    ensures |r| <= 6 && |r| == if |trends| < 6 then |trends| else 6
    ensures trends == trends[..|trends| - |r|] + r
  {
    Last(trends, 6)
  }

  // ---------------------------------------------------------------------------------------------
  // The page's state and `loadAnalyticsData`
  // ---------------------------------------------------------------------------------------------

  /** What `getSystemPerformanceMetrics` returned, as the page stores it. */
  datatype SystemStats = SystemStats(totalSystems: int, activeSystems: int, systemsWithViolations: int,
                                     totalViolations: int, activeViolations: int, healthBased: int,
                                     complianceRate: string)

  /** A month of `getComplianceTrends`; the compliance rate, a float, is not kept. */
  datatype ComplianceTrend = ComplianceTrend(monthDate: string, totalSystems: int, compliantSystems: int,
                                             nonCompliantSystems: int)

  const LoadFailedMessage: string := "Failed to load analytics data. Please try again."

  /** What the page renders: a spinner while loading, then the error box, then the tabs. */
  datatype PageView = LoadingView | ErrorView(message: string) | TabsView

  class Analytics {
    var stats: Option<SystemStats>
    var complianceTrends: seq<ComplianceTrend>
    var violationCategories: seq<ViolationCategory>
    var countyData: seq<CountyStat>
    var loading: bool
    var error: Option<string>

    constructor ()
      ensures stats.None? && complianceTrends == [] && violationCategories == [] && countyData == []
      ensures loading && error.None?
    {
      stats, complianceTrends, violationCategories, countyData := None, [], [], [];
      loading, error := true, None;
    }

    function View(): (v: PageView)
      reads this
      ensures v == LoadingView <==> loading
      ensures v.ErrorView? <==> !loading && error.Some?
      ensures v.ErrorView? ==> v.message == error.value
    {
      if loading then LoadingView else if error.Some? then ErrorView(error.value) else TabsView
    }

    /** The compliance trend rows the Trends tab shows: the last six. */
    function VisibleTrends(): seq<ComplianceTrend>
      reads this
    {
      ShownTrends(complianceTrends)
    }

    /**
     * `loadAnalyticsData`, given how each awaited repository call ended (`Err` when it threw).
     * The calls run in order and the first that throws ends the `try`: whatever was stored before
     * it stays, nothing after it is stored, and the error message is set. Loading ends either way.
     */
    method LoadAnalyticsData(metrics: Result<SystemStats, string>, trends: Result<seq<ComplianceTrend>, string>,
                             violationTrends: Result<seq<MonthTrend>, string>,
                             countyStats: Result<seq<CountyStat>, string>)
      modifies this
      ensures !loading
      ensures error.Some? <==> metrics.Err? || trends.Err? || violationTrends.Err? || countyStats.Err?
      ensures error.Some? ==> error.value == LoadFailedMessage
      ensures stats == if metrics.Ok? then Some(metrics.value) else old(stats)
      ensures complianceTrends == if metrics.Ok? && trends.Ok? then trends.value else old(complianceTrends)
      ensures violationCategories ==
        if metrics.Ok? && trends.Ok? && violationTrends.Ok? then CategoryList(CategoryTotals(violationTrends.value))
        else old(violationCategories)
      ensures countyData ==
        if metrics.Ok? && trends.Ok? && violationTrends.Ok? && countyStats.Ok? then Take(countyStats.value, 10)
        else old(countyData)
    {
      loading := true;
      error := None;
      if metrics.Err? {
        error, loading := Some(LoadFailedMessage), false;
        return;
      }
      stats := Some(metrics.value);
      if trends.Err? {
        error, loading := Some(LoadFailedMessage), false;
        return;
      }
      complianceTrends := trends.value;
      if violationTrends.Err? {
        error, loading := Some(LoadFailedMessage), false;
        return;
      }
      var categoryMap := TallyCategories(violationTrends.value);
      violationCategories := CategoryList(categoryMap);
      if countyStats.Err? {
        error, loading := Some(LoadFailedMessage), false;
        return;
      }
      countyData := Take(countyStats.value, 10);
      loading := false;
    }
  }
}
