/**
 * The analytics repository's aggregations over rows it has already fetched: violations grouped
 * by month and category, per-system violation counts and the systems with the most of them, the
 * per-county roll-up, and the geographic distribution. Each query is an input saying what the
 * backend answered; the `reduce` and `forEach` accumulators are loops over ordered maps.
 */
module AnalyticsRepo {
  import opened Wrappers
  import opened OrderedMap

  // ---------------------------------------------------------------------------------------------
  // getViolationTrendsByCategory
  // ---------------------------------------------------------------------------------------------

  /** A `violations_enforcement` row with the two columns the grouping reads. */
  datatype TrendRow = TrendRow(beginDate: Option<string>, categoryCode: Option<string>)

  /** `non_compl_per_begin_date?.substring(0, 7)`, the `YYYY-MM` key; a missing or empty date has none. */
  function MonthOf(row: TrendRow): (m: Option<string>)
    ensures m.Some? <==> row.beginDate.Some? && row.beginDate.value != ""
    ensures m.Some? ==> 0 < |m.value| <= 7 && |m.value| <= |row.beginDate.value|
    ensures m.Some? ==> m.value == row.beginDate.value[..|m.value|]
    ensures m.Some? && |row.beginDate.value| >= 7 ==> |m.value| == 7
  {
    match row.beginDate
    case None => None
    case Some(d) => if d == "" then None else Some(d[..if |d| < 7 then |d| else 7])
  }

  /** `violation_category_code || 'Unknown'`. */
  function CategoryOf(row: TrendRow): (c: string)
    ensures row.categoryCode.Some? && row.categoryCode.value != "" ==> c == row.categoryCode.value
    ensures row.categoryCode.None? || row.categoryCode.value == "" ==> c == "Unknown"
  {
    if row.categoryCode.Some? && row.categoryCode.value != "" then row.categoryCode.value else "Unknown"
  }

  /** Month keys to category keys to counts. */
  type Trends = seq<(string, seq<(string, int)>)>

  /** `acc[m][c]++`, creating the month's entry and the category's count when missing. */
  function Bump(acc: Trends, m: string, c: string): Trends {
    var inner := Get(acc, m).GetOr([]);
    Put(acc, m, Put(inner, c, Get(inner, c).GetOr(0) + 1))
  }

  /** One step of the `reduce`: an undated row is skipped, a dated one bumps its month and category. */
  function AddTrend(acc: Trends, row: TrendRow): Trends {
    if MonthOf(row).Some? then Bump(acc, MonthOf(row).value, CategoryOf(row)) else acc
  }

  /** The accumulator after the `reduce` over `rows`. */
  function TrendsOf(rows: seq<TrendRow>): Trends {
    if rows == [] then [] else AddTrend(TrendsOf(rows[..|rows| - 1]), rows[|rows| - 1])
  }

  /** The grouping loop of `getViolationTrendsByCategory`. */
  method GroupTrends(rows: seq<TrendRow>) returns (acc: Trends)
    ensures acc == TrendsOf(rows)
  {
    acc := [];
    var i := 0;
    while i < |rows|
      invariant 0 <= i <= |rows|
      invariant acc == TrendsOf(rows[..i])
    {
      assert rows[..i + 1][..i] == rows[..i];
      acc := AddTrend(acc, rows[i]);
      i := i + 1;
    }
    assert rows[..|rows|] == rows;
  }

  /** The count stored for month `m` and category `c`, 0 when there is none. */
  function CountAt(t: Trends, m: string, c: string): int {
    Get(Get(t, m).GetOr([]), c).GetOr(0)
  }

  /** Bumping adds one to its own month and category and leaves every other count alone. */
  lemma BumpCount(acc: Trends, m: string, c: string, m': string, c': string)
    ensures CountAt(Bump(acc, m, c), m', c') == CountAt(acc, m', c') + (if m == m' && c == c' then 1 else 0)
  {
    var inner := Get(acc, m).GetOr([]);
    var inner' := Put(inner, c, Get(inner, c).GetOr(0) + 1);
    GetPut(acc, m, inner', m');
    GetPut(inner, c, Get(inner, c).GetOr(0) + 1, c');
  }

  lemma BumpKeys(acc: Trends, m: string, c: string)
    ensures Keys(Bump(acc, m, c)) == if m in Keys(acc) then Keys(acc) else Keys(acc) + [m]
  {
    var inner := Get(acc, m).GetOr([]);
    var inner' := Put(inner, c, Get(inner, c).GetOr(0) + 1);
    assert Bump(acc, m, c) == Put(acc, m, inner');
    PutKeys(acc, m, inner');
  }

  /** How many of `rows` are dated `m` and fall under category `c`. */
  function Tally(rows: seq<TrendRow>, m: string, c: string): nat {
    if rows == [] then 0
    else
      var last := rows[|rows| - 1];
      Tally(rows[..|rows| - 1], m, c) + (if MonthOf(last) == Some(m) && CategoryOf(last) == c then 1 else 0)
  }

  /** How many of `rows` have a date. */
  function Dated(rows: seq<TrendRow>): nat {
    if rows == [] then 0 else Dated(rows[..|rows| - 1]) + (if MonthOf(rows[|rows| - 1]).Some? then 1 else 0)
  }

  /** Each dated row is counted once, under its month and category. */
  lemma {:induction false} TrendCounts(rows: seq<TrendRow>, m: string, c: string)
    ensures CountAt(TrendsOf(rows), m, c) == Tally(rows, m, c)
  {
    if rows != [] {
      var prefix := rows[..|rows| - 1];
      var last := rows[|rows| - 1];
      TrendCounts(prefix, m, c);
      if MonthOf(last).Some? {
        BumpCount(TrendsOf(prefix), MonthOf(last).value, CategoryOf(last), m, c);
      }
    }
  }

  /** A month has an entry exactly when some row is dated in it. */
  lemma {:induction false} TrendMonths(rows: seq<TrendRow>, m: string)
    ensures m in Keys(TrendsOf(rows)) <==> exists i :: 0 <= i < |rows| && MonthOf(rows[i]) == Some(m)
  {
    if rows != [] {
      var prefix := rows[..|rows| - 1];
      TrendMonths(prefix, m);
      if MonthOf(rows[|rows| - 1]).Some? {
        BumpKeys(TrendsOf(prefix), MonthOf(rows[|rows| - 1]).value, CategoryOf(rows[|rows| - 1]));
      }
      assert forall i :: 0 <= i < |prefix| ==> prefix[i] == rows[i];
    }
  }

  /** A month's categories: distinct keys and positive counts. */
  ghost predicate CategoriesWellFormed(inner: seq<(string, int)>) {
    DistinctKeys(inner) && forall j :: 0 <= j < |inner| ==> inner[j].1 >= 1
  }

  /** Keys are distinct at both levels and every stored count is positive. */
  ghost predicate TrendsWellFormed(t: Trends) {
    DistinctKeys(t) && forall e :: e in t ==> CategoriesWellFormed(e.1)
  }

  /** The inner map `Bump` starts from is well formed when the accumulator is. */
  lemma InnerWellFormed(acc: Trends, m: string)
    requires TrendsWellFormed(acc)
    ensures CategoriesWellFormed(Get(acc, m).GetOr([]))
  {
    GetFound(acc, m);
  }

  /** Bumping a category of well-formed categories keeps them well formed. */
  lemma PutCategoryWellFormed(inner: seq<(string, int)>, c: string)
    requires CategoriesWellFormed(inner)
    ensures CategoriesWellFormed(Put(inner, c, Get(inner, c).GetOr(0) + 1))
  {
    var n := Get(inner, c).GetOr(0) + 1;
    var inner' := Put(inner, c, n);
    PutKeepsDistinct(inner, c, n);
    PutEntries(inner, c, n);
    assert n >= 1 by {
      GetFound(inner, c);
    }
    forall j | 0 <= j < |inner'| ensures inner'[j].1 >= 1 {
      assert inner'[j] in inner';
    }
  }

  /** Storing well-formed categories under a month keeps the trends well formed. */
  lemma PutMonthWellFormed(acc: Trends, m: string, inner: seq<(string, int)>)
    requires TrendsWellFormed(acc) && CategoriesWellFormed(inner)
    ensures TrendsWellFormed(Put(acc, m, inner))
  {
    PutKeepsDistinct(acc, m, inner);
    PutEntries(acc, m, inner);
  }

  lemma BumpWellFormed(acc: Trends, m: string, c: string)
    requires TrendsWellFormed(acc)
    ensures TrendsWellFormed(Bump(acc, m, c))
  {
    var inner := Get(acc, m).GetOr([]);
    var inner' := Put(inner, c, Get(inner, c).GetOr(0) + 1);
    InnerWellFormed(acc, m);
    PutCategoryWellFormed(inner, c);
    PutMonthWellFormed(acc, m, inner');
    assert Bump(acc, m, c) == Put(acc, m, inner');
  }

  lemma {:induction false} TrendsOfWellFormed(rows: seq<TrendRow>)
    ensures TrendsWellFormed(TrendsOf(rows))
  {
    if rows != [] {
      var prefix := rows[..|rows| - 1];
      TrendsOfWellFormed(prefix);
      if MonthOf(rows[|rows| - 1]).Some? {
        BumpWellFormed(TrendsOf(prefix), MonthOf(rows[|rows| - 1]).value, CategoryOf(rows[|rows| - 1]));
      }
    }
  }

  function Count(n: int): int {
    n
  }

  /** The total of a month's category counts. */
  function MonthTotal(categories: seq<(string, int)>): int {
    SumOf(categories, Count)
  }

  /** Bumping adds one to the grand total. */
  lemma BumpTotal(acc: Trends, m: string, c: string)
    requires TrendsWellFormed(acc)
    ensures SumOf(Bump(acc, m, c), MonthTotal) == SumOf(acc, MonthTotal) + 1
  {
    var inner := Get(acc, m).GetOr([]);
    var n := Get(inner, c).GetOr(0) + 1;
    InnerWellFormed(acc, m);
    SumOfPut(inner, c, n, Count);
    SumOfPut(acc, m, Put(inner, c, n), MonthTotal);
  }

  /** The counts of all months add up to the number of dated rows. */
  lemma {:induction false} TrendTotal(rows: seq<TrendRow>)
    ensures SumOf(TrendsOf(rows), MonthTotal) == Dated(rows)
  {
    if rows != [] {
      var prefix := rows[..|rows| - 1];
      TrendTotal(prefix);
      TrendsOfWellFormed(prefix);
      if MonthOf(rows[|rows| - 1]).Some? {
        BumpTotal(TrendsOf(prefix), MonthOf(rows[|rows| - 1]).value, CategoryOf(rows[|rows| - 1]));
      }
    }
  }

  /** An entry of the trend list `Object.entries(trends).map(...)` returns. */
  datatype MonthTrend = MonthTrend(month: string, categories: seq<(string, int)>)

  /** `Object.entries(trends).map(([month, categories]) => ({ month, categories }))`. */
  function AsMonthTrends(t: Trends): (r: seq<MonthTrend>)
    ensures |r| == |t|
    ensures forall i :: 0 <= i < |t| ==> r[i].month == t[i].0 && r[i].categories == t[i].1
  {
    if t == [] then [] else [MonthTrend(t[0].0, t[0].1)] + AsMonthTrends(t[1..])
  }

  /** `getViolationTrendsByCategory` over what the query answered; a query error is rethrown with a prefix. */
  method GetViolationTrendsByCategory(answer: RpcResult<TrendRow>) returns (r: Result<seq<MonthTrend>, string>)
    ensures answer.RpcError? ==> r == Err("Failed to fetch violation trends: " + answer.message)
    ensures answer.RpcData? ==> r == Ok(AsMonthTrends(TrendsOf(answer.rows.GetOr([]))))
  {
    match answer {
      case RpcError(msg) =>
        return Err("Failed to fetch violation trends: " + msg);
      case RpcData(rows) =>
        var acc := GroupTrends(rows.GetOr([]));
        return Ok(AsMonthTrends(acc));
    }
  }

  // ---------------------------------------------------------------------------------------------
  // Violation counts per system, shared by getTopViolatingSystems and getCountyStatistics
  // ---------------------------------------------------------------------------------------------

  /** A `violations_enforcement` row with the columns these queries read. */
  datatype ViolationRow = ViolationRow(pwsid: string, isHealthBasedInd: Option<string>)

  function PwsidsOf(rows: seq<ViolationRow>): (ps: seq<string>)
    ensures |ps| == |rows| && forall i :: 0 <= i < |rows| ==> ps[i] == rows[i].pwsid
  {
    seq(|rows|, i requires 0 <= i < |rows| => rows[i].pwsid)
  }

  /** The `reduce` that builds `violationCounts`: `acc[p] = (acc[p] || 0) + 1` for each pwsid in turn. */
  function CountsOf(ps: seq<string>): seq<(string, int)> {
    if ps == [] then []
    else
      var acc := CountsOf(ps[..|ps| - 1]);
      var p := ps[|ps| - 1];
      Put(acc, p, Get(acc, p).GetOr(0) + 1)
  }

  method CountViolations(ps: seq<string>) returns (acc: seq<(string, int)>)
    ensures acc == CountsOf(ps)
  {
    acc := [];
    var i := 0;
    while i < |ps|
      invariant 0 <= i <= |ps|
      invariant acc == CountsOf(ps[..i])
    {
      assert ps[..i + 1][..i] == ps[..i];
      acc := Put(acc, ps[i], Get(acc, ps[i]).GetOr(0) + 1);
      i := i + 1;
    }
    assert ps[..|ps|] == ps;
  }

  /** A system's count is the number of fetched rows carrying its pwsid; only fetched pwsids are keys. */
  lemma {:induction false} CountsAreOccurrences(ps: seq<string>, p: string)
    ensures Get(CountsOf(ps), p).GetOr(0) == multiset(ps)[p]
    ensures p in Keys(CountsOf(ps)) <==> p in ps
  {
    CountGet(ps, p);
    CountKeys(ps, p);
  }

  lemma {:induction false} CountGet(ps: seq<string>, p: string)
    ensures Get(CountsOf(ps), p).GetOr(0) == multiset(ps)[p]
  {
    if ps != [] {
      var prefix := ps[..|ps| - 1];
      var q := ps[|ps| - 1];
      var acc := CountsOf(prefix);
      CountGet(prefix, p);
      assert ps == prefix + [q];
      assert CountsOf(ps) == Put(acc, q, Get(acc, q).GetOr(0) + 1);
      GetPut(acc, q, Get(acc, q).GetOr(0) + 1, p);
    }
  }

  lemma {:induction false} CountKeys(ps: seq<string>, p: string)
    ensures p in Keys(CountsOf(ps)) <==> p in ps
  {
    if ps != [] {
      var prefix := ps[..|ps| - 1];
      var q := ps[|ps| - 1];
      var acc := CountsOf(prefix);
      CountKeys(prefix, p);
      assert ps == prefix + [q];
      assert CountsOf(ps) == Put(acc, q, Get(acc, q).GetOr(0) + 1);
      PutKeys(acc, q, Get(acc, q).GetOr(0) + 1);
    }
  }

  lemma {:induction false} CountsDistinct(ps: seq<string>)
    ensures DistinctKeys(CountsOf(ps))
  {
    if ps != [] {
      var prefix := ps[..|ps| - 1];
      CountsDistinct(prefix);
      PutKeepsDistinct(CountsOf(prefix), ps[|ps| - 1], Get(CountsOf(prefix), ps[|ps| - 1]).GetOr(0) + 1);
    }
  }

  // ---------------------------------------------------------------------------------------------
  // getTopViolatingSystems
  // ---------------------------------------------------------------------------------------------

  function CountKey(e: (string, int)): int {
    e.1
  }

  /** `Object.entries(violationCounts).sort((a, b) => b[1] - a[1]).slice(0, limit).map(([p]) => p)`. */
  function TopPwsids(counts: seq<(string, int)>, limit: int): (top: seq<string>)
    ensures limit >= 0 ==> |top| <= limit
  {
    Keys(Take(SortDesc(counts, CountKey), limit))
  }

  /**
   * The chosen systems have the largest counts: every chosen pwsid has at least as many violations
   * as every fetched pwsid left out, and every chosen pwsid was fetched.
   */
  lemma TopPwsidsDominate(ps: seq<string>, limit: int, p: string, q: string)
    requires p in TopPwsids(CountsOf(ps), limit)
    requires q in ps && q !in TopPwsids(CountsOf(ps), limit)
    ensures p in ps
    ensures multiset(ps)[p] >= multiset(ps)[q]
  {
    var counts := CountsOf(ps);
    var s := SortDesc(counts, CountKey);
    var top := Take(s, limit);
    var rest := s[|top|..];
    TopKDominates(counts, CountKey, limit);
    CountsDistinct(ps);
    CountsAreOccurrences(ps, p);
    CountsAreOccurrences(ps, q);
    var vp := KeyEntry(top, p);
    InTopOrRest(counts, CountKey, limit, (p, vp));
    GetEntry(counts, p, vp);
    var vq := KeyEntry(counts, q);
    GetEntry(counts, q, vq);
    InTopOrRest(counts, CountKey, limit, (q, vq));
    if (q, vq) in top {
      EntryKey(top, (q, vq));
    }
  }

  /** A `public_water_systems` row. */
  datatype SystemRow = SystemRow(pwsid: string, name: string, cityName: Option<string>,
                                 stateCode: Option<string>, population: Option<int>)

  /** An entry of the top-systems list. */
  datatype TopSystem = TopSystem(pwsid: string, name: string, city: Option<string>, state: Option<string>,
                                 population: Option<int>, violationCount: int)

  /** The entry for one fetched system: `violation_count` is `violationCounts[pwsid] || 0`. */
  function TopEntry(counts: seq<(string, int)>, ws: SystemRow): TopSystem {
    TopSystem(ws.pwsid, ws.name, ws.cityName, ws.stateCode, ws.population, Get(counts, ws.pwsid).GetOr(0))
  }

  /**
   * `getTopViolatingSystems(limit)` over the violations query and the details query. `requested`
   * is the pwsid list the details query is issued with; no details query is issued when it is empty.
   */
  method GetTopViolatingSystems(violations: RpcResult<ViolationRow>, limit: int, details: RpcResult<SystemRow>)
    returns (r: Result<seq<TopSystem>, string>, requested: seq<string>)
    ensures violations.RpcError? ==>
      r == Err("Failed to fetch violations for top systems: " + violations.message) && requested == []
    ensures violations.RpcData? ==>
      requested == TopPwsids(CountsOf(PwsidsOf(violations.rows.GetOr([]))), limit)
    ensures violations.RpcData? && requested == [] ==> r == Ok([])
    ensures violations.RpcData? && requested != [] && details.RpcError? ==>
      r == Err("Failed to fetch water system details: " + details.message)
    ensures violations.RpcData? && requested != [] && details.RpcData? ==>
      r.Ok? && |r.value| == |details.rows.GetOr([])|
      && forall i :: 0 <= i < |r.value| ==>
        var ws := details.rows.GetOr([])[i];
        r.value[i] == TopSystem(ws.pwsid, ws.name, ws.cityName, ws.stateCode, ws.population,
                                multiset(PwsidsOf(violations.rows.GetOr([])))[ws.pwsid])
  {
    if violations.RpcError? {
      return Err("Failed to fetch violations for top systems: " + violations.message), [];
    }
    var ps := PwsidsOf(violations.rows.GetOr([]));
    var counts := CountViolations(ps);
    requested := TopPwsids(counts, limit);
    if requested == [] {
      return Ok([]), requested;
    }
    match details {
      case RpcError(msg) =>
        r := Err("Failed to fetch water system details: " + msg);
      case RpcData(rows) =>
        var systems := rows.GetOr([]);
        forall i | 0 <= i < |systems| ensures Get(counts, systems[i].pwsid).GetOr(0) == multiset(ps)[systems[i].pwsid] {
          CountsAreOccurrences(ps, systems[i].pwsid);
        }
        r := Ok(seq(|systems|, i requires 0 <= i < |systems| => TopEntry(counts, systems[i])));
    }
  }

  // ---------------------------------------------------------------------------------------------
  // getCountyStatistics
  // ---------------------------------------------------------------------------------------------

  /** A `geographic_areas` row; the query leaves out rows whose county is `null`. */
  datatype GeoArea = GeoArea(pwsid: string, countyServed: string)

  function AreaEntries(areas: seq<GeoArea>): (es: seq<(string, string)>)
    ensures |es| == |areas| && forall i :: 0 <= i < |areas| ==> es[i] == (areas[i].pwsid, areas[i].countyServed)
  {
    seq(|areas|, i requires 0 <= i < |areas| => (areas[i].pwsid, areas[i].countyServed))
  }

  /** `countyMap`: built from the areas query; a failed query is logged and leaves it empty. */
  function CountyMap(geo: RpcResult<GeoArea>): (m: seq<(string, string)>)
    ensures geo.RpcError? ==> m == []
    ensures geo.RpcData? ==> forall p :: Get(m, p) == LastFor(AreaEntries(geo.rows.GetOr([])), p)
  {
    match geo
    case RpcError(_) => []
    case RpcData(rows) =>
      var es := AreaEntries(rows.GetOr([]));
      assert forall p :: Get(FromEntries(es), p) == LastFor(es, p) by {
        forall p ensures Get(FromEntries(es), p) == LastFor(es, p) {
          FromEntriesGet(es, p);
        }
      }
      FromEntries(es)
  }

  /** `countyMap.get(pwsid) || ws.city_name || 'Unknown'`. */
  function CountyOf(countyMap: seq<(string, string)>, ws: SystemRow): (c: string)
    ensures Get(countyMap, ws.pwsid).Some? && Get(countyMap, ws.pwsid).value != "" ==> c == Get(countyMap, ws.pwsid).value
    ensures ((Get(countyMap, ws.pwsid).None? || Get(countyMap, ws.pwsid).value == "")
             && ws.cityName.Some? && ws.cityName.value != "") ==> c == ws.cityName.value
    ensures c == "Unknown" || c == Get(countyMap, ws.pwsid).GetOr("") || c == ws.cityName.GetOr("")
  {
    var fromArea := Get(countyMap, ws.pwsid);
    if fromArea.Some? && fromArea.value != "" then fromArea.value
    else if ws.cityName.Some? && ws.cityName.value != "" then ws.cityName.value
    else "Unknown"
  }

  /** `population_served_count || 0`. */
  function PopulationOf(ws: SystemRow): int {
    ws.population.GetOr(0)
  }

  /** A county's running totals: its systems' pwsids, summed violations and summed population. */
  datatype CountyAcc = CountyAcc(systems: set<string>, violations: int, population: int)

  /** Adds one system, with its violations and population, to county `k`'s entry, creating it if needed. */
  function AddTo(stats: seq<(string, CountyAcc)>, k: string, pwsid: string, violations: int, population: int)
    : seq<(string, CountyAcc)>
  {
    var a := Get(stats, k).GetOr(CountyAcc({}, 0, 0));
    Put(stats, k, CountyAcc(a.systems + {pwsid}, a.violations + violations, a.population + population))
  }

  /** One step of the `forEach`: adds the system to its county's entry. */
  function AddSystem(stats: seq<(string, CountyAcc)>, countyMap: seq<(string, string)>,
                     counts: seq<(string, int)>, ws: SystemRow): seq<(string, CountyAcc)> {
    AddTo(stats, CountyOf(countyMap, ws), ws.pwsid, Get(counts, ws.pwsid).GetOr(0), PopulationOf(ws))
  }

  /** Adding to county `k` creates or extends that entry and leaves every other county alone. */
  lemma AddToGet(stats: seq<(string, CountyAcc)>, k: string, pwsid: string, violations: int, population: int, c: string)
    ensures c != k ==> Get(AddTo(stats, k, pwsid, violations, population), c) == Get(stats, c)
    ensures c == k ==> Get(AddTo(stats, k, pwsid, violations, population), c).Some?
    ensures c == k ==> (Get(AddTo(stats, k, pwsid, violations, population), c).value.systems ==
                        Get(stats, c).GetOr(CountyAcc({}, 0, 0)).systems + {pwsid})
  {
    var a := Get(stats, k).GetOr(CountyAcc({}, 0, 0));
    GetPut(stats, k, CountyAcc(a.systems + {pwsid}, a.violations + violations, a.population + population), c);
  }

  function RollUp(systems: seq<SystemRow>, countyMap: seq<(string, string)>, counts: seq<(string, int)>)
    : seq<(string, CountyAcc)>
  {
    if systems == [] then []
    else AddSystem(RollUp(systems[..|systems| - 1], countyMap, counts), countyMap, counts, systems[|systems| - 1])
  }

  /** The `forEach` over the water systems that fills `countyStats`. */
  method GroupByCounty(systems: seq<SystemRow>, countyMap: seq<(string, string)>, counts: seq<(string, int)>)
    returns (stats: seq<(string, CountyAcc)>)
    ensures stats == RollUp(systems, countyMap, counts)
  {
    stats := [];
    var i := 0;
    while i < |systems|
      invariant 0 <= i <= |systems|
      invariant stats == RollUp(systems[..i], countyMap, counts)
    {
      assert systems[..i + 1][..i] == systems[..i];
      stats := AddSystem(stats, countyMap, counts, systems[i]);
      i := i + 1;
    }
    assert systems[..|systems|] == systems;
  }

  /** The pwsids of the systems that fall in county `c`. */
  ghost function InCounty(systems: seq<SystemRow>, countyMap: seq<(string, string)>, c: string): set<string> {
    set i | 0 <= i < |systems| && CountyOf(countyMap, systems[i]) == c :: systems[i].pwsid
  }

  lemma InCountyStep(systems: seq<SystemRow>, countyMap: seq<(string, string)>, c: string)
    requires systems != []
    ensures var ws := systems[|systems| - 1];
      InCounty(systems, countyMap, c) ==
        InCounty(systems[..|systems| - 1], countyMap, c) + (if CountyOf(countyMap, ws) == c then {ws.pwsid} else {})
  {
    var prefix := systems[..|systems| - 1];
    var ws := systems[|systems| - 1];
    var extra: set<string> := if CountyOf(countyMap, ws) == c then {ws.pwsid} else {};
    forall p | p in InCounty(systems, countyMap, c) ensures p in InCounty(prefix, countyMap, c) + extra {
      var i :| 0 <= i < |systems| && CountyOf(countyMap, systems[i]) == c && systems[i].pwsid == p;
      if i < |prefix| {
        assert prefix[i] == systems[i];
      }
    }
    forall p | p in InCounty(prefix, countyMap, c) ensures p in InCounty(systems, countyMap, c) {
      var i :| 0 <= i < |prefix| && CountyOf(countyMap, prefix[i]) == c && prefix[i].pwsid == p;
      assert systems[i] == prefix[i];
    }
    if CountyOf(countyMap, ws) == c {
      assert systems[|systems| - 1] == ws;
    }
  }

  /**
   * A county has an entry exactly when some system falls in it, and its set of systems is the set
   * of pwsids of the systems that fall in it.
   */
  lemma {:induction false} CountyMembers(systems: seq<SystemRow>, countyMap: seq<(string, string)>,
                                         counts: seq<(string, int)>, c: string)
    ensures Get(RollUp(systems, countyMap, counts), c).Some? <==> InCounty(systems, countyMap, c) != {}
    ensures Get(RollUp(systems, countyMap, counts), c).Some? ==>
      Get(RollUp(systems, countyMap, counts), c).value.systems == InCounty(systems, countyMap, c)
  {
    if systems != [] {
      var prefix := systems[..|systems| - 1];
      var ws := systems[|systems| - 1];
      CountyMembers(prefix, countyMap, counts, c);
      InCountyStep(systems, countyMap, c);
      AddToGet(RollUp(prefix, countyMap, counts), CountyOf(countyMap, ws), ws.pwsid,
               Get(counts, ws.pwsid).GetOr(0), PopulationOf(ws), c);
    }
  }

  /** A county's set of systems is non-empty exactly when some system falls in it. */
  lemma InCountyNonEmpty(systems: seq<SystemRow>, countyMap: seq<(string, string)>, c: string)
    ensures InCounty(systems, countyMap, c) != {} <==> exists i :: 0 <= i < |systems| && CountyOf(countyMap, systems[i]) == c
  {
    if i :| 0 <= i < |systems| && CountyOf(countyMap, systems[i]) == c {
      assert systems[i].pwsid in InCounty(systems, countyMap, c);
    }
  }

  function ViolationsOf(a: CountyAcc): int {
    a.violations
  }

  function PopulationTotal(a: CountyAcc): int {
    a.population
  }

  /** The violations of the systems, one system at a time: `violationCounts[pwsid] || 0` each. */
  function SystemViolations(systems: seq<SystemRow>, counts: seq<(string, int)>): int {
    if systems == [] then 0
    else SystemViolations(systems[..|systems| - 1], counts) + Get(counts, systems[|systems| - 1].pwsid).GetOr(0)
  }

  /** The population of the systems, a `null` one counting as 0. */
  function SystemPopulation(systems: seq<SystemRow>): int {
    if systems == [] then 0 else SystemPopulation(systems[..|systems| - 1]) + PopulationOf(systems[|systems| - 1])
  }

  lemma AddToDistinct(stats: seq<(string, CountyAcc)>, k: string, pwsid: string, violations: int, population: int)
    requires DistinctKeys(stats)
    ensures DistinctKeys(AddTo(stats, k, pwsid, violations, population))
  {
    var a := Get(stats, k).GetOr(CountyAcc({}, 0, 0));
    PutKeepsDistinct(stats, k, CountyAcc(a.systems + {pwsid}, a.violations + violations, a.population + population));
  }

  /** Adding a system to a county adds its violations and population to the totals over all counties. */
  lemma AddToTotals(stats: seq<(string, CountyAcc)>, k: string, pwsid: string, violations: int, population: int)
    requires DistinctKeys(stats)
    ensures SumOf(AddTo(stats, k, pwsid, violations, population), ViolationsOf) == SumOf(stats, ViolationsOf) + violations
    ensures SumOf(AddTo(stats, k, pwsid, violations, population), PopulationTotal) == SumOf(stats, PopulationTotal) + population
  {
    var a := Get(stats, k).GetOr(CountyAcc({}, 0, 0));
    var a' := CountyAcc(a.systems + {pwsid}, a.violations + violations, a.population + population);
    SumOfPut(stats, k, a', ViolationsOf);
    SumOfPut(stats, k, a', PopulationTotal);
  }

  lemma {:induction false} RollUpDistinct(systems: seq<SystemRow>, countyMap: seq<(string, string)>, counts: seq<(string, int)>)
    ensures DistinctKeys(RollUp(systems, countyMap, counts))
  {
    if systems != [] {
      var prefix := systems[..|systems| - 1];
      var ws := systems[|systems| - 1];
      RollUpDistinct(prefix, countyMap, counts);
      AddToDistinct(RollUp(prefix, countyMap, counts), CountyOf(countyMap, ws), ws.pwsid,
                    Get(counts, ws.pwsid).GetOr(0), PopulationOf(ws));
    }
  }

  /** Grouping loses nothing: the counties' violations and populations add up to those of all systems. */
  lemma {:induction false} RollUpTotals(systems: seq<SystemRow>, countyMap: seq<(string, string)>, counts: seq<(string, int)>)
    ensures SumOf(RollUp(systems, countyMap, counts), ViolationsOf) == SystemViolations(systems, counts)
    ensures SumOf(RollUp(systems, countyMap, counts), PopulationTotal) == SystemPopulation(systems)
  {
    if systems != [] {
      var prefix := systems[..|systems| - 1];
      var ws := systems[|systems| - 1];
      RollUpTotals(prefix, countyMap, counts);
      RollUpDistinct(prefix, countyMap, counts);
      AddToTotals(RollUp(prefix, countyMap, counts), CountyOf(countyMap, ws), ws.pwsid,
                  Get(counts, ws.pwsid).GetOr(0), PopulationOf(ws));
    }
  }

  /** An entry of the county list. */
  datatype CountyStat = CountyStat(county: string, systems: nat, violations: int, population: int)

  function SystemsKey(s: CountyStat): int {
    s.systems
  }

  /** `Array.from(countyStats.entries()).map(...)`: the number of distinct systems and the two sums. */
  function CountyStatsOf(stats: seq<(string, CountyAcc)>): (r: seq<CountyStat>)
    ensures |r| == |stats|
    ensures forall i :: 0 <= i < |stats| ==>
      r[i] == CountyStat(stats[i].0, |stats[i].1.systems|, stats[i].1.violations, stats[i].1.population)
  {
    seq(|stats|, i requires 0 <= i < |stats| =>
      CountyStat(stats[i].0, |stats[i].1.systems|, stats[i].1.violations, stats[i].1.population))
  }

  /**
   * `getCountyStatistics` over its three queries. A failed areas query only loses the counties it
   * would have supplied; the other two failures are rethrown with a prefix. The result is the
   * county list sorted by number of systems, descending, cut to 20.
   */
  method GetCountyStatistics(waterSystems: RpcResult<SystemRow>, geo: RpcResult<GeoArea>,
                             violations: RpcResult<ViolationRow>)
    returns (r: Result<seq<CountyStat>, string>)
    ensures waterSystems.RpcError? ==> r == Err("Failed to fetch water systems: " + waterSystems.message)
    ensures waterSystems.RpcData? && violations.RpcError? ==>
      r == Err("Failed to fetch violations: " + violations.message)
    ensures waterSystems.RpcData? && violations.RpcData? ==>
      var all := CountyStatsOf(RollUp(waterSystems.rows.GetOr([]), CountyMap(geo),
                                      CountsOf(PwsidsOf(violations.rows.GetOr([])))));
      && r == Ok(Take(SortDesc(all, SystemsKey), 20))
      && |r.value| <= 20
      && SortedDesc(r.value, SystemsKey)
      && multiset(r.value) <= multiset(all)
  {
    if waterSystems.RpcError? {
      return Err("Failed to fetch water systems: " + waterSystems.message);
    }
    if violations.RpcError? {
      return Err("Failed to fetch violations: " + violations.message);
    }
    var counts := CountViolations(PwsidsOf(violations.rows.GetOr([])));
    var stats := GroupByCounty(waterSystems.rows.GetOr([]), CountyMap(geo), counts);
    var all := CountyStatsOf(stats);
    var sorted := SortDesc(all, SystemsKey);
    TakeSortedDesc(sorted, 20);
    return Ok(Take(sorted, 20));
  }

  /** A prefix of a descending sequence is descending and holds no more of anything than the whole. */
  lemma TakeSortedDesc(s: seq<CountyStat>, n: int)
    requires SortedDesc(s, SystemsKey)
    ensures SortedDesc(Take(s, n), SystemsKey)
    ensures multiset(Take(s, n)) <= multiset(s)
  {
    var t := Take(s, n);
    assert s == t + s[|t|..];
    forall i, j | 0 <= i < j < |t| ensures SystemsKey(t[i]) >= SystemsKey(t[j]) {
      assert t[i] == s[i] && t[j] == s[j];
    }
  }

  // ---------------------------------------------------------------------------------------------
  // getGeographicViolationDistribution
  // ---------------------------------------------------------------------------------------------

  /** `[...new Set(ps)]`: the distinct pwsids in order of first appearance. */
  function Unique(ps: seq<string>): (r: seq<string>)
    ensures forall p :: p in r <==> p in ps
    ensures |r| <= |ps|
  {
    if ps == [] then []
    else
      var r := Unique(ps[..|ps| - 1]);
      assert ps == ps[..|ps| - 1] + [ps[|ps| - 1]];
      if ps[|ps| - 1] in r then r else r + [ps[|ps| - 1]]
  }

  /** There are no distinct pwsids exactly when there are no pwsids. */
  lemma UniqueEmpty(ps: seq<string>)
    ensures Unique(ps) == [] <==> ps == []
  {
    if ps != [] {
      assert ps[0] in ps;
    }
  }

  lemma {:induction false} DistinctHasNoRepeats(ps: seq<string>)
    ensures Distinct(Unique(ps))
  {
    if ps != [] {
      DistinctHasNoRepeats(ps[..|ps| - 1]);
    }
  }

  /** An entry of the distribution. */
  datatype GeoViolation = GeoViolation(pwsid: string, isHealthBased: bool, city: Option<string>,
                                       state: Option<string>, county: Option<string>)

  function SystemEntries(systems: seq<SystemRow>): (es: seq<(string, SystemRow)>)
    ensures |es| == |systems| && forall i :: 0 <= i < |systems| ==> es[i] == (systems[i].pwsid, systems[i])
  {
    seq(|systems|, i requires 0 <= i < |systems| => (systems[i].pwsid, systems[i]))
  }

  /** The entry for one violation: county from the areas, else the system's city (`undefined` without a system). */
  function GeoEntry(systemMap: seq<(string, SystemRow)>, countyMap: seq<(string, string)>, v: ViolationRow): (g: GeoViolation)
    ensures g.pwsid == v.pwsid
    ensures g.isHealthBased <==> v.isHealthBasedInd == Some("Y")
    ensures g.city == (if Get(systemMap, v.pwsid).Some? then Get(systemMap, v.pwsid).value.cityName else None)
    ensures g.state == (if Get(systemMap, v.pwsid).Some? then Get(systemMap, v.pwsid).value.stateCode else None)
    ensures Get(countyMap, v.pwsid).Some? && Get(countyMap, v.pwsid).value != "" ==> g.county == Get(countyMap, v.pwsid)
    ensures (Get(countyMap, v.pwsid).None? || Get(countyMap, v.pwsid).value == "") ==>
      g.county == (if Get(systemMap, v.pwsid).Some? then Get(systemMap, v.pwsid).value.cityName else None)
  {
    var ws := Get(systemMap, v.pwsid);
    var city := if ws.Some? then ws.value.cityName else None;
    var state := if ws.Some? then ws.value.stateCode else None;
    var fromArea := Get(countyMap, v.pwsid);
    GeoViolation(v.pwsid, v.isHealthBasedInd == Some("Y"), city, state,
                 if fromArea.Some? && fromArea.value != "" then fromArea else city)
  }

  /**
   * `getGeographicViolationDistribution` over its three queries: no violations means an empty
   * list and no further query; a failed areas query only loses the counties it would have supplied.
   */
  function GetGeographicViolationDistribution(violations: RpcResult<ViolationRow>, waterSystems: RpcResult<SystemRow>,
                                              geo: RpcResult<GeoArea>): (r: Result<seq<GeoViolation>, string>)
    ensures violations.RpcError? ==>
      r == Err("Failed to fetch geographic violation distribution: " + violations.message)
    ensures violations.RpcData? && violations.rows.GetOr([]) == [] ==> r == Ok([])
    ensures violations.RpcData? && violations.rows.GetOr([]) != [] && waterSystems.RpcError? ==>
      r == Err("Failed to fetch water system locations: " + waterSystems.message)
    ensures violations.RpcData? && waterSystems.RpcData? ==> r.Ok? && |r.value| == |violations.rows.GetOr([])|
    ensures violations.RpcData? && waterSystems.RpcData? ==> forall i :: 0 <= i < |r.value| ==>
      r.value[i].pwsid == violations.rows.GetOr([])[i].pwsid
      && (r.value[i].isHealthBased <==> violations.rows.GetOr([])[i].isHealthBasedInd == Some("Y"))
    ensures violations.RpcData? && waterSystems.RpcData? ==> forall i :: 0 <= i < |r.value| ==>
      r.value[i] == GeoEntry(FromEntries(SystemEntries(waterSystems.rows.GetOr([]))), CountyMap(geo),
                             violations.rows.GetOr([])[i])
  {
    match violations
    case RpcError(msg) => Err("Failed to fetch geographic violation distribution: " + msg)
    case RpcData(rows) =>
      var vs := rows.GetOr([]);
      UniqueEmpty(PwsidsOf(vs));
      if Unique(PwsidsOf(vs)) == [] then Ok([])
      else
        match waterSystems
        case RpcError(msg) => Err("Failed to fetch water system locations: " + msg)
        case RpcData(systems) =>
          var systemMap := FromEntries(SystemEntries(systems.GetOr([])));
          var countyMap := CountyMap(geo);
          Ok(seq(|vs|, i requires 0 <= i < |vs| => GeoEntry(systemMap, countyMap, vs[i])))
  }
}
