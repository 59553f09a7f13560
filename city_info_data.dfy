/**
 * The heat rules of the built-in city table (`cityData.ts`): the score ladder, the
 * dynamic level from the ranks of a city among all cities, the combined level, the
 * colour of a level, the search and level filters, the statistics (which sort their
 * argument in place), the average level and the top city.
 */
module CityInfoData {
  import opened Wrappers
  import opened JsStrings
  import opened Lists

  /** The `CityInfo` record; the two optional levels are filled in by the recalculation. */
  datatype CityInfo = CityInfo(
    name: string,
    province: string,
    latitude: real,
    longitude: real,
    population: real,
    gdp: real,
    area: real,
    heatLevel: int,
    staticHeatLevel: Option<int>,
    dynamicHeatLevel: Option<int>)

  /** `HEAT_LEVELS`. */
  const VeryLow := 1
  const Low := 2
  const Medium := 3
  const High := 4
  const VeryHigh := 5

  // ---- The threshold ladder ---------------------------------------------------

  /** The lower bounds of levels 2, 3, 4 and 5. */
  const Thresholds: seq<real> := [0.2, 0.4, 0.6, 0.8]

  /** The `if (score >= 0.8) return 5; ...; return 1` ladder of both level functions. */
  function Ladder(score: real): int {
    if score >= 0.8 then VeryHigh
    else if score >= 0.6 then High
    else if score >= 0.4 then Medium
    else if score >= 0.2 then Low
    else VeryLow
  }

  function Reached(score: real): real -> bool {
    (t: real) => t <= score
  }

  /** The ladder is one plus the number of thresholds the score reaches. */
  lemma LadderCountsThresholds(score: real)
    ensures Ladder(score) == 1 + Count(Thresholds, Reached(score))
    ensures 1 <= Ladder(score) <= 5
  {
    var c, t := Reached(score), Thresholds;
    assert t[1..] == [0.4, 0.6, 0.8] && t[2..] == [0.6, 0.8] && t[3..] == [0.8] && t[4..] == [];
    assert Filter(t[4..], c) == [];
  }

  /** A higher score never gets a lower level. */
  lemma LadderMonotone(s: real, t: real)
    requires s <= t
    ensures Ladder(s) <= Ladder(t)
  {
  }

  /** `calculateHeatLevel`: the ladder applied to the city's score. */
  function CalculateHeatLevel(score: CityInfo -> real, city: CityInfo): (level: int)
    ensures 1 <= level <= 5
  {
    LadderCountsThresholds(score(city));
    Ladder(score(city))
  }

  // ---- Ranks and the dynamic level ----------------------------------------------

  /** A JavaScript number as far as division and `>` are concerned. */
  datatype Number = Finite(v: real) | PosInfinity | NegInfinity | NaN

  /** `a / b` in floating point, without rounding. */
  function Divide(a: real, b: real): Number {
    if b != 0.0 then Finite(a / b)
    else if a > 0.0 then PosInfinity
    else if a < 0.0 then NegInfinity
    else NaN
  }

  /** `a > b`; every comparison with NaN is false. */
  predicate Greater(a: Number, b: Number) {
    match (a, b)
    case (Finite(x), Finite(y)) => x > y
    case (Finite(_), NegInfinity) => true
    case (PosInfinity, Finite(_)) => true
    case (PosInfinity, NegInfinity) => true
    case _ => false
  }

  lemma GreaterIrreflexive(a: Number)
    ensures !Greater(a, a)
  {
  }

  function Density(c: CityInfo): Number {
    Divide(c.population, c.area)
  }

  function MorePopulous(city: CityInfo): CityInfo -> bool {
    (c: CityInfo) => c.population > city.population
  }

  function RicherThan(city: CityInfo): CityInfo -> bool {
    (c: CityInfo) => c.gdp > city.gdp
  }

  function DenserThan(city: CityInfo): CityInfo -> bool {
    (c: CityInfo) => Greater(Density(c), Density(city))
  }

  /** A rank: one plus the number of cities strictly ahead. */
  function Rank(allCities: seq<CityInfo>, ahead: CityInfo -> bool): int {
    Count(allCities, ahead) + 1
  }

  /** The percentile of a city; `None` when the list is empty (the division gives -Infinity). */
  function Percentile(city: CityInfo, allCities: seq<CityInfo>): Option<real> {
    if allCities == [] then None
    else
      var avgRank := (Rank(allCities, MorePopulous(city)) + Rank(allCities, RicherThan(city))
        + Rank(allCities, DenserThan(city))) as real / 3.0;
      Some(1.0 - avgRank / |allCities| as real)
  }

  /** `calculateDynamicHeatLevel`. */
  function CalculateDynamicHeatLevel(city: CityInfo, allCities: seq<CityInfo>): (level: int)
    ensures 1 <= level <= 5
  {
    match Percentile(city, allCities)
    case None => VeryLow
    case Some(p) => LadderCountsThresholds(p); Ladder(p)
  }

  /** For a city of the list, each of its three ranks lies in 1..n. */
  lemma RanksInRange(city: CityInfo, allCities: seq<CityInfo>)
    requires city in allCities
    ensures 1 <= Rank(allCities, MorePopulous(city)) <= |allCities|
    ensures 1 <= Rank(allCities, RicherThan(city)) <= |allCities|
    ensures 1 <= Rank(allCities, DenserThan(city)) <= |allCities|
  {
    var i :| 0 <= i < |allCities| && allCities[i] == city;
    CountBelowLength(allCities, MorePopulous(city), i);
    CountBelowLength(allCities, RicherThan(city), i);
    GreaterIrreflexive(Density(city));
    CountBelowLength(allCities, DenserThan(city), i);
  }

  /** No city of the list is ahead of `city` on any of the three metrics. */
  predicate Unbeaten(city: CityInfo, allCities: seq<CityInfo>) {
    forall i :: 0 <= i < |allCities| ==>
      !MorePopulous(city)(allCities[i]) && !RicherThan(city)(allCities[i]) && !DenserThan(city)(allCities[i])
  }

  lemma {:induction false} NoneAhead(s: seq<CityInfo>, p: CityInfo -> bool)
    requires forall i :: 0 <= i < |s| ==> !p(s[i])
    ensures Count(s, p) == 0
  {
    if Filter(s, p) != [] {
      assert Filter(s, p)[0] in s;
    }
  }

  /**
   * An unbeaten city has every rank 1 and percentile 1 - 1/n, so its dynamic level is 5
   * exactly when there are at least five cities.
   */
  lemma UnbeatenCityLevel(city: CityInfo, allCities: seq<CityInfo>)
    requires allCities != [] && Unbeaten(city, allCities)
    ensures Percentile(city, allCities) == Some(1.0 - 1.0 / |allCities| as real)
    ensures CalculateDynamicHeatLevel(city, allCities) == VeryHigh <==> |allCities| >= 5
  {
    NoneAhead(allCities, MorePopulous(city));
    NoneAhead(allCities, RicherThan(city));
    NoneAhead(allCities, DenserThan(city));
    var n := |allCities| as real;
    assert 1.0 - 1.0 / n >= 0.8 <==> n >= 5.0 by {
      assert 1.0 / n * n == 1.0;
      if n >= 5.0 {
        assert 1.0 / n <= 0.2;
      } else {
        assert n <= 4.0;
        assert 1.0 / n >= 0.25;
      }
    }
  }

  // ---- Recalculation --------------------------------------------------------------

  /** `Math.round`: the nearest integer, halves rounded up. */
  function Round(x: real): int {
    (x + 0.5).Floor
  }

  /** The combined level: `Math.round((static + dynamic) / 2)`. */
  function CombinedLevel(staticLevel: int, dynamicLevel: int): int {
    Round((staticLevel + dynamicLevel) as real / 2.0)
  }

  /** Rounding the mean of two levels is the integer mean rounded up, and is a level again. */
  lemma CombinedLevelMeaning(staticLevel: int, dynamicLevel: int)
    requires 1 <= staticLevel <= 5 && 1 <= dynamicLevel <= 5
    ensures CombinedLevel(staticLevel, dynamicLevel) == (staticLevel + dynamicLevel + 1) / 2
    ensures 1 <= CombinedLevel(staticLevel, dynamicLevel) <= 5
  {
    var sum := staticLevel + dynamicLevel;
    var m := (sum + 1) / 2;
    assert (sum as real / 2.0 + 0.5) == (sum + 1) as real / 2.0;
    assert m as real <= (sum + 1) as real / 2.0 < m as real + 1.0;
  }

  /** One city after `recalculateCityHeatLevels`. */
  function Recalculated(score: CityInfo -> real, cities: seq<CityInfo>, city: CityInfo): CityInfo {
    var s := CalculateHeatLevel(score, city);
    var d := CalculateDynamicHeatLevel(city, cities);
    city.(staticHeatLevel := Some(s), dynamicHeatLevel := Some(d), heatLevel := CombinedLevel(s, d))
  }

  /** `recalculateCityHeatLevels`, with the score of `calculateHeatLevel` as a parameter. */
  function RecalculateCityHeatLevels(score: CityInfo -> real, cities: seq<CityInfo>): seq<CityInfo> {
    Map(cities, city => Recalculated(score, cities, city))
  }

  /**
   * The recalculation keeps the list's length and order and every field but the three
   * levels; each city gets its static and dynamic level and their rounded mean, a level.
   */
  lemma RecalculateMeaning(score: CityInfo -> real, cities: seq<CityInfo>)
    ensures |RecalculateCityHeatLevels(score, cities)| == |cities|
    ensures forall i :: 0 <= i < |cities| ==>
      var r, c := RecalculateCityHeatLevels(score, cities)[i], cities[i];
      r.name == c.name && r.province == c.province && r.latitude == c.latitude && r.longitude == c.longitude
      && r.population == c.population && r.gdp == c.gdp && r.area == c.area
      && r.staticHeatLevel == Some(CalculateHeatLevel(score, c))
      && r.dynamicHeatLevel == Some(CalculateDynamicHeatLevel(c, cities))
      && r.heatLevel == (CalculateHeatLevel(score, c) + CalculateDynamicHeatLevel(c, cities) + 1) / 2
      && 1 <= r.heatLevel <= 5
  {
    forall i | 0 <= i < |cities|
      ensures 1 <= RecalculateCityHeatLevels(score, cities)[i].heatLevel <= 5
      ensures RecalculateCityHeatLevels(score, cities)[i].heatLevel
        == (CalculateHeatLevel(score, cities[i]) + CalculateDynamicHeatLevel(cities[i], cities) + 1) / 2
    {
      CombinedLevelMeaning(CalculateHeatLevel(score, cities[i]), CalculateDynamicHeatLevel(cities[i], cities));
    }
  }

  // ---- Colours ------------------------------------------------------------------

  /** `getHeatLevelColor`. */
  function GetHeatLevelColor(level: int): string {
    if level == VeryHigh then "#ff0000"
    else if level == High then "#ff6600"
    else if level == Medium then "#ffcc00"
    else if level == Low then "#66ff66"
    else if level == VeryLow then "#0066ff"
    else "#808080"
  }

  /** The five levels have five different colours, none of them the grey of other values. */
  lemma HeatLevelColors(a: int, b: int)
    ensures GetHeatLevelColor(a) == "#808080" <==> !(1 <= a <= 5)
    ensures 1 <= a <= 5 && 1 <= b <= 5 && a != b ==> GetHeatLevelColor(a) != GetHeatLevelColor(b)
  {
  }

  // ---- Search and filters ----------------------------------------------------------

  predicate MatchesQuery(city: CityInfo, lowerQuery: string) {
    Includes(ToLowerCase(city.name), lowerQuery) || Includes(ToLowerCase(city.province), lowerQuery)
  }

  function MatchQuery(lowerQuery: string): CityInfo -> bool {
    (city: CityInfo) => MatchesQuery(city, lowerQuery)
  }

  /**
   * `searchCities`: a blank query keeps the list; otherwise, in order, the cities whose
   * lowercased name or province contains the lowercased (untrimmed) query.
   */
  function SearchCities(query: string, cities: seq<CityInfo>): (r: seq<CityInfo>)
    ensures AllWhitespace(query) ==> r == cities
    ensures !AllWhitespace(query) ==>
      IsSubsequence(r, cities) && forall c :: c in r <==> c in cities && MatchesQuery(c, ToLowerCase(query))
  {
    if Trim(query) == "" then cities
    else Filter(cities, MatchQuery(ToLowerCase(query)))
  }

  function AtLevel(level: int): CityInfo -> bool {
    (c: CityInfo) => c.heatLevel == level
  }

  /** `filterCitiesByHeatLevel`: in order, exactly the cities at that level. */
  function FilterCitiesByHeatLevel(level: int, cities: seq<CityInfo>): (r: seq<CityInfo>)
    ensures IsSubsequence(r, cities)
    ensures forall c :: c in r <==> c in cities && c.heatLevel == level
  {
    Filter(cities, AtLevel(level))
  }

  // ---- Average and top city ----------------------------------------------------------

  function SumLevels(cities: seq<CityInfo>): int {
    if cities == [] then 0 else cities[0].heatLevel + SumLevels(cities[1..])
  }

  predicate AllLevels(cities: seq<CityInfo>) {
    forall i :: 0 <= i < |cities| ==> 1 <= cities[i].heatLevel <= 5
  }

  lemma {:induction false} SumLevelsBounds(cities: seq<CityInfo>)
    requires AllLevels(cities)
    ensures |cities| <= SumLevels(cities) <= 5 * |cities|
  {
    if cities != [] {
      SumLevelsBounds(cities[1..]);
    }
  }

  /** `calculateAverageHeat`: 0 for no cities, else the mean level rounded to two decimals. */
  function CalculateAverageHeat(cities: seq<CityInfo>): real {
    if |cities| == 0 then 0.0
    else Round(SumLevels(cities) as real / |cities| as real * 100.0) as real / 100.0
  }

  /** The average of levels is itself between 1 and 5. */
  lemma AverageHeatBounds(cities: seq<CityInfo>)
    requires cities != [] && AllLevels(cities)
    ensures 1.0 <= CalculateAverageHeat(cities) <= 5.0
  {
    var n, sum := |cities| as real, SumLevels(cities) as real;
    SumLevelsBounds(cities);
    assert n <= sum <= 5.0 * n;
    var mean := sum / n;
    assert mean * n == sum;
    assert (5.0 - mean) * n == 5.0 * n - sum;
    assert (mean - 1.0) * n == sum - n;
    NonNegativeFactor(5.0 - mean, n);
    NonNegativeFactor(mean - 1.0, n);
    assert 100 <= Round(mean * 100.0) <= 500;
  }

  lemma NonNegativeFactor(x: real, n: real)
    requires n > 0.0 && x * n >= 0.0
    ensures x >= 0.0
  {
  }

  /** The key of the statistics' sort and of `getTopCity`: level, then population. */
  function LevelPopulation(c: CityInfo): (real, real) {
    (c.heatLevel as real, c.population)
  }

  /** The reduce step of `getTopCity`: a later city replaces the top only when strictly ahead. */
  function TopOf(cities: seq<CityInfo>): CityInfo
    requires cities != []
  {
    if |cities| == 1 then cities[0]
    else
      var top := TopOf(cities[..|cities| - 1]);
      var city := cities[|cities| - 1];
      if KeyGt(LevelPopulation(city), LevelPopulation(top)) then city else top
  }

  /** `getTopCity`. */
  function GetTopCity(cities: seq<CityInfo>): Option<CityInfo> {
    if cities == [] then None else Some(TopOf(cities))
  }

  /** The top city is the first city that no other city is ahead of. */
  lemma {:induction false} TopOfMeaning(cities: seq<CityInfo>) returns (i: nat)
    requires cities != []
    ensures i < |cities| && TopOf(cities) == cities[i]
    ensures forall j :: 0 <= j < |cities| ==> !KeyGt(LevelPopulation(cities[j]), LevelPopulation(cities[i]))
    ensures forall j :: 0 <= j < i ==> KeyGt(LevelPopulation(cities[i]), LevelPopulation(cities[j]))
  {
    if |cities| == 1 {
      i := 0;
    } else {
      var n := |cities| - 1;
      var init := cities[..n];
      var k := TopOfMeaning(init);
      assert forall j :: 0 <= j < n ==> init[j] == cities[j];
      if KeyGt(LevelPopulation(cities[n]), LevelPopulation(init[k])) {
        i := n;
      } else {
        i := k;
      }
    }
  }

  /** `getTopCity` is `null` exactly for the empty list, and otherwise the first maximal city. */
  lemma GetTopCityMeaning(cities: seq<CityInfo>)
    ensures GetTopCity(cities).None? <==> cities == []
    ensures cities != [] ==> exists i :: (0 <= i < |cities| && GetTopCity(cities) == Some(cities[i])
      && (forall j :: 0 <= j < |cities| ==> !KeyGt(LevelPopulation(cities[j]), LevelPopulation(cities[i])))
      && (forall j :: 0 <= j < i ==> KeyGt(LevelPopulation(cities[i]), LevelPopulation(cities[j]))))
  {
    if cities != [] {
      var i := TopOfMeaning(cities);
    }
  }

  // ---- Statistics ---------------------------------------------------------------------

  datatype CityStatistics = CityStatistics(
    totalCities: nat,
    heatDistribution: map<int, nat>,
    topCities: seq<CityInfo>,
    averageHeat: real)

  /** The five level counts of `heatDistribution`. */
  function Distribution(cities: seq<CityInfo>): (d: map<int, nat>)
    ensures d.Keys == {1, 2, 3, 4, 5}
  {
    map[VeryHigh := Count(cities, AtLevel(VeryHigh)), High := Count(cities, AtLevel(High)),
        Medium := Count(cities, AtLevel(Medium)), Low := Count(cities, AtLevel(Low)),
        VeryLow := Count(cities, AtLevel(VeryLow))]
  }

  /** When every level is one of 1..5, the five level filters together cover the list. */
  lemma {:induction false} LevelCountsCover(cities: seq<CityInfo>)
    requires AllLevels(cities)
    ensures Count(cities, AtLevel(1)) + Count(cities, AtLevel(2)) + Count(cities, AtLevel(3))
      + Count(cities, AtLevel(4)) + Count(cities, AtLevel(5)) == |cities|
  {
    if cities != [] {
      LevelCountsCover(cities[1..]);
    }
  }

  /** When every level is one of 1..5, the five counts add up to the number of cities. */
  lemma DistributionTotal(cities: seq<CityInfo>)
    requires AllLevels(cities)
    ensures Distribution(cities)[1] + Distribution(cities)[2] + Distribution(cities)[3]
      + Distribution(cities)[4] + Distribution(cities)[5] == |cities|
  {
    LevelCountsCover(cities);
  }

  /**
   * `getStatistics`: the counts are taken first, then the caller's array is sorted in
   * place by level and then population, both descending; the top cities are its first ten.
   */
  method GetStatistics(cities: array<CityInfo>) returns (s: CityStatistics)
    modifies cities
    ensures s.totalCities == cities.Length
    ensures s.heatDistribution == Distribution(old(cities[..]))
    ensures SortedDescending(cities[..], LevelPopulation)
    ensures multiset(cities[..]) == multiset(old(cities[..]))
    ensures s.topCities == cities[..if cities.Length < 10 then cities.Length else 10]
    ensures s.averageHeat == CalculateAverageHeat(cities[..])
  {
    var total := cities.Length;
    var distribution := Distribution(cities[..]);
    SortDescending(cities, LevelPopulation);
    var k := if cities.Length < 10 then cities.Length else 10;
    s := CityStatistics(total, distribution, cities[..k], CalculateAverageHeat(cities[..]));
  }
}
