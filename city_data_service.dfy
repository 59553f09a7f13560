/**
 * The in-memory city store (`CityDataService`): a list of city records that the add,
 * update, delete, replace-all, reset and import operations change in place, and the
 * queries that read it. Persistence to browser storage, JSON text and the singleton
 * accessor are outside the model: the store starts from a given list, and import starts
 * from already-parsed records.
 */
module Service {
  import opened Wrappers
  import opened JsStrings
  import opened Lists
  import opened Types

  /** `city => city.id === id`, the predicate every id lookup of the store uses. */
  function HasId(id: string): CityData -> bool {
    (c: CityData) => c.id == id
  }

  /** `city => city.heatLevel === level`. */
  function AtLevel(level: int): CityData -> bool {
    (c: CityData) => c.heatLevel == level
  }

  function HeatLevelOf(c: CityData): int {
    c.heatLevel
  }

  /** The sort key of `(a, b) => b.overallHeat - a.overallHeat`. */
  function OverallKey(c: CityData): (real, real) {
    (c.overallHeat, 0.0)
  }

  /** Some record already has this name in this province. */
  predicate NameTaken(cities: seq<CityData>, name: string, province: string) {
    exists i :: 0 <= i < |cities| && cities[i].name == name && cities[i].province == province
  }

  /** The search predicate: the lowercased name, province or id contains `lowerQuery`. */
  predicate MatchesQuery(c: CityData, lowerQuery: string) {
    Includes(ToLowerCase(c.name), lowerQuery)
    || Includes(ToLowerCase(c.province), lowerQuery)
    || Includes(ToLowerCase(c.id), lowerQuery)
  }

  function MatchQuery(lowerQuery: string): CityData -> bool {
    (c: CityData) => MatchesQuery(c, lowerQuery)
  }

  /**
   * A record as `JSON.parse` hands it to `importData`: the city fields, and whether the
   * two coordinates were JSON numbers. A missing or null `id`, `name` or `province` is
   * represented by the empty string, which is falsy like them.
   */
  datatype ImportedCity = ImportedCity(city: CityData, latitudeIsNumber: bool, longitudeIsNumber: bool)

  /** The field check of `importData`: truthy id, name and province, numeric coordinates. */
  predicate HasRequiredFields(r: ImportedCity) {
    r.city.id != [] && r.city.name != [] && r.city.province != []
    && r.latitudeIsNumber && r.longitudeIsNumber
  }

  function RecordOf(r: ImportedCity): CityData {
    r.city
  }

  /** The value `getStatistics` returns, without `averageHeat`. */
  datatype Statistics = Statistics(total: nat, heatDistribution: map<int, nat>, topCities: seq<CityData>)

  /** The count the distribution holds for `level`, 0 when the level has no entry. */
  function CountAt(distribution: map<int, nat>, level: int): nat {
    if level in distribution then distribution[level] else 0
  }

  // ---- Facts about the list operations the store is built from ----------------

  /** The first index with an id exists exactly when the id is held by some record. */
  lemma FindIdIndex(cities: seq<CityData>, id: string)
    ensures FindIndex(cities, HasId(id)).Some? <==> id in IdSet(cities)
  {
    if id in IdSet(cities) {
      var i :| 0 <= i < |cities| && cities[i].id == id;
      assert HasId(id)(cities[i]);
    }
  }

  /** Removing one element keeps unique ids unique. */
  lemma {:induction false} RemoveAtUnique(cities: seq<CityData>, i: nat)
    requires i < |cities| && UniqueIds(cities)
    ensures UniqueIds(cities[..i] + cities[i + 1..])
  {
    var r := cities[..i] + cities[i + 1..];
    forall p, q | 0 <= p < q < |r|
      ensures r[p].id != r[q].id
    {
      var p' := if p < i then p else p + 1;
      var q' := if q < i then q else q + 1;
      assert r[p] == cities[p'] && r[q] == cities[q'];
    }
  }

  /** After removing the only record with `id`, no record has it. */
  lemma {:induction false} RemoveAtDropsId(cities: seq<CityData>, i: nat)
    requires i < |cities| && UniqueIds(cities)
    ensures cities[i].id !in IdSet(cities[..i] + cities[i + 1..])
  {
    var r := cities[..i] + cities[i + 1..];
    forall p | 0 <= p < |r|
      ensures r[p].id != cities[i].id
    {
      var p' := if p < i then p else p + 1;
      assert r[p] == cities[p'];
    }
  }

  /** Overwriting one record with one whose id is new, or the same, keeps ids unique. */
  lemma {:induction false} ReplaceAtUnique(cities: seq<CityData>, i: nat, c: CityData)
    requires i < |cities| && UniqueIds(cities)
    requires c.id == cities[i].id || c.id !in IdSet(cities)
    ensures UniqueIds(cities[i := c])
  {
    var r := cities[i := c];
    forall p, q | 0 <= p < q < |r|
      ensures r[p].id != r[q].id
    {
      if p == i && c.id != cities[i].id {
        assert cities[q].id in IdSet(cities);
      } else if q == i && c.id != cities[i].id {
        assert cities[p].id in IdSet(cities);
      }
    }
  }

  /** Appending a record with a new id keeps ids unique. */
  lemma {:induction false} AppendUnique(cities: seq<CityData>, c: CityData)
    requires UniqueIds(cities) && c.id !in IdSet(cities)
    ensures UniqueIds(cities + [c])
  {
    var r := cities + [c];
    forall p, q | 0 <= p < q < |r|
      ensures r[p].id != r[q].id
    {
      if q == |cities| {
        assert r[p] == cities[p];
        assert cities[p].id in IdSet(cities);
      } else {
        assert r[p] == cities[p] && r[q] == cities[q];
      }
    }
  }

  /** The count the level distribution keeps is the size of the level filter. */
  lemma {:induction false} LevelCount(cities: seq<CityData>, level: int)
    ensures multiset(Map(cities, HeatLevelOf))[level] == |Filter(cities, AtLevel(level))|
  {
    if cities != [] {
      LevelCount(cities[1..], level);
      assert Map(cities, HeatLevelOf) == [cities[0].heatLevel] + Map(cities[1..], HeatLevelOf);
    }
  }

  /** `heatDistribution`: the tally of the records' levels. */
  function Distribution(cities: seq<CityData>): map<int, nat> {
    Tally(Map(cities, HeatLevelOf))
  }

  /** The distribution has an entry exactly for each level in use, holding the size of its filter. */
  lemma DistributionCounts(cities: seq<CityData>)
    ensures forall level :: level in Distribution(cities) <==> exists i :: 0 <= i < |cities| && cities[i].heatLevel == level
    ensures forall level :: level in Distribution(cities) ==> Distribution(cities)[level] == |Filter(cities, AtLevel(level))|
  {
    DistributionKeys(cities);
    forall level | level in Distribution(cities)
      ensures Distribution(cities)[level] == |Filter(cities, AtLevel(level))|
    {
      LevelCount(cities, level);
    }
  }

  /** The levels the distribution has an entry for are the levels in use. */
  lemma DistributionKeys(cities: seq<CityData>)
    ensures forall level :: level in Distribution(cities) <==> exists i :: 0 <= i < |cities| && cities[i].heatLevel == level
  {
    var levels := Map(cities, HeatLevelOf);
    assert Distribution(cities).Keys == set x | x in levels;
    forall level | level in levels
      ensures exists i :: 0 <= i < |cities| && cities[i].heatLevel == level
    {
      var i :| 0 <= i < |levels| && levels[i] == level;
      assert cities[i].heatLevel == level;
    }
    forall i | 0 <= i < |cities|
      ensures cities[i].heatLevel in levels
    {
      assert levels[i] == cities[i].heatLevel;
    }
  }

  /** When every level is one of 1..5, the five level filters together cover the list. */
  lemma {:induction false} LevelFiltersCover(cities: seq<CityData>)
    requires forall i :: 0 <= i < |cities| ==> IsHeatLevel(cities[i].heatLevel)
    ensures |Filter(cities, AtLevel(1))| + |Filter(cities, AtLevel(2))| + |Filter(cities, AtLevel(3))|
      + |Filter(cities, AtLevel(4))| + |Filter(cities, AtLevel(5))| == |cities|
  {
    if cities != [] {
      assert IsHeatLevel(cities[0].heatLevel);
      LevelFiltersCover(cities[1..]);
    }
  }

  /** The level counts of the distribution sum to the number of records. */
  lemma DistributionTotal(cities: seq<CityData>)
    requires forall i :: 0 <= i < |cities| ==> IsHeatLevel(cities[i].heatLevel)
    ensures var d := Distribution(cities);
      CountAt(d, 1) + CountAt(d, 2) + CountAt(d, 3) + CountAt(d, 4) + CountAt(d, 5) == |cities|
  {
    var d := Distribution(cities);
    forall level | 1 <= level <= 5
      ensures CountAt(d, level) == |Filter(cities, AtLevel(level))|
    {
      LevelCount(cities, level);
      if level !in d {
        assert level !in multiset(Map(cities, HeatLevelOf));
      }
    }
    LevelFiltersCover(cities);
  }

  /** In a sorted list, every element of the first `k` beats every later element. */
  lemma PrefixBeatsRest(sorted: seq<CityData>, k: nat)
    requires k <= |sorted| && SortedDescending(sorted, OverallKey)
    ensures forall c, t :: c in sorted[k..] && t in sorted[..k] ==> t.overallHeat >= c.overallHeat
  {
    forall c, t | c in sorted[k..] && t in sorted[..k]
      ensures t.overallHeat >= c.overallHeat
    {
      var p :| 0 <= p < k && sorted[..k][p] == t;
      var q :| 0 <= q < |sorted| - k && sorted[k..][q] == c;
      assert KeyGe(OverallKey(sorted[p]), OverallKey(sorted[k + q]));
    }
  }

  /** The first `k` elements of a sorted array beat every later element. */
  lemma TopPrefix(sorted: seq<CityData>, original: seq<CityData>, k: nat)
    requires k <= |sorted| && SortedDescending(sorted, OverallKey)
    requires multiset(sorted) == multiset(original)
    ensures SortedDescending(sorted[..k], OverallKey)
    ensures multiset(sorted[..k]) <= multiset(original)
    ensures forall c, t :: (c in multiset(original) - multiset(sorted[..k]) && t in sorted[..k]
      ==> t.overallHeat >= c.overallHeat)
  {
    var top, rest := sorted[..k], sorted[k..];
    assert sorted == top + rest;
    assert multiset(original) - multiset(top) == multiset(rest);
    PrefixBeatsRest(sorted, k);
  }

  // ---- The store ------------------------------------------------------------------

  class CityDataService {
    /** The records, in insertion order. */
    var cities: seq<CityData>
    /** The built-in list `resetToDefault` restores. */
    const defaults: seq<CityData>

    /** The store as `loadData` leaves it: the stored list, or the built-in one. */
    constructor (initial: seq<CityData>, builtIn: seq<CityData>)
      ensures cities == initial && defaults == builtIn
    {
      cities := initial;
      defaults := builtIn;
    }

    /** `getAllCities`: a fresh array holding the records, shared with nothing. */
    method GetAllCities() returns (copy: array<CityData>)
      ensures fresh(copy) && copy[..] == cities
    {
      copy := new CityData[|cities|](i requires 0 <= i < |cities| reads this => cities[i]);
    }

    /** `getCityById`: the first record with that id, if any. */
    function GetCityById(id: string): (r: Option<CityData>)
      reads this
      ensures r.Some? <==> id in IdSet(cities)
      ensures r.Some? ==> (r.value.id == id
        && exists i :: 0 <= i < |cities| && cities[i] == r.value && forall j :: 0 <= j < i ==> cities[j].id != id)
    {
      FindIdIndex(cities, id);
      match FindIndex(cities, HasId(id))
      case Some(i) => Some(cities[i])
      case None => None
    }

    /**
     * `addCity`: refused when the id is taken or when the same name is already listed in
     * the same province; otherwise the record is appended.
     */
    method AddCity(city: CityData) returns (ok: bool)
      modifies this
      ensures ok <==> city.id !in IdSet(old(cities)) && !NameTaken(old(cities), city.name, city.province)
      ensures cities == if ok then old(cities) + [city] else old(cities)
      ensures ok ==> GetCityById(city.id) == Some(city)
      ensures UniqueIds(old(cities)) ==> UniqueIds(cities)
    {
      FindIdIndex(cities, city.id);
      if Any(cities, HasId(city.id)) {
        return false;
      }
      if Any(cities, (c: CityData) => c.name == city.name && c.province == city.province) {
        return false;
      }
      if UniqueIds(cities) {
        AppendUnique(cities, city);
      }
      cities := cities + [city];
      ok := true;
      assert cities[|cities| - 1] == city;
    }

    /**
     * `updateCity`: refused when no record has `id`, or when the new record changes the id
     * to one already in use; otherwise the first record with `id` is overwritten.
     */
    method UpdateCity(id: string, updatedCity: CityData) returns (ok: bool)
      modifies this
      ensures match FindIndex(old(cities), HasId(id))
        case None => !ok && cities == old(cities)
        case Some(i) =>
          if updatedCity.id != id && updatedCity.id in IdSet(old(cities)) then !ok && cities == old(cities)
          else ok && cities == old(cities)[i := updatedCity]
      ensures ok <==> id in IdSet(old(cities)) && (updatedCity.id == id || updatedCity.id !in IdSet(old(cities)))
      ensures ok ==> GetCityById(updatedCity.id) == Some(updatedCity)
      ensures UniqueIds(old(cities)) ==> UniqueIds(cities)
    {
      FindIdIndex(cities, id);
      FindIdIndex(cities, updatedCity.id);
      var found := FindIndex(cities, HasId(id));
      if found.None? {
        return false;
      }
      var index := found.value;
      if updatedCity.id != id && Any(cities, HasId(updatedCity.id)) {
        return false;
      }
      if UniqueIds(cities) {
        ReplaceAtUnique(cities, index, updatedCity);
      }
      ghost var before := cities;
      cities := cities[index := updatedCity];
      ok := true;
      assert forall j :: 0 <= j < index ==> before[j].id != id;
      assert forall j :: 0 <= j < index ==> cities[j].id != updatedCity.id by {
        forall j | 0 <= j < index ensures cities[j].id != updatedCity.id {
          assert cities[j] == before[j];
          if updatedCity.id != id {
            assert before[j].id in IdSet(before);
          }
        }
      }
      FindIndexAt(cities, HasId(updatedCity.id), index);
    }

    /** `deleteCity`: the first record with `id` is spliced out; false when there is none. */
    method DeleteCity(id: string) returns (ok: bool)
      modifies this
      ensures match FindIndex(old(cities), HasId(id))
        case None => !ok && cities == old(cities)
        case Some(i) => ok && cities == old(cities)[..i] + old(cities)[i + 1..]
      ensures ok <==> id in IdSet(old(cities))
      ensures UniqueIds(old(cities)) ==> UniqueIds(cities) && id !in IdSet(cities)
    {
      FindIdIndex(cities, id);
      var found := FindIndex(cities, HasId(id));
      if found.None? {
        return false;
      }
      var index := found.value;
      if UniqueIds(cities) {
        RemoveAtUnique(cities, index);
        RemoveAtDropsId(cities, index);
      }
      cities := cities[..index] + cities[index + 1..];
      ok := true;
    }

    /** `updateAllCities`: the list is replaced by a copy of the argument. */
    method UpdateAllCities(newCities: seq<CityData>) returns (ok: bool)
      modifies this
      ensures ok && cities == newCities
    {
      cities := newCities;
      ok := true;
    }

    /** `searchCities`: in order, the records whose name, province or id contains the query. */
    function SearchCities(query: string): (r: seq<CityData>)
      reads this
      ensures IsSubsequence(r, cities)
      ensures forall c :: c in r <==> c in cities && MatchesQuery(c, ToLowerCase(query))
    {
      Filter(cities, MatchQuery(ToLowerCase(query)))
    }

    /** `filterByHeatLevel`: in order, exactly the records at that level. */
    function FilterByHeatLevel(level: int): (r: seq<CityData>)
      reads this
      ensures IsSubsequence(r, cities)
      ensures forall c :: c in r <==> c in cities && c.heatLevel == level
    {
      Filter(cities, AtLevel(level))
    }

    /**
     * `getStatistics` without `averageHeat`: the record count, the per-level counts, and
     * the ten records with the highest overall heat, taken from a sorted copy so that the
     * store's own order is untouched.
     */
    method GetStatistics() returns (s: Statistics)
      ensures s.total == |cities|
      ensures forall level :: level in s.heatDistribution <==> exists i :: 0 <= i < |cities| && cities[i].heatLevel == level
      ensures forall level :: level in s.heatDistribution ==> s.heatDistribution[level] == |FilterByHeatLevel(level)|
      ensures |s.topCities| == if |cities| < 10 then |cities| else 10
      ensures SortedDescending(s.topCities, OverallKey)
      ensures multiset(s.topCities) <= multiset(cities)
      ensures forall c, t :: (c in multiset(cities) - multiset(s.topCities) && t in s.topCities
        ==> t.overallHeat >= c.overallHeat)
    {
      var distribution := Distribution(cities);
      DistributionCounts(cities);
      var copy := new CityData[|cities|](i requires 0 <= i < |cities| reads this => cities[i]);
      assert copy[..] == cities;
      SortDescending(copy, OverallKey);
      var k := if copy.Length < 10 then copy.Length else 10;
      TopPrefix(copy[..], cities, k);
      s := Statistics(|cities|, distribution, copy[..k]);
    }

    /** `resetToDefault`: the built-in list comes back. */
    method ResetToDefault() returns (ok: bool)
      modifies this
      ensures ok && cities == defaults
    {
      cities := defaults;
      ok := true;
    }

    /**
     * `importData` from the parsed JSON (`None` when it did not parse to an array): every
     * record is checked first, and only when all pass does the list become exactly the
     * imported records; otherwise nothing changes.
     */
    method ImportData(parsed: Option<seq<ImportedCity>>) returns (ok: bool)
      modifies this
      ensures ok <==> parsed.Some? && forall i :: 0 <= i < |parsed.value| ==> HasRequiredFields(parsed.value[i])
      ensures cities == if ok then Map(parsed.value, RecordOf) else old(cities)
    {
      if parsed.None? {
        return false;
      }
      var imported := parsed.value;
      for i := 0 to |imported|
        invariant forall j :: 0 <= j < i ==> HasRequiredFields(imported[j])
      {
        if !HasRequiredFields(imported[i]) {
          return false;
        }
      }
      cities := Map(imported, RecordOf);
      ok := true;
    }
  }
}
