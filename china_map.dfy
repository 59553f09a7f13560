/**
 * The data rules of the map view: which cities have usable coordinates, the statistics
 * shown beside the map, the default table of heat bands and the colour of a city's label.
 */
module ChinaMap {
  import opened Wrappers
  import opened Lists
  import opened Types
  import Service

  /** Both coordinates non-zero and within the latitude and longitude ranges. */
  predicate HasValidCoordinates(city: CityData) {
    city.latitude != 0.0 && city.longitude != 0.0
    && -90.0 <= city.latitude <= 90.0 && -180.0 <= city.longitude <= 180.0
  }

  function ValidCoordinates(): CityData -> bool {
    (city: CityData) => HasValidCoordinates(city)
  }

  /**
   * `validCities`: in order, the cities with valid coordinates; a city with a single zero
   * coordinate is dropped as well.
   */
  function ValidCities(cities: seq<CityData>): (r: seq<CityData>)
    ensures IsSubsequence(r, cities)
    ensures forall c :: c in r <==> c in cities && HasValidCoordinates(c)
    ensures forall i :: 0 <= i < |r| ==> (r[i].latitude != 0.0 && r[i].longitude != 0.0
      && -90.0 <= r[i].latitude <= 90.0 && -180.0 <= r[i].longitude <= 180.0)
  {
    Filter(cities, ValidCoordinates())
  }

  function SumOverallHeat(cities: seq<CityData>): real {
    if cities == [] then 0.0 else cities[0].overallHeat + SumOverallHeat(cities[1..])
  }

  datatype MapStats = MapStats(total: nat, validCoordinates: nat, byLevel: map<int, nat>, avgHeat: real)

  /** `stats`: counts over all cities and over the valid ones, and the mean overall heat. */
  function Stats(cities: seq<CityData>): MapStats {
    var valid := ValidCities(cities);
    MapStats(
      |cities|,
      |valid|,
      Service.Distribution(valid),
      if |valid| > 0 then SumOverallHeat(valid) / |valid| as real else 0.0)
  }

  /**
   * The valid cities are at most all cities; `byLevel` has an entry exactly for each level
   * in use among them, holding how many are at it; with no valid city the mean is 0.
   */
  lemma StatsMeaning(cities: seq<CityData>)
    ensures Stats(cities).validCoordinates <= Stats(cities).total
    ensures forall level :: level in Stats(cities).byLevel <==>
      exists i :: 0 <= i < |ValidCities(cities)| && ValidCities(cities)[i].heatLevel == level
    ensures forall level :: level in Stats(cities).byLevel ==>
      Stats(cities).byLevel[level] == Count(ValidCities(cities), Service.AtLevel(level))
    ensures Stats(cities).validCoordinates == 0 ==> Stats(cities).avgHeat == 0.0
  {
    Service.DistributionCounts(ValidCities(cities));
  }

  /** When every valid city has a level 1..5, the five `byLevel` counts add up to `validCoordinates`. */
  lemma StatsByLevelTotal(cities: seq<CityData>)
    requires forall i :: 0 <= i < |cities| ==> IsHeatLevel(cities[i].heatLevel)
    ensures var counts := Stats(cities).byLevel;
      Service.CountAt(counts, 1) + Service.CountAt(counts, 2) + Service.CountAt(counts, 3)
      + Service.CountAt(counts, 4) + Service.CountAt(counts, 5) == Stats(cities).validCoordinates
  {
    var valid := ValidCities(cities);
    forall i | 0 <= i < |valid|
      ensures IsHeatLevel(valid[i].heatLevel)
    {
      assert valid[i] in cities;
    }
    Service.DistributionTotal(valid);
  }

  // ---- Heat bands and marker colours -------------------------------------------------

  /** The upper end of a band's range; the top band is open. */
  datatype Bound = Below(value: real) | Infinity

  /** One entry of the heat level table (`HeatLevel`). */
  datatype HeatBand = HeatBand(level: int, name: string, color: string, lower: real, upper: Bound, description: string)

  /** The table used when no dynamic table is passed in. */
  const DefaultHeatLevels: seq<HeatBand> := [
    HeatBand(5, "超火爆", "#991b1b", 200.0, Infinity, "搜索热度极高，超级热门 (200+)"),
    HeatBand(4, "火爆", "#ef4444", 130.0, Below(200.0), "搜索热度很高，非常热门 (130-200)"),
    HeatBand(3, "人多", "#f59e0b", 60.0, Below(130.0), "搜索热度较高，人气旺盛 (60-130)"),
    HeatBand(2, "一般", "#10b981", 20.0, Below(60.0), "搜索热度一般，适度关注 (20-60)"),
    HeatBand(1, "冷门", "#3b82f6", 0.0, Below(20.0), "搜索热度较低，游客较少 (0-20)")
  ]

  /** `dynamicHeatLevels || default`: a passed-in table is used even when it is empty. */
  function HeatLevels(dynamicHeatLevels: Option<seq<HeatBand>>): seq<HeatBand> {
    dynamicHeatLevels.GetOr(DefaultHeatLevels)
  }

  /**
   * The default table lists levels 5 down to 1 with lower bounds 200, 130, 60, 20 and 0,
   * and each band ends where the band one level higher begins.
   */
  lemma DefaultBands()
    ensures |DefaultHeatLevels| == 5
    ensures forall i :: 0 <= i < 5 ==> DefaultHeatLevels[i].level == 5 - i
    ensures Map(DefaultHeatLevels, (b: HeatBand) => b.lower) == [200.0, 130.0, 60.0, 20.0, 0.0]
    ensures DefaultHeatLevels[0].upper == Infinity
    ensures forall i :: 1 <= i < 5 ==> DefaultHeatLevels[i].upper == Below(DefaultHeatLevels[i - 1].lower)
  {
    var f := (b: HeatBand) => b.lower;
    var t := DefaultHeatLevels;
    assert Map(t, f)[0] == 200.0 && Map(t, f)[1] == 130.0 && Map(t, f)[2] == 60.0;
    assert Map(t, f)[3] == 20.0 && Map(t, f)[4] == 0.0;
  }

  function LevelIs(level: int): HeatBand -> bool {
    (b: HeatBand) => b.level == level
  }

  const FallbackColor := "#6b7280"

  /** The label colour: the colour of the first band at the city's level, unless absent or empty. */
  function MarkerColor(levels: seq<HeatBand>, city: CityData): (color: string)
    ensures color != ""
  {
    match Find(levels, LevelIs(city.heatLevel))
    case Some(band) => if band.color != "" then band.color else FallbackColor
    case None => FallbackColor
  }

  /** A level the table has a band for gets that band's colour; any other level gets the fallback. */
  lemma MarkerColorMeaning(levels: seq<HeatBand>, city: CityData)
    ensures (forall i :: 0 <= i < |levels| ==> levels[i].level != city.heatLevel) ==> MarkerColor(levels, city) == FallbackColor
    ensures forall i :: (0 <= i < |levels| && levels[i].level == city.heatLevel && levels[i].color != ""
      && (forall j :: 0 <= j < i ==> levels[j].level != city.heatLevel)) ==> MarkerColor(levels, city) == levels[i].color
  {
    forall i | 0 <= i < |levels| && levels[i].level == city.heatLevel && levels[i].color != ""
      && (forall j :: 0 <= j < i ==> levels[j].level != city.heatLevel)
      ensures MarkerColor(levels, city) == levels[i].color
    {
      FindIndexAt(levels, LevelIs(city.heatLevel), i);
    }
  }

  /** With the default table every level 1..5 gets its own colour, and other levels grey. */
  lemma DefaultMarkerColors(city: CityData)
    ensures IsHeatLevel(city.heatLevel) ==> MarkerColor(DefaultHeatLevels, city) == DefaultHeatLevels[5 - city.heatLevel].color
    ensures !IsHeatLevel(city.heatLevel) ==> MarkerColor(DefaultHeatLevels, city) == FallbackColor
  {
    DefaultBands();
    MarkerColorMeaning(DefaultHeatLevels, city);
    if IsHeatLevel(city.heatLevel) {
      var i := 5 - city.heatLevel;
      assert DefaultHeatLevels[i].color != "";
      assert forall j :: 0 <= j < i ==> DefaultHeatLevels[j].level != city.heatLevel;
    }
  }
}
