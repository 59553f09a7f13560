/**
 * The city record every part of the dashboard passes around (the `CityData` interface).
 * Numbers are modelled as reals; the two optional fields are `Option`s.
 */
module Types {
  import opened Wrappers

  datatype CityData = CityData(
    id: string,
    name: string,
    province: string,
    latitude: real,
    longitude: real,
    searchHeat: real,
    travelHeat: real,
    economicHeat: real,
    overallHeat: real,
    heatLevel: int,
    population: Option<real>,
    area: Option<real>)

  /** The heat levels the interface admits (`1 | 2 | 3 | 4 | 5`). */
  predicate IsHeatLevel(level: int) {
    1 <= level <= 5
  }

  /** No two records share an id. */
  predicate UniqueIds(cities: seq<CityData>) {
    forall i, j :: 0 <= i < j < |cities| ==> cities[i].id != cities[j].id
  }

  /** `new Set(cities.map(city => city.id))`. */
  function IdSet(cities: seq<CityData>): set<string> {
    set i | 0 <= i < |cities| :: cities[i].id
  }

  lemma IdSetAppend(cities: seq<CityData>, c: CityData)
    ensures IdSet(cities + [c]) == IdSet(cities) + {c.id}
  {
    var all := cities + [c];
    assert all[|cities|] == c;
    forall id | id in IdSet(cities)
      ensures id in IdSet(all)
    {
      var i :| 0 <= i < |cities| && cities[i].id == id;
      assert all[i] == cities[i];
    }
  }
}
