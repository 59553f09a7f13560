/**
 * The edit rules of the admin table: the id check of the edit form, the list that saving
 * and deleting produce, the search and level filter, and the template of a new city.
 * The component's state (the list, the city being edited, add or edit mode, the filter
 * inputs) is passed in, and the new list is returned instead of being handed to a setter.
 */
module CityDataAdmin {
  import opened Wrappers
  import opened JsStrings
  import opened Lists
  import opened Types
  import opened IdGenerator

  const EmptyIdError := "城市ID不能为空"
  const IdFormatError := "ID只能包含小写字母、数字和下划线"
  const DuplicateIdError := "该ID已存在"

  /** `getNewCityTemplate`: a blank record at level 1 with population 0 and no area. */
  function NewCityTemplate(): (c: CityData)
    ensures c.id == "" && c.name == "" && c.province == ""
    ensures c.heatLevel == 1 && c.population == Some(0.0) && c.area == None
  {
    CityData("", "", "", 0.0, 0.0, 0.0, 0.0, 0.0, 0.0, 1, Some(0.0), None)
  }

  /**
   * `validateId`: an empty id, then a malformed one, then in edit mode an id that is not
   * the edited city's own and is taken, then in add mode a taken id; `None` when it passes.
   */
  function ValidateId(id: string, isAddingNew: bool, editingCity: Option<CityData>, cities: seq<CityData>): Option<string> {
    if id == "" then Some(EmptyIdError)
    else if !IsValidCityId(id) then Some(IdFormatError)
    else if !isAddingNew && editingCity.Some? && id != editingCity.value.id && IsCityIdExists(id, cities) then
      Some(DuplicateIdError)
    else if isAddingNew && IsCityIdExists(id, cities) then Some(DuplicateIdError)
    else None
  }

  /** The id check passes exactly for a well-formed id that is free, or is the edited city's own. */
  lemma ValidateIdMeaning(id: string, isAddingNew: bool, editingCity: Option<CityData>, cities: seq<CityData>)
    ensures ValidateId(id, isAddingNew, editingCity, cities) == None <==>
      IsValidCityId(id)
      && (isAddingNew ==> id !in IdSet(cities))
      && (!isAddingNew && editingCity.Some? && id != editingCity.value.id ==> id !in IdSet(cities))
    ensures id == "" ==> ValidateId(id, isAddingNew, editingCity, cities) == Some(EmptyIdError)
    ensures id != "" && !IsValidCityId(id) ==> ValidateId(id, isAddingNew, editingCity, cities) == Some(IdFormatError)
    ensures IsValidCityId(id) && ValidateId(id, isAddingNew, editingCity, cities).Some? ==>
      ValidateId(id, isAddingNew, editingCity, cities) == Some(DuplicateIdError) && id in IdSet(cities)
  {
  }

  /**
   * The form submits the edited city itself, so in edit mode the id checked is the edited
   * city's own and the duplicate check cannot reject it.
   */
  lemma EditOwnIdPasses(editingCity: CityData, cities: seq<CityData>)
    requires IsValidCityId(editingCity.id)
    ensures ValidateId(editingCity.id, false, Some(editingCity), cities) == None
  {
  }

  /** A fresh template cannot be saved before an id is filled in. */
  lemma TemplateNeedsId(isAddingNew: bool, editingCity: Option<CityData>, cities: seq<CityData>)
    ensures ValidateId(NewCityTemplate().id, isAddingNew, editingCity, cities) == Some(EmptyIdError)
  {
  }

  /** `Math.max` of three heats. */
  function Max3(a: real, b: real, c: real): (m: real)
    ensures m >= a && m >= b && m >= c
    ensures m == a || m == b || m == c
  {
    if a >= b && a >= c then a else if b >= c then b else c
  }

  /**
   * The record `saveCity` stores: the overall heat is the largest of the three heats and
   * the level is computed from it by `heatLevelOf`; an empty id would be replaced by
   * `fallbackId` (a generated id or `city_<timestamp>`).
   */
  function SavedCity(cityData: CityData, heatLevelOf: real -> int, fallbackId: string): CityData {
    var overallHeat := Max3(cityData.searchHeat, cityData.travelHeat, cityData.economicHeat);
    cityData.(overallHeat := overallHeat, heatLevel := heatLevelOf(overallHeat),
      id := if cityData.id != "" then cityData.id else fallbackId)
  }

  /** The id whose records an edit replaces: `editingCity?.id || updatedCity.id`. */
  function ReplacedId(editingCity: Option<CityData>, updated: CityData): string {
    if editingCity.Some? && editingCity.value.id != "" then editingCity.value.id else updated.id
  }

  function ReplaceWith(key: string, updated: CityData): CityData -> CityData {
    (c: CityData) => if c.id == key then updated else c
  }

  /**
   * `saveCity`'s new list: the id error when `validateId` rejects the id (the list is then
   * left as it is); otherwise the saved record appended in add mode, or put in place of
   * every record with the replaced id in edit mode.
   */
  function SaveCity(cityData: CityData, isAddingNew: bool, editingCity: Option<CityData>, cities: seq<CityData>,
                    heatLevelOf: real -> int, fallbackId: string): Result<seq<CityData>, string>
  {
    match ValidateId(cityData.id, isAddingNew, editingCity, cities)
    case Some(error) => Err(error)
    case None =>
      var updated := SavedCity(cityData, heatLevelOf, fallbackId);
      if isAddingNew then Ok(cities + [updated])
      else Ok(Map(cities, ReplaceWith(ReplacedId(editingCity, updated), updated)))
  }

  /**
   * Saving fails exactly when the id check fails. A saved record keeps the submitted id,
   * since an empty one never gets past the check, and carries the largest heat; add mode
   * appends it, edit mode keeps the length and replaces only records with the replaced id.
   */
  lemma SaveCityMeaning(cityData: CityData, isAddingNew: bool, editingCity: Option<CityData>, cities: seq<CityData>,
                        heatLevelOf: real -> int, fallbackId: string)
    ensures var r := SaveCity(cityData, isAddingNew, editingCity, cities, heatLevelOf, fallbackId);
      r.Err? <==> ValidateId(cityData.id, isAddingNew, editingCity, cities).Some?
    ensures var r, updated := SaveCity(cityData, isAddingNew, editingCity, cities, heatLevelOf, fallbackId),
        SavedCity(cityData, heatLevelOf, fallbackId);
      r.Ok? ==>
        updated.id == cityData.id
        && updated.overallHeat == Max3(cityData.searchHeat, cityData.travelHeat, cityData.economicHeat)
        && updated.heatLevel == heatLevelOf(updated.overallHeat)
        && (isAddingNew ==> r.value == cities + [updated])
        && (!isAddingNew ==> (|r.value| == |cities|
            && forall i :: 0 <= i < |cities| ==>
              r.value[i] == (if cities[i].id == ReplacedId(editingCity, updated) then updated else cities[i])))
  {
  }

  /** Editing a city whose id is unique replaces exactly that record and no other. */
  lemma EditReplacesOne(editingCity: CityData, cities: seq<CityData>, k: nat, heatLevelOf: real -> int, fallbackId: string)
    requires UniqueIds(cities) && k < |cities| && cities[k].id == editingCity.id
    requires IsValidCityId(editingCity.id)
    ensures SaveCity(editingCity, false, Some(editingCity), cities, heatLevelOf, fallbackId)
      == Ok(cities[k := SavedCity(editingCity, heatLevelOf, fallbackId)])
  {
    var updated := SavedCity(editingCity, heatLevelOf, fallbackId);
    var r := Map(cities, ReplaceWith(editingCity.id, updated));
    assert ReplacedId(Some(editingCity), updated) == editingCity.id;
    assert r == cities[k := updated];
  }

  function NotId(cityId: string): CityData -> bool {
    (c: CityData) => c.id != cityId
  }

  /** `deleteCity`: when confirmed, every record with the id goes and the rest stay in order. */
  function DeleteCity(cityId: string, confirmed: bool, cities: seq<CityData>): (r: seq<CityData>)
    ensures !confirmed ==> r == cities
    ensures confirmed ==> (IsSubsequence(r, cities)
      && (forall c :: c in r <==> c in cities && c.id != cityId)
      && cityId !in IdSet(r))
  {
    if confirmed then Filter(cities, NotId(cityId)) else cities
  }

  /** The filter of the table: the search term in the name or province, and the chosen level if any. */
  predicate MatchesFilters(city: CityData, searchTerm: string, filterLevel: Option<int>) {
    (Includes(ToLowerCase(city.name), ToLowerCase(searchTerm)) || Includes(ToLowerCase(city.province), ToLowerCase(searchTerm)))
    && (filterLevel.None? || city.heatLevel == filterLevel.value)
  }

  function Matching(searchTerm: string, filterLevel: Option<int>): CityData -> bool {
    (c: CityData) => MatchesFilters(c, searchTerm, filterLevel)
  }

  /** `filteredCities`: in order, the cities that pass both filters; with no input, all of them. */
  function FilteredCities(cities: seq<CityData>, searchTerm: string, filterLevel: Option<int>): (r: seq<CityData>)
    ensures IsSubsequence(r, cities)
    ensures forall c :: c in r <==> c in cities && MatchesFilters(c, searchTerm, filterLevel)
  {
    Filter(cities, Matching(searchTerm, filterLevel))
  }

  /** An empty search term and no level keep the whole list. */
  lemma NoFilterKeepsAll(cities: seq<CityData>)
    ensures FilteredCities(cities, "", None) == cities
  {
    forall i | 0 <= i < |cities|
      ensures MatchesFilters(cities[i], "", None)
    {
      IncludesEmpty(ToLowerCase(cities[i].name));
    }
    FilterKeepsAll(cities, Matching("", None));
  }
}
