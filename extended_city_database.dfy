/**
 * The reference geography table and its lookup: `findCityInfo` tries an exact name, then
 * an alias, then the query without one trailing 市, then containment either way, and the
 * name and province listings over the table. The lookups take the table as a parameter;
 * `SampleDatabase` holds the first entries of the built-in table.
 */
module ExtendedCityDatabase {
  import opened Wrappers
  import opened JsStrings
  import opened Lists

  /** An entry; a missing `aliases` array behaves like an empty one in every lookup. */
  datatype ExtendedCityInfo = ExtendedCityInfo(
    name: string,
    province: string,
    latitude: real,
    longitude: real,
    aliases: seq<string>)

  /** The municipalities and the first provincial capitals of `EXTENDED_CITY_DATABASE`. */
  const SampleDatabase: seq<ExtendedCityInfo> := [
    ExtendedCityInfo("北京", "北京市", 39.9042, 116.4074, ["北京市", "京"]),
    ExtendedCityInfo("上海", "上海市", 31.2304, 121.4737, ["上海市", "沪"]),
    ExtendedCityInfo("天津", "天津市", 39.3434, 117.3616, ["天津市", "津"]),
    ExtendedCityInfo("重庆", "重庆市", 29.5647, 106.5507, ["重庆市", "渝"]),
    ExtendedCityInfo("石家庄", "河北省", 38.0428, 114.5149, ["石家庄市"]),
    ExtendedCityInfo("太原", "山西省", 37.8706, 112.5489, ["太原市"]),
    ExtendedCityInfo("呼和浩特", "内蒙古自治区", 40.8414, 111.7519, ["呼和浩特市", "呼市"]),
    ExtendedCityInfo("沈阳", "辽宁省", 41.8057, 123.4315, ["沈阳市"])
  ]

  // ---- The four stages of `findCityInfo` -------------------------------------------

  function NameIs(q: string): ExtendedCityInfo -> bool {
    (c: ExtendedCityInfo) => c.name == q
  }

  function HasAlias(q: string): ExtendedCityInfo -> bool {
    (c: ExtendedCityInfo) => q in c.aliases
  }

  function NameOrAliasIs(q: string): ExtendedCityInfo -> bool {
    (c: ExtendedCityInfo) => c.name == q || q in c.aliases
  }

  /** One of the two strings contains the other. */
  predicate Overlap(a: string, b: string) {
    Includes(a, b) || Includes(b, a)
  }

  function OverlapsWith(q: string): string -> bool {
    (a: string) => Overlap(a, q)
  }

  function Overlaps(q: string): ExtendedCityInfo -> bool {
    (c: ExtendedCityInfo) => Overlap(c.name, q) || Any(c.aliases, OverlapsWith(q))
  }

  /** The query of the third stage: the trimmed query with one trailing 市 removed. */
  function WithoutSuffix(q: string): string {
    StripSuffix(q, "市")
  }

  /**
   * `findCityInfo(cityName)`: `None` for the empty string; otherwise the first entry of
   * the first stage that matches the trimmed query.
   */
  function FindCityInfo(table: seq<ExtendedCityInfo>, cityName: string): (r: Option<ExtendedCityInfo>)
    ensures r.Some? ==> r.value in table
  {
    if cityName == "" then None
    else
      var q := Trim(cityName);
      match Find(table, NameIs(q))
      case Some(c) => Some(c)
      case None =>
        match Find(table, HasAlias(q))
        case Some(c) => Some(c)
        case None =>
          match Find(table, NameOrAliasIs(WithoutSuffix(q)))
          case Some(c) => Some(c)
          case None => Find(table, Overlaps(q))
  }

  /** `c` is the first element of `table` that satisfies `p`. */
  predicate FirstWith(table: seq<ExtendedCityInfo>, p: ExtendedCityInfo -> bool, c: ExtendedCityInfo) {
    exists i :: 0 <= i < |table| && table[i] == c && p(c) && forall j :: 0 <= j < i ==> !p(table[j])
  }

  predicate Matches(table: seq<ExtendedCityInfo>, p: ExtendedCityInfo -> bool) {
    exists i :: 0 <= i < |table| && p(table[i])
  }

  lemma FindFirst(table: seq<ExtendedCityInfo>, p: ExtendedCityInfo -> bool)
    ensures Find(table, p).Some? <==> Matches(table, p)
    ensures Find(table, p).Some? ==> FirstWith(table, p, Find(table, p).value)
  {
    match FindIndex(table, p)
    case Some(i) =>
    case None =>
  }

  /**
   * The stages in their order of precedence: each is tried only when every earlier one
   * found nothing, and returns the first entry it matches; the result is `None` exactly
   * when the query is empty or all four stages miss.
   */
  lemma FindCityInfoStages(table: seq<ExtendedCityInfo>, cityName: string)
    ensures cityName == "" ==> FindCityInfo(table, cityName) == None
    ensures cityName != "" ==>
      var q, r := Trim(cityName), FindCityInfo(table, cityName);
      (Matches(table, NameIs(q)) ==> r.Some? && FirstWith(table, NameIs(q), r.value))
      && (!Matches(table, NameIs(q)) && Matches(table, HasAlias(q)) ==>
          r.Some? && FirstWith(table, HasAlias(q), r.value))
      && (!Matches(table, NameIs(q)) && !Matches(table, HasAlias(q)) && Matches(table, NameOrAliasIs(WithoutSuffix(q))) ==>
          r.Some? && FirstWith(table, NameOrAliasIs(WithoutSuffix(q)), r.value))
      && (!Matches(table, NameIs(q)) && !Matches(table, HasAlias(q)) && !Matches(table, NameOrAliasIs(WithoutSuffix(q)))
          ==> r == Find(table, Overlaps(q)))
      && (r.None? <==> (!Matches(table, NameIs(q)) && !Matches(table, HasAlias(q))
          && !Matches(table, NameOrAliasIs(WithoutSuffix(q))) && !Matches(table, Overlaps(q))))
  {
    if cityName != "" {
      var q := Trim(cityName);
      FindFirst(table, NameIs(q));
      FindFirst(table, HasAlias(q));
      FindFirst(table, NameOrAliasIs(WithoutSuffix(q)));
      FindFirst(table, Overlaps(q));
    }
  }

  /** Every entry has a non-empty name and no empty alias. */
  predicate NamesNonEmpty(table: seq<ExtendedCityInfo>) {
    forall i :: 0 <= i < |table| ==> table[i].name != "" && "" !in table[i].aliases
  }

  /**
   * A query of whitespace only trims to the empty string, which no name or alias equals and
   * every name contains: the containment stage returns the first entry.
   */
  lemma WhitespaceQuery(table: seq<ExtendedCityInfo>, cityName: string)
    requires cityName != "" && AllWhitespace(cityName)
    requires table != [] && NamesNonEmpty(table)
    ensures FindCityInfo(table, cityName) == Some(table[0])
  {
    FindCityInfoStages(table, cityName);
    assert Trim(cityName) == "";
    IncludesEmpty(table[0].name);
    assert Overlaps("")(table[0]);
    FindIndexAt(table, Overlaps(""), 0);
  }

  /** On the built-in table, a blank query finds 北京. */
  lemma WhitespaceQueryFindsBeijing(cityName: string)
    requires cityName != "" && AllWhitespace(cityName)
    ensures FindCityInfo(SampleDatabase, cityName).Some?
    ensures FindCityInfo(SampleDatabase, cityName).value.name == "北京"
  {
    SampleNamesNonEmpty();
    WhitespaceQuery(SampleDatabase, cityName);
  }

  lemma SampleNamesNonEmpty()
    ensures NamesNonEmpty(SampleDatabase)
  {
    var table := SampleDatabase;
    forall i | 0 <= i < |table|
      ensures table[i].name != "" && "" !in table[i].aliases
    {
      assert forall a :: a in table[i].aliases ==> |a| >= 1;
    }
  }

  /** `getAllCityNames`: the names, in table order. */
  function GetAllCityNames(table: seq<ExtendedCityInfo>): (r: seq<string>)
    ensures |r| == |table| && forall i :: 0 <= i < |table| ==> r[i] == table[i].name
  {
    Map(table, (c: ExtendedCityInfo) => c.name)
  }

  function ProvinceOf(c: ExtendedCityInfo): string {
    c.province
  }

  /** `getAllProvinces`: the distinct provinces, sorted. */
  function GetAllProvinces(table: seq<ExtendedCityInfo>): seq<string> {
    SortStrings(Dedup(Map(table, ProvinceOf)))
  }

  /** The province listing is sorted, free of duplicates and holds exactly the table's provinces. */
  lemma GetAllProvincesMeaning(table: seq<ExtendedCityInfo>)
    ensures StringsSorted(GetAllProvinces(table))
    ensures forall i, j :: 0 <= i < j < |GetAllProvinces(table)| ==> GetAllProvinces(table)[i] != GetAllProvinces(table)[j]
    ensures forall p :: p in GetAllProvinces(table) <==> exists i :: 0 <= i < |table| && table[i].province == p
  {
    var provinces := Map(table, ProvinceOf);
    var d := Dedup(provinces);
    var r := SortStrings(d);
    SortStringsSorted(d);
    PermutationDistinct(r, d);
    forall p
      ensures p in r <==> exists i :: 0 <= i < |table| && table[i].province == p
    {
      assert p in r <==> p in multiset(r);
      assert p in d <==> p in provinces;
      if i :| 0 <= i < |table| && table[i].province == p {
        assert provinces[i] == p;
      }
    }
  }

  /** Any sorted list without repeats of exactly the table's provinces is the province listing. */
  lemma GetAllProvincesUnique(table: seq<ExtendedCityInfo>, other: seq<string>)
    requires StringsSorted(other)
    requires forall i, j :: 0 <= i < j < |other| ==> other[i] != other[j]
    requires forall p :: p in other <==> exists i :: 0 <= i < |table| && table[i].province == p
    ensures other == GetAllProvinces(table)
  {
    GetAllProvincesMeaning(table);
    SortedDistinctUnique(other, GetAllProvinces(table));
  }

  /** A rearrangement of a list without repeats has no repeats. */
  lemma PermutationDistinct(r: seq<string>, d: seq<string>)
    requires multiset(r) == multiset(d)
    requires forall i, j :: 0 <= i < j < |d| ==> d[i] != d[j]
    ensures forall i, j :: 0 <= i < j < |r| ==> r[i] != r[j]
  {
    forall i, j | 0 <= i < j < |r|
      ensures r[i] != r[j]
    {
      if r[i] == r[j] {
        var x := r[i];
        assert r == r[..j] + r[j..];
        assert x in r[..j] && x in r[j..] by {
          assert r[..j][i] == x && r[j..][0] == x;
        }
        assert multiset(r)[x] == multiset(r[..j])[x] + multiset(r[j..])[x];
        DistinctOnce(d, x);
      }
    }
  }

  /** In a list without repeats an element occurs at most once. */
  lemma {:induction false} DistinctOnce(s: seq<string>, x: string)
    requires forall i, j :: 0 <= i < j < |s| ==> s[i] != s[j]
    ensures multiset(s)[x] <= 1
  {
    if s != [] {
      var init := s[..|s| - 1];
      DistinctOnce(init, x);
      assert s == init + [s[|s| - 1]];
      if s[|s| - 1] == x {
        assert x !in init;
      }
    }
  }
}
