/**
 * City-id generation (src/utils/idGenerator.ts): a city name is turned into a pinyin base
 * id through a fixed table, and a numeric suffix `_1`, `_2`, ... is appended until the id
 * is not taken.
 */
module IdGenerator {
  import opened Wrappers
  import opened JsStrings
  import opened Types
  import opened Lists
  import opened JsObjects

  /** The four municipalities (直辖市). */
  const PinyinMunicipalities: seq<(string, string)> := [
    ("北京", "beijing"), ("上海", "shanghai"), ("天津", "tianjin"), ("重庆", "chongqing")
  ]

  /** Provincial capitals and other large cities (省会城市), part 1. */
  const PinyinCapitals1: seq<(string, string)> := [
    ("广州", "guangzhou"), ("深圳", "shenzhen"), ("成都", "chengdu"), ("杭州", "hangzhou"),
    ("武汉", "wuhan"), ("西安", "xian"), ("苏州", "suzhou"), ("郑州", "zhengzhou"),
    ("南京", "nanjing")
  ]

  /** Provincial capitals and other large cities (省会城市), part 2. */
  const PinyinCapitals2: seq<(string, string)> := [
    ("济南", "jinan"), ("青岛", "qingdao"), ("大连", "dalian"), ("宁波", "ningbo"),
    ("厦门", "xiamen"), ("福州", "fuzhou"), ("沈阳", "shenyang"), ("长沙", "changsha"),
    ("合肥", "hefei")
  ]

  /** Provincial capitals and other large cities (省会城市), part 3. */
  const PinyinCapitals3: seq<(string, string)> := [
    ("南昌", "nanchang"), ("石家庄", "shijiazhuang"), ("太原", "taiyuan"), ("哈尔滨", "haerbin"),
    ("长春", "changchun"), ("昆明", "kunming"), ("南宁", "nanning"), ("贵阳", "guiyang"),
    ("兰州", "lanzhou")
  ]

  /** Provincial capitals and other large cities (省会城市), part 4. */
  const PinyinCapitals4: seq<(string, string)> := [
    ("西宁", "xining"), ("银川", "yinchuan"), ("乌鲁木齐", "wulumuqi"), ("拉萨", "lasa"),
    ("呼和浩特", "huhehaote"), ("海口", "haikou"), ("三亚", "sanya")
  ]

  /** Other cities (其他重要城市), part 1. */
  const PinyinOthers1: seq<(string, string)> := [
    ("无锡", "wuxi"), ("常州", "changzhou"), ("扬州", "yangzhou"), ("徐州", "xuzhou"),
    ("温州", "wenzhou"), ("嘉兴", "jiaxing"), ("金华", "jinhua"), ("绍兴", "shaoxing"),
    ("台州", "taizhou"), ("湖州", "huzhou")
  ]

  /** Other cities (其他重要城市), part 2. */
  const PinyinOthers2: seq<(string, string)> := [
    ("珠海", "zhuhai"), ("佛山", "foshan"), ("东莞", "dongguan"), ("中山", "zhongshan"),
    ("江门", "jiangmen"), ("惠州", "huizhou"), ("汕头", "shantou"), ("潮州", "chaozhou"),
    ("揭阳", "jieyang"), ("梅州", "meizhou")
  ]

  /** Other cities (其他重要城市), part 3. */
  const PinyinOthers3: seq<(string, string)> := [
    ("清远", "qingyuan"), ("韶关", "shaoguan"), ("河源", "heyuan"), ("阳江", "yangjiang"),
    ("茂名", "maoming"), ("湛江", "zhanjiang"), ("肇庆", "zhaoqing"), ("云浮", "yunfu"),
    ("烟台", "yantai"), ("威海", "weihai")
  ]

  /** Other cities (其他重要城市), part 4. */
  const PinyinOthers4: seq<(string, string)> := [
    ("临沂", "linyi"), ("潍坊", "weifang"), ("淄博", "zibo"), ("东营", "dongying"),
    ("济宁", "jining"), ("泰安", "taian"), ("聊城", "liaocheng"), ("德州", "dezhou"),
    ("滨州", "binzhou"), ("菏泽", "heze")
  ]

  /** Other cities (其他重要城市), part 5. */
  const PinyinOthers5: seq<(string, string)> := [
    ("枣庄", "zaozhuang"), ("日照", "rizhao"), ("莱芜", "laiwu"), ("洛阳", "luoyang"),
    ("开封", "kaifeng"), ("安阳", "anyang"), ("新乡", "xinxiang"), ("焦作", "jiaozuo"),
    ("濮阳", "puyang"), ("许昌", "xuchang")
  ]

  /** Other cities (其他重要城市), part 6. */
  const PinyinOthers6: seq<(string, string)> := [
    ("漯河", "luohe"), ("三门峡", "sanmenxia"), ("南阳", "nanyang"), ("商丘", "shangqiu"),
    ("信阳", "xinyang"), ("周口", "zhoukou"), ("驻马店", "zhumadian"), ("鹤壁", "hebi"),
    ("平顶山", "pingdingshan"), ("宜昌", "yichang")
  ]

  /** Other cities (其他重要城市), part 7. */
  const PinyinOthers7: seq<(string, string)> := [
    ("襄阳", "xiangyang"), ("荆州", "jingzhou"), ("黄石", "huangshi"), ("十堰", "shiyan"),
    ("随州", "suizhou"), ("恩施", "enshi"), ("黄冈", "huanggang"), ("咸宁", "xianning"),
    ("荆门", "jingmen"), ("孝感", "xiaogan")
  ]

  /** Other cities (其他重要城市), part 8. */
  const PinyinOthers8: seq<(string, string)> := [
    ("鄂州", "ezhou"), ("仙桃", "xiantao"), ("潜江", "qianjiang"), ("天门", "tianmen"),
    ("神农架", "shennongjia")
  ]

  /** The table after the municipalities, in source order. */
  const PinyinRest: seq<(string, string)> :=
    PinyinCapitals1 + PinyinCapitals2 + PinyinCapitals3 + PinyinCapitals4 + PinyinOthers1 + PinyinOthers2 + PinyinOthers3 + PinyinOthers4 + PinyinOthers5 + PinyinOthers6 + PinyinOthers7 + PinyinOthers8

  /** The name-to-pinyin table in source order, kept in parts small enough for the verifier to index. */
  const PinyinMap: seq<(string, string)> := PinyinMunicipalities + PinyinRest

  predicate IsLowerAlnum(c: char) {
    'a' <= c <= 'z' || '0' <= c <= '9'
  }

  predicate IsIdChar(c: char) {
    IsLowerAlnum(c) || c == '_'
  }

  /** `PINYIN_MAP[key]`: the value stored under `key`, if any. */
  function Lookup(table: seq<(string, string)>, key: string): (r: Option<string>)
    ensures r.Some? <==> exists i :: 0 <= i < |table| && table[i].0 == key
    ensures r.Some? ==> exists i :: 0 <= i < |table| && table[i] == (key, r.value)
  {
    if table == [] then None
    else if table[0].0 == key then Some(table[0].1)
    else Lookup(table[1..], key)
  }

  /** The lookup succeeds and gives a truthy (non-empty) string. */
  predicate Truthy(v: Option<string>) {
    v.Some? && v.value != []
  }

  predicate IsCitySuffixChar(c: char) {
    c == '市' || c == '县' || c == '区'
  }

  /**
   * chineseToPinyin over a given table: the table entry for the name; otherwise the entry
   * for the name with every 市, 县 and 区 removed; otherwise the lower-cased name with
   * everything outside [a-z0-9] removed.
   */
  function PinyinOf(table: seq<(string, string)>, name: string): string {
    var direct := Lookup(table, name);
    if Truthy(direct) then direct.value
    else
      var cleaned := Lookup(table, RemoveWhere(name, IsCitySuffixChar));
      if Truthy(cleaned) then cleaned.value
      else RemoveWhere(ToLowerCase(name), c => !IsLowerAlnum(c))
  }

  /** chineseToPinyin: `PinyinOf` over the city table. */
  function ChineseToPinyin(name: string): string {
    PinyinOf(PinyinMap, name)
  }

  /** The base id: the pinyin, or `city_<now>` when the pinyin is empty. */
  function BaseId(name: string, now: nat): string {
    var pinyin := ChineseToPinyin(name);
    if pinyin == [] then "city_" + NatToString(now) else pinyin
  }

  /** `${baseId}_${counter}`. */
  function Suffixed(base: string, k: nat): string {
    base + "_" + NatToString(k)
  }

  /** Every suffixed id below counter `k` is taken. */
  ghost predicate SuffixesTaken(base: string, k: nat, taken: set<string>) {
    forall j: nat :: 1 <= j < k ==> Suffixed(base, j) in taken
  }

  /**
   * What generateCityId returns for a base id against the taken ids: the base itself when
   * it is free, otherwise the suffixed id with the least k >= 1 that is free.
   */
  ghost predicate IsGeneratedId(id: string, base: string, taken: set<string>) {
    if base !in taken then id == base
    else
      exists k: nat :: k >= 1 && id == Suffixed(base, k) && id !in taken && SuffixesTaken(base, k, taken)
  }

  /** isValidCityId: `/^[a-z0-9_]+$/.test(id) && id.length > 0`, matched character by character. */
  function IsValidCityId(id: string): (r: bool)
    ensures r <==> |id| > 0 && forall i :: 0 <= i < |id| ==> IsIdChar(id[i])
  {
    |id| > 0 && IsIdChar(id[0]) && (|id| == 1 || IsValidCityId(id[1..]))
  }

  /** isCityIdExists: `existingCities.some(city => city.id === id)`. */
  function IsCityIdExists(id: string, existing: seq<CityData>): (r: bool)
    ensures r <==> id in IdSet(existing)
  {
    if existing == [] then false
    else existing[0].id == id || IsCityIdExists(id, existing[1..])
  }

  // ---- Properties of the pinyin step ------------------------------------------

  /** Every name is non-empty, starts outside ASCII and holds none of 市, 县, 区. */
  predicate PinyinKeysWellFormed(table: seq<(string, string)>) {
    forall i :: 0 <= i < |table| ==>
      |table[i].0| > 0 && table[i].0[0] as int > 0x7f
      && forall j :: 0 <= j < |table[i].0| ==> !IsCitySuffixChar(table[i].0[j])
  }

  /** Every pinyin is a non-empty run of lower-case letters and digits. */
  predicate PinyinValuesWellFormed(table: seq<(string, string)>) {
    forall i :: 0 <= i < |table| ==>
      |table[i].1| > 0 && forall j :: 0 <= j < |table[i].1| ==> IsLowerAlnum(table[i].1[j])
  }

  predicate PinyinTableWellFormed(table: seq<(string, string)>) {
    PinyinKeysWellFormed(table) && PinyinValuesWellFormed(table)
  }

  lemma PinyinTableAppend(a: seq<(string, string)>, b: seq<(string, string)>)
    requires PinyinTableWellFormed(a) && PinyinTableWellFormed(b)
    ensures PinyinTableWellFormed(a + b)
  {
    forall i | |a| <= i < |a + b|
      ensures (a + b)[i] == b[i - |a|]
    {
    }
  }

  lemma PinyinMunicipalitiesKeysWellFormed()
    ensures PinyinKeysWellFormed(PinyinMunicipalities)
  {
  }

  lemma PinyinMunicipalitiesValuesWellFormed()
    ensures PinyinValuesWellFormed(PinyinMunicipalities)
  {
  }

  lemma PinyinCapitals1KeysWellFormed()
    ensures PinyinKeysWellFormed(PinyinCapitals1)
  {
  }

  lemma PinyinCapitals1ValuesWellFormed()
    ensures PinyinValuesWellFormed(PinyinCapitals1)
  {
  }

  lemma PinyinCapitals2KeysWellFormed()
    ensures PinyinKeysWellFormed(PinyinCapitals2)
  {
  }

  lemma PinyinCapitals2ValuesWellFormed()
    ensures PinyinValuesWellFormed(PinyinCapitals2)
  {
  }

  lemma PinyinCapitals3KeysWellFormed()
    ensures PinyinKeysWellFormed(PinyinCapitals3)
  {
  }

  lemma PinyinCapitals3ValuesWellFormed()
    ensures PinyinValuesWellFormed(PinyinCapitals3)
  {
  }

  lemma PinyinCapitals4KeysWellFormed()
    ensures PinyinKeysWellFormed(PinyinCapitals4)
  {
  }

  lemma PinyinCapitals4ValuesWellFormed()
    ensures PinyinValuesWellFormed(PinyinCapitals4)
  {
  }

  lemma PinyinOthers1KeysWellFormed()
    ensures PinyinKeysWellFormed(PinyinOthers1)
  {
  }

  lemma PinyinOthers1ValuesWellFormed()
    ensures PinyinValuesWellFormed(PinyinOthers1)
  {
  }

  lemma PinyinOthers2KeysWellFormed()
    ensures PinyinKeysWellFormed(PinyinOthers2)
  {
  }

  lemma PinyinOthers2ValuesWellFormed()
    ensures PinyinValuesWellFormed(PinyinOthers2)
  {
  }

  lemma PinyinOthers3KeysWellFormed()
    ensures PinyinKeysWellFormed(PinyinOthers3)
  {
  }

  lemma PinyinOthers3ValuesWellFormed()
    ensures PinyinValuesWellFormed(PinyinOthers3)
  {
  }

  lemma PinyinOthers4KeysWellFormed()
    ensures PinyinKeysWellFormed(PinyinOthers4)
  {
  }

  lemma PinyinOthers4ValuesWellFormed()
    ensures PinyinValuesWellFormed(PinyinOthers4)
  {
  }

  lemma PinyinOthers5KeysWellFormed()
    ensures PinyinKeysWellFormed(PinyinOthers5)
  {
  }

  lemma PinyinOthers5ValuesWellFormed()
    ensures PinyinValuesWellFormed(PinyinOthers5)
  {
  }

  lemma PinyinOthers6KeysWellFormed()
    ensures PinyinKeysWellFormed(PinyinOthers6)
  {
  }

  lemma PinyinOthers6ValuesWellFormed()
    ensures PinyinValuesWellFormed(PinyinOthers6)
  {
  }

  lemma PinyinOthers7KeysWellFormed()
    ensures PinyinKeysWellFormed(PinyinOthers7)
  {
  }

  lemma PinyinOthers7ValuesWellFormed()
    ensures PinyinValuesWellFormed(PinyinOthers7)
  {
  }

  lemma PinyinOthers8KeysWellFormed()
    ensures PinyinKeysWellFormed(PinyinOthers8)
  {
  }

  lemma PinyinOthers8ValuesWellFormed()
    ensures PinyinValuesWellFormed(PinyinOthers8)
  {
  }

  /** The whole table has the shape of `PinyinTableWellFormed`. */
  lemma PinyinMapWellFormed()
    ensures PinyinTableWellFormed(PinyinMap)
  {
    PinyinMunicipalitiesKeysWellFormed();
    PinyinMunicipalitiesValuesWellFormed();
    PinyinCapitals1KeysWellFormed();
    PinyinCapitals1ValuesWellFormed();
    PinyinCapitals2KeysWellFormed();
    PinyinCapitals2ValuesWellFormed();
    PinyinCapitals3KeysWellFormed();
    PinyinCapitals3ValuesWellFormed();
    PinyinCapitals4KeysWellFormed();
    PinyinCapitals4ValuesWellFormed();
    PinyinOthers1KeysWellFormed();
    PinyinOthers1ValuesWellFormed();
    PinyinOthers2KeysWellFormed();
    PinyinOthers2ValuesWellFormed();
    PinyinOthers3KeysWellFormed();
    PinyinOthers3ValuesWellFormed();
    PinyinOthers4KeysWellFormed();
    PinyinOthers4ValuesWellFormed();
    PinyinOthers5KeysWellFormed();
    PinyinOthers5ValuesWellFormed();
    PinyinOthers6KeysWellFormed();
    PinyinOthers6ValuesWellFormed();
    PinyinOthers7KeysWellFormed();
    PinyinOthers7ValuesWellFormed();
    PinyinOthers8KeysWellFormed();
    PinyinOthers8ValuesWellFormed();
    PinyinTableAppend(PinyinCapitals1, PinyinCapitals2);
    PinyinTableAppend(PinyinCapitals1 + PinyinCapitals2, PinyinCapitals3);
    PinyinTableAppend(PinyinCapitals1 + PinyinCapitals2 + PinyinCapitals3, PinyinCapitals4);
    PinyinTableAppend(PinyinCapitals1 + PinyinCapitals2 + PinyinCapitals3 + PinyinCapitals4, PinyinOthers1);
    PinyinTableAppend(PinyinCapitals1 + PinyinCapitals2 + PinyinCapitals3 + PinyinCapitals4 + PinyinOthers1, PinyinOthers2);
    PinyinTableAppend(PinyinCapitals1 + PinyinCapitals2 + PinyinCapitals3 + PinyinCapitals4 + PinyinOthers1 + PinyinOthers2, PinyinOthers3);
    PinyinTableAppend(PinyinCapitals1 + PinyinCapitals2 + PinyinCapitals3 + PinyinCapitals4 + PinyinOthers1 + PinyinOthers2 + PinyinOthers3, PinyinOthers4);
    PinyinTableAppend(PinyinCapitals1 + PinyinCapitals2 + PinyinCapitals3 + PinyinCapitals4 + PinyinOthers1 + PinyinOthers2 + PinyinOthers3 + PinyinOthers4, PinyinOthers5);
    PinyinTableAppend(PinyinCapitals1 + PinyinCapitals2 + PinyinCapitals3 + PinyinCapitals4 + PinyinOthers1 + PinyinOthers2 + PinyinOthers3 + PinyinOthers4 + PinyinOthers5, PinyinOthers6);
    PinyinTableAppend(PinyinCapitals1 + PinyinCapitals2 + PinyinCapitals3 + PinyinCapitals4 + PinyinOthers1 + PinyinOthers2 + PinyinOthers3 + PinyinOthers4 + PinyinOthers5 + PinyinOthers6, PinyinOthers7);
    PinyinTableAppend(PinyinCapitals1 + PinyinCapitals2 + PinyinCapitals3 + PinyinCapitals4 + PinyinOthers1 + PinyinOthers2 + PinyinOthers3 + PinyinOthers4 + PinyinOthers5 + PinyinOthers6 + PinyinOthers7, PinyinOthers8);
    PinyinTableAppend(PinyinMunicipalities, PinyinRest);
  }

  /** A lookup in a concatenated table searches the first part first. */
  lemma {:induction false} LookupAppend(a: seq<(string, string)>, b: seq<(string, string)>, key: string)
    ensures Lookup(a + b, key) == if Lookup(a, key).Some? then Lookup(a, key) else Lookup(b, key)
    decreases |a|
  {
    if a == [] {
      assert a + b == b;
    } else {
      assert (a + b)[0] == a[0];
      assert (a + b)[1..] == a[1..] + b;
      LookupAppend(a[1..], b, key);
    }
  }

  /** A name that is empty or starts with an ASCII character is not in a well-formed table. */
  lemma AsciiNameNotInTable(table: seq<(string, string)>, name: string)
    requires PinyinKeysWellFormed(table)
    requires name == [] || name[0] as int <= 0x7f
    ensures Lookup(table, name).None?
  {
  }

  /** A name holding 市, 县 or 区 is not in a well-formed table. */
  lemma SuffixedNameNotInTable(table: seq<(string, string)>, name: string, j: int)
    requires PinyinKeysWellFormed(table)
    requires 0 <= j < |name| && IsCitySuffixChar(name[j])
    ensures Lookup(table, name).None?
  {
  }

  /** Over a well-formed table, chineseToPinyin only produces lower-case letters and digits. */
  lemma PinyinOfIsLowerAlnum(table: seq<(string, string)>, name: string)
    requires PinyinValuesWellFormed(table)
    ensures forall j :: 0 <= j < |PinyinOf(table, name)| ==> IsLowerAlnum(PinyinOf(table, name)[j])
  {
    var r := PinyinOf(table, name);
    forall j | 0 <= j < |r|
      ensures IsLowerAlnum(r[j])
    {
      assert r[j] in r;
    }
  }

  /** A name in Latin letters bypasses a well-formed table: it is lower-cased and cleaned. */
  lemma AsciiNamePinyinOf(table: seq<(string, string)>, name: string)
    requires PinyinKeysWellFormed(table)
    requires forall j :: 0 <= j < |name| ==> name[j] as int <= 0x7f
    ensures PinyinOf(table, name) == RemoveWhere(ToLowerCase(name), c => !IsLowerAlnum(c))
  {
    AsciiNameNotInTable(table, name);
    RemoveWhereNone(name, IsCitySuffixChar);
  }

  /** A table name followed by 市, 县 or 区 gets the pinyin of the table name. */
  lemma SuffixedTableNamePinyinOf(table: seq<(string, string)>, name: string, suffix: char)
    requires PinyinTableWellFormed(table)
    requires IsCitySuffixChar(suffix) && Lookup(table, name).Some?
    ensures PinyinOf(table, name + [suffix]) == PinyinOf(table, name)
  {
    var full := name + [suffix];
    SuffixedNameNotInTable(table, full, |name|);
    var i :| 0 <= i < |table| && table[i] == (name, Lookup(table, name).value);
    assert forall c :: c in name ==> !IsCitySuffixChar(c) by {
      forall c | c in name
        ensures !IsCitySuffixChar(c)
      {
        var j :| 0 <= j < |name| && name[j] == c;
        assert table[i].0[j] == c;
      }
    }
    RemoveWhereAppend(name, [suffix], IsCitySuffixChar);
    RemoveWhereNone(name, IsCitySuffixChar);
    assert RemoveWhere([suffix], IsCitySuffixChar) == [];
    assert RemoveWhere(full, IsCitySuffixChar) == name;
    assert Truthy(Lookup(table, name)) by {
      assert |table[i].1| > 0;
    }
  }

  /** chineseToPinyin only ever produces lower-case letters and digits. */
  lemma PinyinIsLowerAlnum(name: string)
    ensures forall j :: 0 <= j < |ChineseToPinyin(name)| ==> IsLowerAlnum(ChineseToPinyin(name)[j])
  {
    PinyinMapWellFormed();
    PinyinOfIsLowerAlnum(PinyinMap, name);
  }

  /** A name in Latin letters bypasses the table: it is lower-cased and cleaned. */
  lemma AsciiNamePinyin(name: string)
    requires forall j :: 0 <= j < |name| ==> name[j] as int <= 0x7f
    ensures ChineseToPinyin(name) == RemoveWhere(ToLowerCase(name), c => !IsLowerAlnum(c))
  {
    PinyinMapWellFormed();
    AsciiNamePinyinOf(PinyinMap, name);
  }

  /** A name already in id form is its own pinyin. */
  lemma LowerAlnumNamePinyin(name: string)
    requires forall j :: 0 <= j < |name| ==> IsLowerAlnum(name[j])
    ensures ChineseToPinyin(name) == name
  {
    AsciiNamePinyin(name);
    assert ToLowerCase(name) == name;
    RemoveWhereNone(name, c => !IsLowerAlnum(c));
  }

  /** A table name followed by 市, 县 or 区 gets the pinyin of the table name. */
  lemma SuffixedTableNamePinyin(name: string, suffix: char)
    requires IsCitySuffixChar(suffix) && Lookup(PinyinMap, name).Some?
    ensures ChineseToPinyin(name + [suffix]) == ChineseToPinyin(name)
  {
    PinyinMapWellFormed();
    SuffixedTableNamePinyinOf(PinyinMap, name, suffix);
  }

  /** A name of a municipality is looked up in the first part of the table. */
  lemma MunicipalityLookup(key: string)
    requires Lookup(PinyinMunicipalities, key).Some?
    ensures Lookup(PinyinMap, key) == Lookup(PinyinMunicipalities, key)
  {
    LookupAppend(PinyinMunicipalities, PinyinRest, key);
  }

  /** Two table lookups the page relies on. */
  lemma KnownPinyin()
    ensures ChineseToPinyin("重庆") == "chongqing"
    ensures ChineseToPinyin("北京市") == "beijing"
  {
    MunicipalityLookup("重庆");
    MunicipalityLookup("北京");
    SuffixedTableNamePinyin("北京", '市');
    assert "北京" + ['市'] == "北京市";
  }

  // ---- Properties of the generated ids ----------------------------------------

  /** The base id always passes isValidCityId. */
  lemma BaseIdIsValid(name: string, now: nat)
    ensures IsValidCityId(BaseId(name, now))
  {
    if ChineseToPinyin(name) == [] {
      FallbackIdIsValid(now);
    } else {
      PinyinIsLowerAlnum(name);
    }
  }

  /** `city_<now>` passes isValidCityId. */
  lemma FallbackIdIsValid(now: nat)
    ensures IsValidCityId("city_" + NatToString(now))
  {
    var id := "city_" + NatToString(now);
    assert forall i :: 0 <= i < 5 ==> IsIdChar(id[i]);
    assert forall i :: 5 <= i < |id| ==> id[i] == NatToString(now)[i - 5];
  }

  /** Appending `_k` to a valid id gives a valid id. */
  lemma SuffixedIsValid(base: string, k: nat)
    requires IsValidCityId(base)
    ensures IsValidCityId(Suffixed(base, k))
  {
  }

  /** Different counters give different ids. */
  lemma SuffixedInjective(base: string, j: nat, k: nat)
    requires Suffixed(base, j) == Suffixed(base, k)
    ensures j == k
  {
    assert Suffixed(base, j)[|base| + 1..] == NatToString(j);
    assert Suffixed(base, k)[|base| + 1..] == NatToString(k);
    NatToStringInjective(j, k);
  }

  /** `IsGeneratedId` determines the id: at most one id fits a base and a set of taken ids. */
  lemma GeneratedIdUnique(a: string, b: string, base: string, taken: set<string>)
    requires IsGeneratedId(a, base, taken) && IsGeneratedId(b, base, taken)
    ensures a == b
  {
    if base in taken {
      var ka: nat :| ka >= 1 && a == Suffixed(base, ka) && a !in taken && SuffixesTaken(base, ka, taken);
      var kb: nat :| kb >= 1 && b == Suffixed(base, kb) && b !in taken && SuffixesTaken(base, kb, taken);
    }
  }

  /** Under the invariant of the search loop, the next candidate has not been tried. */
  lemma NextCandidateUntried(base: string, tried: set<string>, counter: nat)
    requires forall x :: x in tried ==> exists j: nat :: 1 <= j < counter && x == Suffixed(base, j)
    ensures Suffixed(base, counter) !in tried
  {
    forall j: nat | 1 <= j < counter
      ensures Suffixed(base, j) != Suffixed(base, counter)
    {
      if Suffixed(base, j) == Suffixed(base, counter) {
        SuffixedInjective(base, j, counter);
      }
    }
  }

  lemma SuffixesTakenStep(base: string, k: nat, taken: set<string>)
    requires SuffixesTaken(base, k, taken) && Suffixed(base, k) in taken
    ensures SuffixesTaken(base, k + 1, taken)
  {
  }

  lemma SubsetCardinality(a: set<string>, b: set<string>)
    requires a <= b
    ensures |a| <= |b|
  {
    assert b == a + (b - a);
  }

  /**
   * generateCityId: the base id when it is free, otherwise the first free `base_k`. The
   * result is a valid id that no existing city has.
   */
  method GenerateCityId(cityName: string, existing: seq<CityData>, now: nat) returns (id: string)
    ensures IsGeneratedId(id, BaseId(cityName, now), IdSet(existing))
    ensures id !in IdSet(existing) && IsValidCityId(id)
  {
    var baseId := ChineseToPinyin(cityName);
    if |baseId| == 0 {
      baseId := "city_" + NatToString(now);
    }
    BaseIdIsValid(cityName, now);
    id := UniqueId(baseId, existing);
  }

  /**
   * The second half of generateCityId: the base when no existing city has it, otherwise
   * `${baseId}_${counter}` for the first counter from 1 whose id is free.
   */
  method UniqueId(baseId: string, existing: seq<CityData>) returns (id: string)
    ensures IsGeneratedId(id, baseId, IdSet(existing))
    ensures id !in IdSet(existing)
    ensures IsValidCityId(baseId) ==> IsValidCityId(id)
  {
    var existingIds := IdSet(existing);
    if baseId !in existingIds {
      return baseId;
    }
    var counter: nat := 1;
    var uniqueId := Suffixed(baseId, counter);
    ghost var tried: set<string> := {};
    while uniqueId in existingIds
      invariant counter >= 1 && uniqueId == Suffixed(baseId, counter)
      invariant SuffixesTaken(baseId, counter, existingIds)
      invariant tried <= existingIds && |tried| == counter - 1
      invariant forall x :: x in tried ==> exists j: nat :: 1 <= j < counter && x == Suffixed(baseId, j)
      decreases |existingIds| - |tried|
    {
      NextCandidateUntried(baseId, tried, counter);
      SubsetCardinality(tried + {uniqueId}, existingIds);
      SuffixesTakenStep(baseId, counter, existingIds);
      tried := tried + {uniqueId};
      counter := counter + 1;
      uniqueId := Suffixed(baseId, counter);
    }
    if IsValidCityId(baseId) {
      SuffixedIsValid(baseId, counter);
    }
    id := uniqueId;
  }

  /** The placeholder record generateCityIds adds to its working list for every id. */
  function Placeholder(id: string, name: string): (c: CityData)
    ensures c.id == id && c.name == name
  {
    CityData(id, name, "", 0.0, 0.0, 0.0, 0.0, 0.0, 0.0, 1, Some(0.0), None)
  }

  /** The names that occur in `names`. */
  function NameSet(names: seq<string>): set<string> {
    set n | n in names
  }

  /** The base id of the i-th name of a batch, read at time clock(i). */
  function BaseIdAtTurn(clock: nat -> nat): (string, nat) -> string {
    (name: string, i: nat) => BaseId(name, clock(i))
  }

  /** The base ids of a batch. */
  function BaseIds(names: seq<string>, clock: nat -> nat): (bases: seq<string>)
    ensures |bases| == |names|
  {
    MapIndexed(names, BaseIdAtTurn(clock))
  }

  lemma BaseIdsAt(names: seq<string>, clock: nat -> nat, k: nat)
    requires k < |names|
    ensures BaseIds(names, clock)[k] == BaseId(names[k], clock(k))
  {
    MapIndexedAt(names, BaseIdAtTurn(clock), k);
  }

  /**
   * Each of `ids` is what generateCityId gives for its base id at its turn, against the
   * existing ids and the ids handed out before it.
   */
  ghost predicate IdsGenerated(bases: seq<string>, existing: seq<CityData>, ids: seq<string>)
    requires |ids| <= |bases|
    decreases |ids|
  {
    if ids == [] then true
    else
      var k := |ids| - 1;
      IdsGenerated(bases, existing, ids[..k])
      && IsGeneratedId(ids[k], bases[k], IdSet(existing) + NameSet(ids[..k]))
  }

  /** `IdsGenerated` read at one position. */
  lemma {:induction false} IdsGeneratedAt(bases: seq<string>, existing: seq<CityData>, ids: seq<string>, k: nat)
    requires |ids| <= |bases| && IdsGenerated(bases, existing, ids) && k < |ids|
    ensures IsGeneratedId(ids[k], bases[k], IdSet(existing) + NameSet(ids[..k]))
    decreases |ids|
  {
    var last := |ids| - 1;
    var init := ids[..last];
    if k < last {
      assert init[k] == ids[k];
      assert init[..k] == ids[..k];
      IdsGeneratedAt(bases, existing, init, k);
    }
  }

  /** The ids are pairwise distinct, valid, and not taken by an existing city. */
  ghost predicate IdsFresh(existing: seq<CityData>, ids: seq<string>) {
    && (forall k :: 0 <= k < |ids| ==> ids[k] !in IdSet(existing) && IsValidCityId(ids[k]))
    && (forall k, l :: 0 <= k < l < |ids| ==> ids[k] != ids[l])
  }

  /** `result` maps each name of names[..|ids|] to the id of its last occurrence. */
  ghost predicate MapsToLast(names: seq<string>, ids: seq<string>, result: map<string, string>)
    requires |ids| <= |names|
  {
    && result.Keys == NameSet(names[..|ids|])
    && (forall k :: 0 <= k < |ids| && (forall l :: k < l < |ids| ==> names[l] != names[k]) ==>
         result[names[k]] == ids[k])
    && (forall n :: n in result ==> exists k :: 0 <= k < |ids| && names[k] == n && result[n] == ids[k])
  }

  lemma IdsFreshStep(existing: seq<CityData>, ids: seq<string>, id: string)
    requires IdsFresh(existing, ids)
    requires id !in IdSet(existing) + NameSet(ids) && IsValidCityId(id)
    ensures IdsFresh(existing, ids + [id])
  {
    var ids' := ids + [id];
    forall k, l | 0 <= k < l < |ids'|
      ensures ids'[k] != ids'[l]
    {
      if l == |ids| {
        assert ids[k] in NameSet(ids);
      }
    }
  }

  lemma MapsToLastStep(names: seq<string>, ids: seq<string>, result: map<string, string>, id: string)
    requires |ids| < |names| && MapsToLast(names, ids, result)
    ensures MapsToLast(names, ids + [id], result[names[|ids|] := id])
  {
    var i := |ids|;
    var name := names[i];
    var ids' := ids + [id];
    var result' := result[name := id];
    assert names[..i + 1] == names[..i] + [name];
    forall k | 0 <= k < i + 1 && (forall l :: k < l < i + 1 ==> names[l] != names[k])
      ensures result'[names[k]] == ids'[k]
    {
      if k < i {
        assert names[k] != name;
      }
    }
    forall n | n in result'
      ensures exists k :: 0 <= k < i + 1 && names[k] == n && result'[n] == ids'[k]
    {
      if n == name {
        assert names[i] == n && result'[n] == ids'[i];
      } else {
        var k :| 0 <= k < i && names[k] == n && result[n] == ids[k];
        assert ids'[k] == ids[k];
      }
    }
  }

  lemma NameSetAppend(names: seq<string>, n: string)
    ensures NameSet(names + [n]) == NameSet(names) + {n}
  {
  }

  /** The state of generateCityIds after the first |ids| names. */
  ghost predicate BatchState(names: seq<string>, bases: seq<string>, existing: seq<CityData>,
                             ids: seq<string>, result: map<string, string>) {
    |ids| <= |names| == |bases| && IdsGenerated(bases, existing, ids) && IdsFresh(existing, ids)
    && MapsToLast(names, ids, result)
  }

  /** Handling one more name keeps `BatchState`. */
  lemma BatchStep(names: seq<string>, bases: seq<string>, existing: seq<CityData>,
                  ids: seq<string>, result: map<string, string>, taken: set<string>, id: string)
    requires BatchState(names, bases, existing, ids, result) && |ids| < |names|
    requires taken == IdSet(existing) + NameSet(ids)
    requires IsGeneratedId(id, bases[|ids|], taken)
    requires id !in taken && IsValidCityId(id)
    ensures BatchState(names, bases, existing, ids + [id], result[names[|ids|] := id])
  {
    assert (ids + [id])[..|ids|] == ids;
    IdsFreshStep(existing, ids, id);
    MapsToLastStep(names, ids, result, id);
  }

  /** At the end of the batch, `BatchState` gives what generateCityIds promises. */
  lemma BatchDone(names: seq<string>, bases: seq<string>, existing: seq<CityData>,
                  ids: seq<string>, result: map<string, string>)
    requires BatchState(names, bases, existing, ids, result) && |ids| == |names|
    ensures forall i, j :: 0 <= i < j < |ids| ==> ids[i] != ids[j]
    ensures result.Keys == NameSet(names)
    ensures forall i :: 0 <= i < |names| && (forall j :: i < j < |names| ==> names[j] != names[i]) ==>
      result[names[i]] == ids[i]
    ensures forall n :: n in result ==> result[n] !in IdSet(existing) && IsValidCityId(result[n])
    ensures forall m, n :: m in result && n in result && m != n ==> result[m] != result[n]
  {
    assert names[..|ids|] == names;
    forall m, n | m in result && n in result && m != n
      ensures result[m] != result[n]
    {
      var km :| 0 <= km < |ids| && names[km] == m && result[m] == ids[km];
      var kn :| 0 <= kn < |ids| && names[kn] == n && result[n] == ids[kn];
    }
  }

  /**
   * generateCityIds: one id per name, each generated against the existing cities and the
   * ids handed out before it, so all of them are distinct and none is taken; the result
   * maps every name to the id of its last occurrence. `clock(i)` is the time the i-th
   * call reads.
   */
  method GenerateCityIds(cityNames: seq<string>, existing: seq<CityData>, clock: nat -> nat)
    returns (result: map<string, string>, ghost ids: seq<string>)
    ensures |ids| == |cityNames| && IdsGenerated(BaseIds(cityNames, clock), existing, ids)
    ensures forall i, j :: 0 <= i < j < |ids| ==> ids[i] != ids[j]
    ensures result.Keys == NameSet(cityNames)
    ensures forall i :: 0 <= i < |cityNames| && (forall j :: i < j < |cityNames| ==> cityNames[j] != cityNames[i]) ==>
      result[cityNames[i]] == ids[i]
    ensures forall n :: n in result ==> result[n] !in IdSet(existing) && IsValidCityId(result[n])
    ensures forall m, n :: m in result && n in result && m != n ==> result[m] != result[n]
  {
    ghost var bases := BaseIds(cityNames, clock);
    result := map[];
    ids := [];
    var allCities := existing;
    var i := 0;
    while i < |cityNames|
      invariant i == |ids| <= |cityNames|
      invariant BatchState(cityNames, bases, existing, ids, result)
      invariant IdSet(allCities) == IdSet(existing) + NameSet(ids)
    {
      var name := cityNames[i];
      var id := GenerateCityId(name, allCities, clock(i));
      BaseIdsAt(cityNames, clock, i);
      BatchStep(cityNames, bases, existing, ids, result, IdSet(allCities), id);
      IdSetAppend(allCities, Placeholder(id, name));
      NameSetAppend(ids, id);
      result := result[name := id];
      allCities := allCities + [Placeholder(id, name)];
      ids := ids + [id];
      i := i + 1;
    }
    BatchDone(cityNames, bases, existing, ids, result);
  }

  /** When only the base itself is taken, the generated id is base_1. */
  lemma OnlyBaseTaken(base: string, id: string)
    requires IsGeneratedId(id, base, {base})
    ensures id == Suffixed(base, 1)
  {
    assert |Suffixed(base, 1)| > |base|;
    assert SuffixesTaken(base, 1, {base});
    assert IsGeneratedId(Suffixed(base, 1), base, {base});
    GeneratedIdUnique(id, Suffixed(base, 1), base, {base});
  }

  /** Two turns with the same base id against no cities give base, then base_1. */
  lemma SameBaseTwice(bases: seq<string>, ids: seq<string>)
    requires |ids| == 2 == |bases| && bases[0] == bases[1] && IdsGenerated(bases, [], ids)
    ensures ids == [bases[0], Suffixed(bases[0], 1)]
  {
    IdsGeneratedAt(bases, [], ids, 0);
    assert IdSet([]) + NameSet(ids[..0]) == {};
    IdsGeneratedAt(bases, [], ids, 1);
    assert ids[..1] == [bases[0]];
    assert IdSet([]) + NameSet(ids[..1]) == {bases[0]};
    OnlyBaseTaken(bases[0], ids[1]);
  }

  /**
   * Generating ids for the same name twice against no cities: when the name has a pinyin p,
   * the ids are p and then p_1 (for 重庆: chongqing, chongqing_1).
   */
  lemma SameNameTwice(name: string, clock: nat -> nat, ids: seq<string>)
    requires |ids| == 2 && IdsGenerated(BaseIds([name, name], clock), [], ids)
    requires ChineseToPinyin(name) != []
    ensures ids == [ChineseToPinyin(name), Suffixed(ChineseToPinyin(name), 1)]
  {
    BaseIdsAt([name, name], clock, 0);
    BaseIdsAt([name, name], clock, 1);
    SameBaseTwice(BaseIds([name, name], clock), ids);
  }

  /**
   * Two cities with the same name that has a pinyin p (two 重庆, say) get p and then p_1;
   * the map keeps only the second.
   */
  method SameNameTwiceExample(name: string, clock: nat -> nat) returns (result: map<string, string>)
    ensures ChineseToPinyin(name) != [] ==> result == map[name := Suffixed(ChineseToPinyin(name), 1)]
  {
    ghost var ids;
    result, ids := GenerateCityIds([name, name], [], clock);
    if ChineseToPinyin(name) != [] {
      SameNameTwice(name, clock, ids);
      assert NameSet([name, name]) == {name};
      assert result[name] == ids[1];
    }
  }

  /** For 重庆 the suffixed id is chongqing_1. */
  lemma ChongqingTwice()
    ensures ChineseToPinyin("重庆") != [] && Suffixed(ChineseToPinyin("重庆"), 1) == "chongqing_1"
  {
    KnownPinyin();
  }

  // ---- The lookup on the object literal, as written ---------------------------------

  /**
   * What `PINYIN_MAP[key]` reads from the object literal: one of its own strings, or a
   * member inherited from `Object.prototype` (a function, or the prototype itself).
   */
  datatype PinyinValue = Text(text: string) | Inherited(member: string)

  /** `PINYIN_MAP[key]` as written: the own entry, else the inherited member, else undefined. */
  function PlainLookup(table: seq<(string, string)>, key: string): (r: Option<PinyinValue>)
    ensures r.Some? && r.value.Inherited? ==> r.value.member == key && key in PrototypeMembers
    ensures Lookup(table, key).Some? ==> r == Some(Text(Lookup(table, key).value))
  {
    match Lookup(table, key)
    case Some(v) => Some(Text(v))
    case None => if key in PrototypeMembers then Some(Inherited(key)) else None
  }

  /** The truthiness `if (PINYIN_MAP[k])` tests: a non-empty string, or any inherited member. */
  predicate TruthyValue(v: Option<PinyinValue>) {
    v.Some? && (v.value.Inherited? || v.value.text != [])
  }

  /** chineseToPinyin as written, over a given table: the three steps of `PinyinOf` with `PlainLookup`. */
  function PinyinOfAsWritten(table: seq<(string, string)>, name: string): PinyinValue {
    var direct := PlainLookup(table, name);
    if TruthyValue(direct) then direct.value
    else
      var cleaned := PlainLookup(table, RemoveWhere(name, IsCitySuffixChar));
      if TruthyValue(cleaned) then cleaned.value
      else Text(RemoveWhere(ToLowerCase(name), c => !IsLowerAlnum(c)))
  }

  /**
   * The base id of generateCityId as written: `!baseId || baseId.length === 0` replaces an
   * empty string and an inherited function of length 0 by `city_<now>`, and keeps any
   * other inherited member.
   */
  function BaseIdAsWritten(table: seq<(string, string)>, name: string, now: nat): PinyinValue {
    match PinyinOfAsWritten(table, name)
    case Text(p) => Text(if p == [] then "city_" + NatToString(now) else p)
    case Inherited(m) => if m in NullaryMembers then Text("city_" + NatToString(now)) else Inherited(m)
  }

  /**
   * isValidCityId on a value read from the object: the regex tests its string form, and the
   * source text of a member function (`function Object() { [native code] }`) or of the
   * prototype (`[object Object]`) holds a space, so only a valid string passes.
   */
  predicate ValueIsValidId(v: PinyinValue) {
    v.Text? && IsValidCityId(v.text)
  }

  /**
   * generateCityId as written. An inherited base is not a string, so the set of the existing
   * cities' string ids does not hold it, and it is returned as it is; a string base goes
   * through the suffix loop.
   */
  method GenerateCityIdAsWritten(cityName: string, existing: seq<CityData>, now: nat) returns (id: PinyinValue)
    ensures BaseIdAsWritten(PinyinMap, cityName, now).Inherited? ==> id == BaseIdAsWritten(PinyinMap, cityName, now)
    ensures BaseIdAsWritten(PinyinMap, cityName, now).Text? ==>
      id.Text? && IsGeneratedId(id.text, BaseIdAsWritten(PinyinMap, cityName, now).text, IdSet(existing))
      && id.text !in IdSet(existing)
  {
    var baseId := PinyinOfAsWritten(PinyinMap, cityName);
    if (baseId.Text? && |baseId.text| == 0) || (baseId.Inherited? && baseId.member in NullaryMembers) {
      baseId := Text("city_" + NatToString(now));
    }
    if baseId.Inherited? {
      return baseId;
    }
    var unique := UniqueId(baseId.text, existing);
    id := Text(unique);
  }

  /**
   * Away from the inherited names the lookup as written agrees with the own-key lookup;
   * an inherited value only ever comes from the name, or the name less 市/县/区, being
   * one of them.
   */
  lemma PinyinOfAsWrittenAgrees(table: seq<(string, string)>, name: string)
    ensures PinyinOfAsWritten(table, name).Inherited? ==>
      name in PrototypeMembers || RemoveWhere(name, IsCitySuffixChar) in PrototypeMembers
    ensures name !in PrototypeMembers && RemoveWhere(name, IsCitySuffixChar) !in PrototypeMembers ==>
      PinyinOfAsWritten(table, name) == Text(PinyinOf(table, name))
  {
  }

  /** The base ids agree in the same way: as written, off the inherited names, it is `BaseId`. */
  lemma BaseIdAsWrittenAgrees(name: string, now: nat)
    requires name !in PrototypeMembers && RemoveWhere(name, IsCitySuffixChar) !in PrototypeMembers
    ensures BaseIdAsWritten(PinyinMap, name, now) == Text(BaseId(name, now))
  {
    PinyinOfAsWrittenAgrees(PinyinMap, name);
  }

  /** Over a well-formed table an inherited name reads its member as written. */
  lemma InheritedNameAsWritten(table: seq<(string, string)>, name: string)
    requires PinyinKeysWellFormed(table) && name in PrototypeMembers
    ensures PinyinOfAsWritten(table, name) == Inherited(name)
  {
    assert name[0] as int <= 0x7f;
    AsciiNameNotInTable(table, name);
  }

  /** As written, a city named "constructor" gets the `Object` function as its id, which is not a valid id. */
  lemma ConstructorNameAsWritten(now: nat)
    ensures BaseIdAsWritten(PinyinMap, "constructor", now) == Inherited("constructor")
    ensures !ValueIsValidId(BaseIdAsWritten(PinyinMap, "constructor", now))
  {
    PinyinMapWellFormed();
    InheritedNameAsWritten(PinyinMap, "constructor");
  }

  /**
   * An ASCII name whose lower-casing, character by character, is `lower`, a string in id form,
   * gets `lower` from the own-key lookup over a well-formed table.
   */
  lemma AsciiLowerPinyinOf(table: seq<(string, string)>, name: string, lower: string)
    requires PinyinKeysWellFormed(table)
    requires forall j :: 0 <= j < |name| ==> name[j] as int <= 0x7f
    requires |name| == |lower| && forall j :: 0 <= j < |name| ==> LowerChar(name[j]) == lower[j]
    requires forall j :: 0 <= j < |lower| ==> IsLowerAlnum(lower[j])
    ensures PinyinOf(table, name) == lower
  {
    AsciiNamePinyinOf(table, name);
    assert ToLowerCase(name) == lower;
    RemoveWhereNone(lower, c => !IsLowerAlnum(c));
  }

  /** As written, "toString" reads a function of length 0 and falls back to `city_<now>`; the own-key lookup gives "tostring". */
  lemma ToStringNameAsWritten(now: nat)
    ensures BaseIdAsWritten(PinyinMap, "toString", now) == Text("city_" + NatToString(now))
    ensures BaseId("toString", now) == "tostring"
  {
    PinyinMapWellFormed();
    InheritedNameAsWritten(PinyinMap, "toString");
    assert LowerChar('S') == 's';
    AsciiLowerPinyinOf(PinyinMap, "toString", "tostring");
  }

  // ---- The result object of generateCityIds, as written -------------------------------

  /**
   * The own keys of `result` after `result[cityName] = id` for each name in turn, on the
   * plain object literal: a name `__proto__` creates no key.
   */
  function IdMapAsWritten<V>(names: seq<string>, ids: seq<V>): map<string, V>
    requires |names| == |ids|
    decreases |names|
  {
    if names == [] then map[]
    else
      var last := |names| - 1;
      Assign(IdMapAsWritten(names[..last], ids[..last]), names[last], ids[last])
  }

  /** As written, the result has a key for every name except `__proto__`. */
  lemma {:induction false} IdMapAsWrittenKeys<V>(names: seq<string>, ids: seq<V>)
    requires |names| == |ids|
    ensures IdMapAsWritten(names, ids).Keys == NameSet(names) - {ProtoKey}
    decreases |names|
  {
    if names != [] {
      var last := |names| - 1;
      IdMapAsWrittenKeys(names[..last], ids[..last]);
      assert names == names[..last] + [names[last]];
      NameSetAppend(names[..last], names[last]);
    }
  }

  /**
   * A city named `__proto__` gets an id, yet the result object as written has no key for it,
   * where `GenerateCityIds` promises a key for every name.
   */
  lemma ProtoNameAsWritten(id: string)
    ensures IdMapAsWritten([ProtoKey], [id]) == map[]
    ensures IdMapAsWritten([ProtoKey], [id]).Keys != NameSet([ProtoKey])
  {
    assert ProtoKey in NameSet([ProtoKey]);
  }
}
