/**
 * The row validator of the batch import component: `smartMatchCity` over the component's
 * own city table, the numeric-field checks, the id counter with its duplicate-id
 * reassignment, and the `validateCityData` loop that turns parsed rows into cities and
 * errors.
 */
module BatchValidation {
  import opened Wrappers
  import opened JsStrings
  import opened Lists
  import opened BatchRecords

  // ---- smartMatchCity -----------------------------------------------------------------

  /** An entry of the component's city table. */
  datatype MatchEntry = MatchEntry(name: string, province: string, aliases: seq<string>)

  /** The municipalities (直辖市). */
  const MatchMunicipalities: seq<MatchEntry> := [
    MatchEntry("北京", "北京市", ["北京市", "Beijing", "Peking"]),
    MatchEntry("上海", "上海市", ["上海市", "Shanghai"]),
    MatchEntry("天津", "天津市", ["天津市", "Tianjin"]),
    MatchEntry("重庆", "重庆市", ["重庆市", "Chongqing"])
  ]

  /** Provincial capitals (省会城市), part 1. */
  const MatchCapitals1: seq<MatchEntry> := [
    MatchEntry("广州", "广东省", ["广州市", "Guangzhou", "Canton"]),
    MatchEntry("深圳", "广东省", ["深圳市", "Shenzhen"]),
    MatchEntry("杭州", "浙江省", ["杭州市", "Hangzhou"]),
    MatchEntry("南京", "江苏省", ["南京市", "Nanjing", "Nanking"]),
    MatchEntry("武汉", "湖北省", ["武汉市", "Wuhan"]),
    MatchEntry("成都", "四川省", ["成都市", "Chengdu"]),
    MatchEntry("西安", "陕西省", ["西安市", "Xian", "Xi'an"]),
    MatchEntry("郑州", "河南省", ["郑州市", "Zhengzhou"]),
    MatchEntry("济南", "山东省", ["济南市", "Jinan"]),
    MatchEntry("青岛", "山东省", ["青岛市", "Qingdao"])
  ]

  /** Provincial capitals, part 2. */
  const MatchCapitals2: seq<MatchEntry> := [
    MatchEntry("大连", "辽宁省", ["大连市", "Dalian"]),
    MatchEntry("沈阳", "辽宁省", ["沈阳市", "Shenyang"]),
    MatchEntry("长春", "吉林省", ["长春市", "Changchun"]),
    MatchEntry("哈尔滨", "黑龙江省", ["哈尔滨市", "Harbin"]),
    MatchEntry("石家庄", "河北省", ["石家庄市", "Shijiazhuang"]),
    MatchEntry("太原", "山西省", ["太原市", "Taiyuan"]),
    MatchEntry("呼和浩特", "内蒙古自治区", ["呼和浩特市", "Hohhot"]),
    MatchEntry("兰州", "甘肃省", ["兰州市", "Lanzhou"]),
    MatchEntry("西宁", "青海省", ["西宁市", "Xining"]),
    MatchEntry("银川", "宁夏回族自治区", ["银川市", "Yinchuan"])
  ]

  /** Provincial capitals, part 3. */
  const MatchCapitals3: seq<MatchEntry> := [
    MatchEntry("乌鲁木齐", "新疆维吾尔自治区", ["乌鲁木齐市", "Urumqi"]),
    MatchEntry("拉萨", "西藏自治区", ["拉萨市", "Lhasa"]),
    MatchEntry("昆明", "云南省", ["昆明市", "Kunming"]),
    MatchEntry("贵阳", "贵州省", ["贵阳市", "Guiyang"]),
    MatchEntry("南宁", "广西壮族自治区", ["南宁市", "Nanning"]),
    MatchEntry("海口", "海南省", ["海口市", "Haikou"]),
    MatchEntry("福州", "福建省", ["福州市", "Fuzhou"]),
    MatchEntry("南昌", "江西省", ["南昌市", "Nanchang"]),
    MatchEntry("长沙", "湖南省", ["长沙市", "Changsha"]),
    MatchEntry("合肥", "安徽省", ["合肥市", "Hefei"])
  ]

  /** The table in source order. */
  const MatchTable: seq<MatchEntry> := MatchMunicipalities + MatchCapitals1 + MatchCapitals2 + MatchCapitals3

  /** `cityName.trim().replace(/市$/, '')`. */
  function NormalizeCityName(cityName: string): string {
    StripSuffix(Trim(cityName), "市")
  }

  /**
   * `provinceName.trim().replace(/省$|市$|自治区$|特别行政区$/, '')`. The four endings
   * exclude one another, so at most one of them is removed.
   */
  function NormalizeProvince(provinceName: string): string {
    var t := Trim(provinceName);
    if EndsWith(t, "省") then StripSuffix(t, "省")
    else if EndsWith(t, "市") then StripSuffix(t, "市")
    else if EndsWith(t, "自治区") then StripSuffix(t, "自治区")
    else StripSuffix(t, "特别行政区")
  }

  /** The province filter: the normalized province, or "" when none is given. */
  function ProvinceHint(provinceName: Option<string>): string {
    match provinceName
    case Some(p) => NormalizeProvince(p)
    case None => ""
  }

  /** The exact match: the normalized name is the entry's name, or the trimmed name one of its aliases. */
  predicate NameMatches(e: MatchEntry, cityName: string) {
    e.name == NormalizeCityName(cityName) || Trim(cityName) in e.aliases
  }

  function NameMatch(cityName: string): MatchEntry -> bool {
    (e: MatchEntry) => NameMatches(e, cityName)
  }

  /** An exact match whose province contains the province filter. */
  function ProvinceMatch(cityName: string, hint: string): MatchEntry -> bool {
    (e: MatchEntry) => NameMatches(e, cityName) && Includes(e.province, hint)
  }

  /** Some entry is an exact match in the filtered province. */
  predicate HasProvinceMatch(table: seq<MatchEntry>, cityName: string, hint: string) {
    exists e :: e in table && NameMatches(e, cityName) && Includes(e.province, hint)
  }

  /**
   * smartMatchCity: the first exact match; when a province filter is given and some exact
   * match lies in that province, the first such match instead. There is no fuzzy stage.
   */
  function SmartMatch(table: seq<MatchEntry>, cityName: string, provinceName: Option<string>): Option<MatchEntry> {
    var first := Find(table, NameMatch(cityName));
    var hint := ProvinceHint(provinceName);
    if first.Some? && hint != "" then
      var preferred := Find(table, ProvinceMatch(cityName, hint));
      if preferred.Some? then preferred else first
    else first
  }

  /**
   * What smartMatchCity finds: nothing exactly when no entry matches the name; otherwise
   * an entry of the table that matches it, which is the first match lying in the
   * filtered province when there is a filter and such a match, and the first match of
   * the name otherwise.
   */
  lemma SmartMatchMeaning(table: seq<MatchEntry>, cityName: string, provinceName: Option<string>)
    ensures SmartMatch(table, cityName, provinceName).None? <==> forall e :: e in table ==> !NameMatches(e, cityName)
    ensures SmartMatch(table, cityName, provinceName).Some? ==>
      SmartMatch(table, cityName, provinceName).value in table && NameMatches(SmartMatch(table, cityName, provinceName).value, cityName)
    ensures (ProvinceHint(provinceName) != "" && HasProvinceMatch(table, cityName, ProvinceHint(provinceName))
      ==> (SmartMatch(table, cityName, provinceName).Some?
        && Includes(SmartMatch(table, cityName, provinceName).value.province, ProvinceHint(provinceName))
        && SmartMatch(table, cityName, provinceName) == Find(table, ProvinceMatch(cityName, ProvinceHint(provinceName)))))
    ensures (!(ProvinceHint(provinceName) != "" && HasProvinceMatch(table, cityName, ProvinceHint(provinceName)))
      ==> SmartMatch(table, cityName, provinceName) == Find(table, NameMatch(cityName)))
  {
  }

  // ---- Row fields ---------------------------------------------------------------------

  /** `row[key]` is truthy: present and not the empty string. */
  predicate Truthy(row: Row, key: string) {
    key in row && row[key] != ""
  }

  function TruthyIn(row: Row): string -> bool {
    (key: string) => Truthy(row, key)
  }

  /** `row[k1] || row[k2] || ...` when one of them is truthy; `None` when none is. */
  function FirstTruthy(row: Row, keys: seq<string>): Option<string> {
    match FindIndex(keys, TruthyIn(row))
    case Some(i) => Some(row[keys[i]])
    case None => None
  }

  /** The value read is that of the first truthy key, and there is one exactly when some key is truthy. */
  lemma FirstTruthyMeaning(row: Row, keys: seq<string>)
    ensures FirstTruthy(row, keys).None? <==> forall i :: 0 <= i < |keys| ==> !Truthy(row, keys[i])
    ensures FirstTruthy(row, keys).Some? ==> FirstTruthy(row, keys).value != "" && exists i :: (0 <= i < |keys|
      && Truthy(row, keys[i]) && FirstTruthy(row, keys).value == row[keys[i]] && forall j :: 0 <= j < i ==> !Truthy(row, keys[j]))
  {
  }

  const NameKeys: seq<string> := ["name", "城市名称", "city", "City"]
  const ProvinceKeys: seq<string> := ["province", "省份", "Province"]
  const IdKeys: seq<string> := ["id", "ID"]

  // ---- Errors -------------------------------------------------------------------------

  /** The `value` of an error: absent, a cell's text, a parsed number or an id. */
  datatype ErrValue = NoValue | TextValue(text: string) | NumberValue(number: real) | IdValue(id: BatchId)

  datatype ValidationError = ValidationError(row: int, field: string, message: string, value: ErrValue)

  /** The outcome of validating the cities of a CSV file. */
  datatype ImportPreview = ImportPreview(validCities: seq<BatchCity>, errors: seq<ValidationError>, totalRows: nat)

  // ---- Numeric fields -----------------------------------------------------------------

  /** The column names of a field; the first is the one errors are reported under. */
  type Names = s: seq<string> | s != [] witness [""]

  /** A numeric field: the record key it sets and the column names it is read from. */
  datatype NumericField = NumericField(key: string, names: Names)

  const NumericFields: seq<NumericField> := [
    NumericField("lat", ["lat", "纬度", "latitude", "Latitude"]),
    NumericField("lng", ["lng", "经度", "longitude", "Longitude"]),
    NumericField("searchHeat", ["searchHeat", "搜索热度", "search_heat", "Search Heat"]),
    NumericField("travelHeat", ["travelHeat", "旅游热度", "travel_heat", "Travel Heat"]),
    NumericField("economicHeat", ["economicHeat", "经济热度", "economic_heat", "Economic Heat"]),
    NumericField("population", ["population", "人口", "Population"]),
    NumericField("gdp", ["gdp", "GDP", "Gdp"])
  ]

  /** The fields whose negative values are rejected: the keys containing "Heat". */
  predicate IsHeatKey(key: string) {
    Includes(key, "Heat")
  }

  /** No two fields set the same key. */
  predicate DistinctKeys(fields: seq<NumericField>) {
    forall i, j :: 0 <= i < j < |fields| ==> fields[i].key != fields[j].key
  }

  lemma NumericKeysDistinct()
    ensures DistinctKeys(NumericFields)
  {
  }

  /** The number reader the field checks use; `BatchConfig` gives it `parseFloat`. */
  type Parser = string -> Option<real>

  datatype FieldOutcome = Unset | Stored(number: real) | Rejected(error: ValidationError)

  /**
   * One numeric field of a row: nothing when no column of the field is truthy, an error
   * under the field's first name when the value is not a number, or when it is negative
   * and the field is a heat; otherwise the parsed number is stored.
   */
  function CheckField(parse: Parser, row: Row, rowNumber: int, field: NumericField): FieldOutcome {
    match FirstTruthy(row, field.names)
    case None => Unset
    case Some(text) =>
      match parse(text)
      case None =>
        Rejected(ValidationError(rowNumber, field.names[0], field.names[0] + " 必须是有效数字", TextValue(text)))
      case Some(x) =>
        if IsHeatKey(field.key) && x < 0.0 then
          Rejected(ValidationError(rowNumber, field.names[0], field.names[0] + " 不能为负数", NumberValue(x)))
        else Stored(x)
  }

  function CheckFieldIn(parse: Parser, row: Row, rowNumber: int): NumericField -> FieldOutcome {
    (field: NumericField) => CheckField(parse, row, rowNumber, field)
  }

  /**
   * The three outcomes of a field: unset exactly when no column is truthy; stored exactly
   * when the first truthy value parses and is not a negative heat, as the parsed number;
   * otherwise an error on this row under the field's first name.
   */
  lemma CheckFieldCases(parse: Parser, row: Row, rowNumber: int, field: NumericField)
    ensures CheckField(parse, row, rowNumber, field).Unset? <==> FirstTruthy(row, field.names).None?
    ensures CheckField(parse, row, rowNumber, field).Stored? <==> (FirstTruthy(row, field.names).Some?
      && parse(FirstTruthy(row, field.names).value).Some?
      && !(IsHeatKey(field.key) && parse(FirstTruthy(row, field.names).value).value < 0.0))
    ensures CheckField(parse, row, rowNumber, field).Stored? ==>
      Some(CheckField(parse, row, rowNumber, field).number) == parse(FirstTruthy(row, field.names).value)
    ensures CheckField(parse, row, rowNumber, field).Rejected? ==>
      CheckField(parse, row, rowNumber, field).error.row == rowNumber
      && CheckField(parse, row, rowNumber, field).error.field == field.names[0]
  {
  }

  /** A negative latitude, longitude, population or GDP is stored: only heats must be non-negative. */
  lemma NegativeKeptUnlessHeat(parse: Parser, row: Row, rowNumber: int, field: NumericField, x: real)
    requires !IsHeatKey(field.key)
    requires FirstTruthy(row, field.names).Some? && parse(FirstTruthy(row, field.names).value) == Some(x)
    ensures CheckField(parse, row, rowNumber, field) == Stored(x)
  {
  }

  /** The numbers a row sets and the errors its numeric fields raise, in field order. */
  datatype FieldsResult = FieldsResult(numbers: map<string, real>, errors: seq<ValidationError>)

  /** One field's outcome applied to what the earlier fields left. */
  function Apply(acc: FieldsResult, key: string, outcome: FieldOutcome): FieldsResult {
    match outcome
    case Unset => acc
    case Stored(x) => FieldsResult(acc.numbers[key := x], acc.errors)
    case Rejected(e) => FieldsResult(acc.numbers, acc.errors + [e])
  }

  /** The outcomes `check` gives the fields, applied in field order. */
  function Fold(fields: seq<NumericField>, check: NumericField -> FieldOutcome): FieldsResult {
    if fields == [] then FieldsResult(map[], [])
    else
      var last := |fields| - 1;
      Apply(Fold(fields[..last], check), fields[last].key, check(fields[last]))
  }

  /** `numericFields.forEach(...)` over a row. */
  function FieldsOf(parse: Parser, row: Row, rowNumber: int, fields: seq<NumericField>): FieldsResult {
    Fold(fields, CheckFieldIn(parse, row, rowNumber))
  }

  /** The keys of the fields whose outcome is a stored number. */
  function StoredKeys(fields: seq<NumericField>, check: NumericField -> FieldOutcome): set<string> {
    set i | 0 <= i < |fields| && check(fields[i]).Stored? :: fields[i].key
  }

  lemma FoldStep(fields: seq<NumericField>, check: NumericField -> FieldOutcome, k: nat)
    requires k < |fields|
    ensures Fold(fields[..k + 1], check) == Apply(Fold(fields[..k], check), fields[k].key, check(fields[k]))
  {
    assert fields[..k + 1][..k] == fields[..k];
  }

  /** Exactly the fields that passed are set (so a field with an error stays unset). */
  lemma {:induction false} FoldKeys(fields: seq<NumericField>, check: NumericField -> FieldOutcome)
    ensures Fold(fields, check).numbers.Keys == StoredKeys(fields, check)
    decreases |fields|
  {
    if fields != [] {
      var last := |fields| - 1;
      var init := fields[..last];
      FoldKeys(init, check);
      var before, after := StoredKeys(init, check), StoredKeys(fields, check);
      forall k | k in after
        ensures k in before || (check(fields[last]).Stored? && k == fields[last].key)
      {
        var i :| 0 <= i < |fields| && check(fields[i]).Stored? && fields[i].key == k;
        if i < last {
          assert init[i] == fields[i];
        }
      }
      forall k | k in before
        ensures k in after
      {
        var i :| 0 <= i < last && check(init[i]).Stored? && init[i].key == k;
        assert init[i] == fields[i];
      }
    }
  }

  /** With distinct keys, each field that passed holds its parsed number. */
  lemma {:induction false} FoldValues(fields: seq<NumericField>, check: NumericField -> FieldOutcome)
    requires DistinctKeys(fields)
    ensures forall i :: 0 <= i < |fields| && check(fields[i]).Stored? ==>
      fields[i].key in Fold(fields, check).numbers && Fold(fields, check).numbers[fields[i].key] == check(fields[i]).number
    decreases |fields|
  {
    if fields != [] {
      var last := |fields| - 1;
      var init := fields[..last];
      FoldValues(init, check);
      forall i | 0 <= i < last && check(fields[i]).Stored?
        ensures fields[i].key in Fold(fields, check).numbers && Fold(fields, check).numbers[fields[i].key] == check(fields[i]).number
      {
        assert init[i] == fields[i];
        assert fields[i].key != fields[last].key;
      }
    }
  }

  /** Every error is the error of one of the fields, and every field's error is there. */
  lemma {:induction false} FoldErrors(fields: seq<NumericField>, check: NumericField -> FieldOutcome)
    ensures forall e :: e in Fold(fields, check).errors <==> exists i :: 0 <= i < |fields| && check(fields[i]) == Rejected(e)
    decreases |fields|
  {
    if fields != [] {
      var last := |fields| - 1;
      var init := fields[..last];
      FoldErrors(init, check);
      forall e | e in Fold(fields, check).errors
        ensures exists i :: 0 <= i < |fields| && check(fields[i]) == Rejected(e)
      {
        if e in Fold(init, check).errors {
          var i :| 0 <= i < last && check(init[i]) == Rejected(e);
          assert init[i] == fields[i];
        } else {
          assert check(fields[last]) == Rejected(e);
        }
      }
      forall e, i | 0 <= i < |fields| && check(fields[i]) == Rejected(e)
        ensures e in Fold(fields, check).errors
      {
        if i < last {
          assert init[i] == fields[i];
        }
      }
    }
  }

  /**
   * What the field checks leave: exactly the fields that passed are set, each to its
   * parsed number (so a field with an error stays unset), nothing else is set, and the
   * errors are exactly the errors of the fields.
   */
  lemma FieldsOfMeaning(parse: Parser, row: Row, rowNumber: int, fields: seq<NumericField>)
    requires DistinctKeys(fields)
    ensures forall i :: 0 <= i < |fields| ==>
      (fields[i].key in FieldsOf(parse, row, rowNumber, fields).numbers <==> CheckField(parse, row, rowNumber, fields[i]).Stored?)
    ensures forall i :: 0 <= i < |fields| && CheckField(parse, row, rowNumber, fields[i]).Stored? ==>
      FieldsOf(parse, row, rowNumber, fields).numbers[fields[i].key] == CheckField(parse, row, rowNumber, fields[i]).number
    ensures forall k :: k in FieldsOf(parse, row, rowNumber, fields).numbers ==> exists i :: 0 <= i < |fields| && fields[i].key == k
    ensures forall e :: e in FieldsOf(parse, row, rowNumber, fields).errors <==>
      exists i :: 0 <= i < |fields| && CheckField(parse, row, rowNumber, fields[i]) == Rejected(e)
  {
    var check := CheckFieldIn(parse, row, rowNumber);
    FoldKeys(fields, check);
    FoldValues(fields, check);
    FoldErrors(fields, check);
    forall i | 0 <= i < |fields| && fields[i].key in StoredKeys(fields, check)
      ensures check(fields[i]).Stored?
    {
      var j :| 0 <= j < |fields| && check(fields[j]).Stored? && fields[j].key == fields[i].key;
      assert j == i;
    }
  }

  /** Every error a row's numeric fields raise is reported on that row, under the first name of one of the fields. */
  lemma FieldErrorsOnRow(parse: Parser, row: Row, rowNumber: int, fields: seq<NumericField>)
    ensures forall e :: e in FieldsOf(parse, row, rowNumber, fields).errors ==>
      e.row == rowNumber && exists i :: 0 <= i < |fields| && e.field == fields[i].names[0]
  {
    var check := CheckFieldIn(parse, row, rowNumber);
    FoldErrors(fields, check);
    forall e | e in FieldsOf(parse, row, rowNumber, fields).errors
      ensures e.row == rowNumber && exists i :: 0 <= i < |fields| && e.field == fields[i].names[0]
    {
      var i :| 0 <= i < |fields| && check(fields[i]) == Rejected(e);
      CheckFieldCases(parse, row, rowNumber, fields[i]);
    }
  }

  /** The per-field loop of the validator, writing each passing field into the record. */
  method ReadNumericFields(parse: Parser, row: Row, rowNumber: int, fields: seq<NumericField>)
    returns (numbers: map<string, real>, errors: seq<ValidationError>)
    ensures FieldsResult(numbers, errors) == FieldsOf(parse, row, rowNumber, fields)
  {
    ghost var check := CheckFieldIn(parse, row, rowNumber);
    numbers, errors := map[], [];
    for k := 0 to |fields|
      invariant FieldsResult(numbers, errors) == Fold(fields[..k], check)
    {
      var field := fields[k];
      FoldStep(fields, check, k);
      var value := FirstTruthy(row, field.names);
      if value.Some? {
        var parsed := parse(value.value);
        if parsed.None? {
          errors := errors + [ValidationError(rowNumber, field.names[0], field.names[0] + " 必须是有效数字", TextValue(value.value))];
        } else if IsHeatKey(field.key) && parsed.value < 0.0 {
          errors := errors + [ValidationError(rowNumber, field.names[0], field.names[0] + " 不能为负数", NumberValue(parsed.value))];
        } else {
          numbers := numbers[field.key := parsed.value];
        }
      }
    }
    assert fields[..|fields|] == fields;
  }

  // ---- The id counter -----------------------------------------------------------------

  /**
   * `Math.max(...cities.map(c => c.id), 0)` over the number ids: at least 0, no smaller
   * than any number id, and either 0 or the id of one of the cities.
   */
  function MaxNumId(cities: seq<BatchCity>): (m: int)
    ensures m >= 0
    ensures forall c :: c in cities && c.id.NumId? ==> c.id.num <= m
    ensures m == 0 || exists c :: c in cities && c.id == NumId(m)
  {
    if cities == [] then 0
    else
      var rest := MaxNumId(cities[1..]);
      assert forall c :: c in cities[1..] ==> c in cities;
      if cities[0].id.NumId? && cities[0].id.num > rest then cities[0].id.num else rest
  }

  /** The first id the counter hands out. */
  function StartCounter(existing: seq<BatchCity>): int {
    MaxNumId(existing) + 1
  }

  function HasId(id: BatchId): BatchCity -> bool {
    (c: BatchCity) => c.id == id
  }

  /** The id is that of an existing city or of a city already accepted from this file. */
  predicate IdTaken(existing: seq<BatchCity>, valid: seq<BatchCity>, id: BatchId) {
    Any(existing, HasId(id)) || Any(valid, HasId(id))
  }

  // ---- One row ------------------------------------------------------------------------

  /** The error of a row without a name; its value is what `row['City']` holds, if anything. */
  function NameError(row: Row, rowNumber: int): ValidationError {
    ValidationError(rowNumber, "城市名称", "城市名称不能为空", if "City" in row then TextValue(row["City"]) else NoValue)
  }

  /** The error of a row whose id is taken. */
  function DuplicateIdError(rowNumber: int, id: BatchId): ValidationError {
    ValidationError(rowNumber, "ID", "ID " + IdText(id) + " 已存在", IdValue(id))
  }

  const UnknownProvince := "未知省份"

  /**
   * `provinceName?.trim() || matchedCity?.province || '未知省份'`: the trimmed province
   * cell unless it is empty, then the matched entry's province unless it is empty, then
   * the unknown-province label; so never empty.
   */
  function ProvinceOf(provinceName: Option<string>, matched: Option<MatchEntry>): (r: string)
    ensures r != ""
    ensures provinceName.Some? && Trim(provinceName.value) != "" ==> r == Trim(provinceName.value)
    ensures (provinceName.None? || Trim(provinceName.value) == "") && matched.Some? && matched.value.province != ""
      ==> r == matched.value.province
    ensures r == UnknownProvince || (provinceName.Some? && r == Trim(provinceName.value)) || (matched.Some? && r == matched.value.province)
  {
    if provinceName.Some? && Trim(provinceName.value) != "" then Trim(provinceName.value)
    else if matched.Some? && matched.value.province != "" then matched.value.province
    else UnknownProvince
  }

  /** What the validator is built from: the match table, the numeric fields and the number reader. */
  datatype Config = Config(table: seq<MatchEntry>, fields: seq<NumericField>, parse: Parser)

  /** The component's own validator. */
  const BatchConfig := Config(MatchTable, NumericFields, ParseFloat)

  /** What the loop carries from row to row: the accepted cities, the errors and the id counter. */
  datatype Progress = Progress(valid: seq<BatchCity>, errors: seq<ValidationError>, counter: int)

  /**
   * A named row once its cells are read: the id is the given `id`/`ID` text or else the
   * next counter value; an id already taken is reported and replaced by the counter value
   * after that; the city is accepted with the fields' numbers, after the fields' errors.
   */
  function AcceptCity(existing: seq<BatchCity>, p: Progress, rowNumber: int, given: Option<string>, name: string,
      province: string, fields: FieldsResult): Progress
  {
    var id := if given.Some? then StrId(given.value) else NumId(p.counter);
    var counter := if given.Some? then p.counter else p.counter + 1;
    var taken := IdTaken(existing, p.valid, id);
    var errors := p.errors + fields.errors + if taken then [DuplicateIdError(rowNumber, id)] else [];
    var city := BatchCity(if taken then NumId(counter) else id, name, province, fields.numbers);
    Progress(p.valid + [city], errors, if taken then counter + 1 else counter)
  }

  /**
   * One row of `validateCityData`: a row without a truthy name cell adds its error and
   * nothing else; otherwise the city is accepted with its trimmed name, the province the
   * province cell or the match gives, and its numeric fields.
   */
  function RowStep(existing: seq<BatchCity>, cfg: Config, p: Progress, row: Row,
      rowNumber: int): Progress
  {
    match FirstTruthy(row, NameKeys)
    case None => Progress(p.valid, p.errors + [NameError(row, rowNumber)], p.counter)
    case Some(cityName) =>
      var provinceName := FirstTruthy(row, ProvinceKeys);
      AcceptCity(existing, p, rowNumber, FirstTruthy(row, IdKeys), Trim(cityName),
        ProvinceOf(provinceName, SmartMatch(cfg.table, cityName, provinceName)), FieldsOf(cfg.parse, row, rowNumber, cfg.fields))
  }

  /** The row step as a function value, for the fold. */
  function StepOf(existing: seq<BatchCity>, cfg: Config): (Progress, Row, int) -> Progress {
    (p: Progress, row: Row, rowNumber: int) => RowStep(existing, cfg, p, row, rowNumber)
  }

  /** `data.forEach(...)` as a fold: the step applied to each row in turn, the first numbered `rowNumber`. */
  function FoldRows(step: (Progress, Row, int) -> Progress, p: Progress, data: seq<Row>, rowNumber: int): Progress
    decreases |data|
  {
    if data == [] then p else FoldRows(step, step(p, data[0], rowNumber), data[1..], rowNumber + 1)
  }

  /** The validator's state before the first row: nothing accepted, no error, the counter at its start. */
  function Initial(existing: seq<BatchCity>): Progress {
    Progress([], [], StartCounter(existing))
  }

  /** `validateCityData`'s loop over the rows, the first of them numbered `startRow`. */
  function ValidateRows(existing: seq<BatchCity>, cfg: Config, data: seq<Row>, startRow: int): Progress {
    FoldRows(StepOf(existing, cfg), Initial(existing), data, startRow)
  }

  /**
   * `validateCityData(data, startRow)` against the cities already loaded, with the city
   * table, the fields and the number reader of `cfg` (the component's own is `BatchConfig`).
   */
  function Validate(existing: seq<BatchCity>, cfg: Config, data: seq<Row>, startRow: int): ImportPreview {
    var p := ValidateRows(existing, cfg, data, startRow);
    ImportPreview(p.valid, p.errors, |data|)
  }

  /** The id assignment and duplicate check of a named row, updating the accepted cities, the errors and the counter. */
  method AcceptRow(existing: seq<BatchCity>, validCities: seq<BatchCity>, errors: seq<ValidationError>, currentId: int,
      rowNumber: int, given: Option<string>, name: string, province: string, numbers: map<string, real>,
      fieldErrors: seq<ValidationError>)
    returns (validCities': seq<BatchCity>, errors': seq<ValidationError>, currentId': int)
    ensures Progress(validCities', errors', currentId')
      == AcceptCity(existing, Progress(validCities, errors, currentId), rowNumber, given, name, province,
        FieldsResult(numbers, fieldErrors))
  {
    currentId' := currentId;
    var id;
    if given.Some? {
      id := StrId(given.value);
    } else {
      id := NumId(currentId');
      currentId' := currentId' + 1;
    }
    errors' := errors + fieldErrors;
    if Any(existing, HasId(id)) || Any(validCities, HasId(id)) {
      errors' := errors' + [DuplicateIdError(rowNumber, id)];
      id := NumId(currentId');
      currentId' := currentId' + 1;
    }
    validCities' := validCities + [BatchCity(id, name, province, numbers)];
  }

  /** The body of `validateCityData`'s `forEach`, updating the accepted cities, the errors and the counter. */
  method ValidateRow(existing: seq<BatchCity>, cfg: Config,
      validCities: seq<BatchCity>, errors: seq<ValidationError>, currentId: int, row: Row, rowNumber: int)
    returns (validCities': seq<BatchCity>, errors': seq<ValidationError>, currentId': int)
    ensures Progress(validCities', errors', currentId')
      == RowStep(existing, cfg, Progress(validCities, errors, currentId), row, rowNumber)
  {
    var cityName := FirstTruthy(row, NameKeys);
    if cityName.None? {
      validCities', errors', currentId' := validCities, errors + [NameError(row, rowNumber)], currentId;
    } else {
      var provinceName := FirstTruthy(row, ProvinceKeys);
      var matched := SmartMatch(cfg.table, cityName.value, provinceName);
      var numbers, fieldErrors := ReadNumericFields(cfg.parse, row, rowNumber, cfg.fields);
      validCities', errors', currentId' := AcceptRow(existing, validCities, errors, currentId, rowNumber,
        FirstTruthy(row, IdKeys), Trim(cityName.value), ProvinceOf(provinceName, matched), numbers, fieldErrors);
    }
  }

  /** The `forEach` of `validateCityData` over every row in turn, the first numbered `startRow`. */
  method ValidateAll(existing: seq<BatchCity>, cfg: Config, data: seq<Row>,
      startRow: int)
    returns (validCities: seq<BatchCity>, errors: seq<ValidationError>, currentId: int)
    ensures Progress(validCities, errors, currentId) == ValidateRows(existing, cfg, data, startRow)
  {
    ghost var step := StepOf(existing, cfg);
    validCities, errors, currentId := [], [], MaxNumId(existing) + 1;
    var rest, rowNumber := data, startRow;
    while rest != []
      invariant FoldRows(step, Progress(validCities, errors, currentId), rest, rowNumber) == ValidateRows(existing, cfg, data, startRow)
    {
      ghost var before := Progress(validCities, errors, currentId);
      validCities, errors, currentId := ValidateRow(existing, cfg, validCities, errors, currentId, rest[0], rowNumber);
      FoldRowsStep(existing, cfg, before, rest, rowNumber);
      rest, rowNumber := rest[1..], rowNumber + 1;
    }
  }

  /** One turn of the fold: the first row's step, then the fold over the others. */
  lemma FoldRowsStep(existing: seq<BatchCity>, cfg: Config, p: Progress, data: seq<Row>, rowNumber: int)
    requires data != []
    ensures FoldRows(StepOf(existing, cfg), p, data, rowNumber)
      == FoldRows(StepOf(existing, cfg), RowStep(existing, cfg, p, data[0], rowNumber), data[1..], rowNumber + 1)
  {
  }

  /** `validateCityData(data, startRow)` against the cities already loaded. */
  method ValidateCityData(existing: seq<BatchCity>, cfg: Config, data: seq<Row>, startRow: int) returns (preview: ImportPreview)
    ensures preview == Validate(existing, cfg, data, startRow)
  {
    var validCities, errors, _ := ValidateAll(existing, cfg, data, startRow);
    preview := ImportPreview(validCities, errors, |data|);
  }

  // ---- What one row does ---------------------------------------------------------------

  /** A row without a truthy name cell adds exactly its name error, and no city. */
  lemma UnnamedRow(existing: seq<BatchCity>, cfg: Config, p: Progress, row: Row, rowNumber: int)
    requires FirstTruthy(row, NameKeys).None?
    ensures RowStep(existing, cfg, p, row, rowNumber) == Progress(p.valid, p.errors + [NameError(row, rowNumber)], p.counter)
    ensures NameError(row, rowNumber).row == rowNumber && NameError(row, rowNumber).field == "城市名称"
  {
  }

  /**
   * A named row adds exactly one city, whatever errors it has: the trimmed name, the
   * province `ProvinceOf` gives, the numbers its fields set; its errors follow the
   * earlier ones, the fields' errors first.
   */
  lemma NamedRow(existing: seq<BatchCity>, cfg: Config, p: Progress, row: Row, rowNumber: int, cityName: string)
    requires FirstTruthy(row, NameKeys) == Some(cityName)
    ensures var q, fields := RowStep(existing, cfg, p, row, rowNumber), FieldsOf(cfg.parse, row, rowNumber, cfg.fields);
      && |q.valid| == |p.valid| + 1 && q.valid[..|p.valid|] == p.valid
      && q.valid[|p.valid|].name == Trim(cityName)
      && q.valid[|p.valid|].province
        == ProvinceOf(FirstTruthy(row, ProvinceKeys), SmartMatch(cfg.table, cityName, FirstTruthy(row, ProvinceKeys)))
      && q.valid[|p.valid|].numbers == fields.numbers
      && q.errors[..|p.errors| + |fields.errors|] == p.errors + fields.errors
  {
    var q := RowStep(existing, cfg, p, row, rowNumber);
    var fields := FieldsOf(cfg.parse, row, rowNumber, cfg.fields);
    assert q.valid[..|p.valid|] == p.valid;
    assert q.errors[..|p.errors| + |fields.errors|] == p.errors + fields.errors;
  }

  /** A name cell of only whitespace is truthy, so its row is accepted, with an empty name. */
  lemma BlankNameAccepted(existing: seq<BatchCity>, cfg: Config, p: Progress, row: Row, rowNumber: int, cityName: string)
    requires FirstTruthy(row, NameKeys) == Some(cityName) && AllWhitespace(cityName)
    ensures |RowStep(existing, cfg, p, row, rowNumber).valid| == |p.valid| + 1
    ensures RowStep(existing, cfg, p, row, rowNumber).valid[|p.valid|].name == ""
  {
    NamedRow(existing, cfg, p, row, rowNumber, cityName);
  }

  /**
   * The id a named row's city gets: the given `id`/`ID` text, or the counter value when
   * there is none; when that id is taken, an `ID` error on the row and the counter value
   * after it instead.
   */
  lemma RowId(existing: seq<BatchCity>, p: Progress, rowNumber: int, given: Option<string>, name: string, province: string,
      fields: FieldsResult)
    ensures var q, id := AcceptCity(existing, p, rowNumber, given, name, province, fields),
      if given.Some? then StrId(given.value) else NumId(p.counter);
      var next := if given.Some? then p.counter else p.counter + 1;
      && (!IdTaken(existing, p.valid, id) ==>
        (q.valid[|p.valid|].id == id && q.counter == next && q.errors == p.errors + fields.errors))
      && (IdTaken(existing, p.valid, id) ==>
        (q.valid[|p.valid|].id == NumId(next) && q.counter == next + 1
        && q.errors == p.errors + fields.errors + [DuplicateIdError(rowNumber, id)]
        && DuplicateIdError(rowNumber, id).field == "ID"))
  {
  }

  // ---- Ids ------------------------------------------------------------------------------

  /**
   * The counter is past every number id in use: that of the existing cities and that of
   * the cities accepted so far; no two accepted cities share an id, and none has the id
   * of an existing city.
   */
  predicate IdsFresh(existing: seq<BatchCity>, p: Progress) {
    && p.counter > MaxNumId(existing)
    && (forall i :: 0 <= i < |p.valid| && p.valid[i].id.NumId? ==> p.valid[i].id.num < p.counter)
    && (forall i, j :: 0 <= i < j < |p.valid| ==> p.valid[i].id != p.valid[j].id)
    && (forall i, c :: 0 <= i < |p.valid| && c in existing ==> p.valid[i].id != c.id)
  }

  /** A number id at or past the counter is not taken. */
  lemma CounterFree(existing: seq<BatchCity>, p: Progress, n: int)
    requires IdsFresh(existing, p) && n >= p.counter
    ensures !IdTaken(existing, p.valid, NumId(n))
  {
  }

  lemma {:induction false} AcceptKeepsIdsFresh(existing: seq<BatchCity>, p: Progress, rowNumber: int, given: Option<string>,
      name: string, province: string, fields: FieldsResult)
    requires IdsFresh(existing, p)
    ensures IdsFresh(existing, AcceptCity(existing, p, rowNumber, given, name, province, fields))
  {
    var q := AcceptCity(existing, p, rowNumber, given, name, province, fields);
    var id := if given.Some? then StrId(given.value) else NumId(p.counter);
    var next := if given.Some? then p.counter else p.counter + 1;
    RowId(existing, p, rowNumber, given, name, province, fields);
    var newId := q.valid[|p.valid|].id;
    if IdTaken(existing, p.valid, id) {
      CounterFree(existing, p, next);
    }
    assert !IdTaken(existing, p.valid, newId);
    assert q.valid == p.valid + [q.valid[|p.valid|]];
  }

  /** Every row keeps the ids fresh. */
  lemma RowKeepsIdsFresh(existing: seq<BatchCity>, cfg: Config, p: Progress, row: Row, rowNumber: int)
    requires IdsFresh(existing, p)
    ensures IdsFresh(existing, RowStep(existing, cfg, p, row, rowNumber))
  {
    match FirstTruthy(row, NameKeys)
    case None =>
    case Some(cityName) =>
      var provinceName := FirstTruthy(row, ProvinceKeys);
      AcceptKeepsIdsFresh(existing, p, rowNumber, FirstTruthy(row, IdKeys), Trim(cityName),
        ProvinceOf(provinceName, SmartMatch(cfg.table, cityName, provinceName)), FieldsOf(cfg.parse, row, rowNumber, cfg.fields));
  }

  lemma {:induction false} FoldKeepsIdsFresh(existing: seq<BatchCity>, cfg: Config, p: Progress, data: seq<Row>, rowNumber: int)
    requires IdsFresh(existing, p)
    ensures IdsFresh(existing, FoldRows(StepOf(existing, cfg), p, data, rowNumber))
    decreases |data|
  {
    if data != [] {
      RowKeepsIdsFresh(existing, cfg, p, data[0], rowNumber);
      FoldKeepsIdsFresh(existing, cfg, RowStep(existing, cfg, p, data[0], rowNumber), data[1..], rowNumber + 1);
    }
  }

  /**
   * The ids of the imported cities never collide: they are pairwise distinct and differ
   * from every existing city's id, and the number ids among them are below the counter.
   */
  lemma ValidatedIdsFresh(existing: seq<BatchCity>, cfg: Config, data: seq<Row>, startRow: int)
    ensures var valid := ValidateRows(existing, cfg, data, startRow).valid;
      && (forall i, j :: 0 <= i < j < |valid| ==> valid[i].id != valid[j].id)
      && (forall i, c :: 0 <= i < |valid| && c in existing ==> valid[i].id != c.id)
  {
    FoldKeepsIdsFresh(existing, cfg, Initial(existing), data, startRow);
  }

  // ---- Rows and errors over the whole file ------------------------------------------

  /** The row has a truthy name cell. */
  predicate HasName(row: Row) {
    FirstTruthy(row, NameKeys).Some?
  }

  predicate LacksName(row: Row) {
    !HasName(row)
  }

  /** The name a named row's city gets. */
  function TrimmedName(row: Row): string {
    match FirstTruthy(row, NameKeys)
    case Some(cityName) => Trim(cityName)
    case None => ""
  }

  function NameOf(c: BatchCity): string {
    c.name
  }

  /** After the rows, the accepted cities are the earlier ones and then one per named row, in row order. */
  lemma {:induction false} FoldNames(existing: seq<BatchCity>, cfg: Config, p: Progress, data: seq<Row>, rowNumber: int)
    ensures Map(FoldRows(StepOf(existing, cfg), p, data, rowNumber).valid, NameOf)
      == Map(p.valid, NameOf) + Map(Filter(data, HasName), TrimmedName)
    decreases |data|
  {
    if data != [] {
      var q := RowStep(existing, cfg, p, data[0], rowNumber);
      FoldNames(existing, cfg, q, data[1..], rowNumber + 1);
      var rest := Filter(data[1..], HasName);
      match FirstTruthy(data[0], NameKeys)
      case None =>
        UnnamedRow(existing, cfg, p, data[0], rowNumber);
      case Some(cityName) =>
        NamedRow(existing, cfg, p, data[0], rowNumber, cityName);
        assert q.valid == p.valid + [q.valid[|p.valid|]];
        MapSnoc(p.valid, q.valid[|p.valid|], NameOf);
        MapAppend([data[0]], rest, TrimmedName);
    }
  }

  /**
   * The accepted cities are exactly one per row with a name, in row order, each with
   * that row's trimmed name; rows without a name give none.
   */
  lemma ValidatedNames(existing: seq<BatchCity>, cfg: Config, data: seq<Row>, startRow: int)
    ensures Map(ValidateRows(existing, cfg, data, startRow).valid, NameOf) == Map(Filter(data, HasName), TrimmedName)
    ensures |ValidateRows(existing, cfg, data, startRow).valid| == Count(data, HasName)
  {
    FoldNames(existing, cfg, Initial(existing), data, startRow);
  }

  /** Every error a row adds is reported on that row. */
  lemma RowErrorsOnRow(existing: seq<BatchCity>, cfg: Config, p: Progress, row: Row, rowNumber: int)
    ensures forall e :: e in RowStep(existing, cfg, p, row, rowNumber).errors ==> e in p.errors || e.row == rowNumber
  {
    FieldErrorsOnRow(cfg.parse, row, rowNumber, cfg.fields);
  }

  lemma {:induction false} FoldErrorRows(existing: seq<BatchCity>, cfg: Config, p: Progress, data: seq<Row>, rowNumber: int)
    ensures forall e :: e in FoldRows(StepOf(existing, cfg), p, data, rowNumber).errors ==>
      e in p.errors || rowNumber <= e.row < rowNumber + |data|
    decreases |data|
  {
    if data != [] {
      RowErrorsOnRow(existing, cfg, p, data[0], rowNumber);
      FoldErrorRows(existing, cfg, RowStep(existing, cfg, p, data[0], rowNumber), data[1..], rowNumber + 1);
    }
  }

  /** Every error names one of the rows: its row number is `startRow` plus the row's index. */
  lemma ValidatedErrorRows(existing: seq<BatchCity>, cfg: Config, data: seq<Row>, startRow: int)
    ensures forall e :: e in ValidateRows(existing, cfg, data, startRow).errors ==> startRow <= e.row < startRow + |data|
  {
    FoldErrorRows(existing, cfg, Initial(existing), data, startRow);
  }

  // ---- Name errors -----------------------------------------------------------------------

  predicate IsNameError(e: ValidationError) {
    e.field == "城市名称"
  }

  /** No numeric field reports its errors under the name column's label. */
  predicate FieldsApartFromName(fields: seq<NumericField>) {
    forall i :: 0 <= i < |fields| ==> fields[i].names[0] != "城市名称"
  }

  lemma NumericFieldsApartFromName()
    ensures FieldsApartFromName(NumericFields)
  {
  }

  lemma NoNameErrors(errors: seq<ValidationError>)
    requires forall e :: e in errors ==> !IsNameError(e)
    ensures Count(errors, IsNameError) == 0
  {
  }

  /** A named row adds no name error; a row without a name adds exactly one. */
  lemma RowNameErrors(existing: seq<BatchCity>, cfg: Config, p: Progress, row: Row, rowNumber: int)
    requires FieldsApartFromName(cfg.fields)
    ensures Count(RowStep(existing, cfg, p, row, rowNumber).errors, IsNameError)
      == Count(p.errors, IsNameError) + if HasName(row) then 0 else 1
  {
    match FirstTruthy(row, NameKeys)
    case None =>
      UnnamedRow(existing, cfg, p, row, rowNumber);
      CountAppend(p.errors, [NameError(row, rowNumber)], IsNameError);
    case Some(cityName) =>
      var provinceName := FirstTruthy(row, ProvinceKeys);
      var given, province := FirstTruthy(row, IdKeys), ProvinceOf(provinceName, SmartMatch(cfg.table, cityName, provinceName));
      var fields := FieldsOf(cfg.parse, row, rowNumber, cfg.fields);
      var id := if given.Some? then StrId(given.value) else NumId(p.counter);
      RowId(existing, p, rowNumber, given, Trim(cityName), province, fields);
      FieldErrorsOnRow(cfg.parse, row, rowNumber, cfg.fields);
      NoNameErrors(fields.errors);
      NoNameErrors([DuplicateIdError(rowNumber, id)]);
      CountAppend(p.errors, fields.errors, IsNameError);
      CountAppend(p.errors + fields.errors, [DuplicateIdError(rowNumber, id)], IsNameError);
  }

  lemma {:induction false} FoldNameErrors(existing: seq<BatchCity>, cfg: Config, p: Progress, data: seq<Row>, rowNumber: int)
    requires FieldsApartFromName(cfg.fields)
    ensures Count(FoldRows(StepOf(existing, cfg), p, data, rowNumber).errors, IsNameError)
      == Count(p.errors, IsNameError) + Count(data, LacksName)
    decreases |data|
  {
    if data != [] {
      var q := RowStep(existing, cfg, p, data[0], rowNumber);
      RowNameErrors(existing, cfg, p, data[0], rowNumber);
      FoldNameErrors(existing, cfg, q, data[1..], rowNumber + 1);
    }
  }

  /**
   * The rows without a name are exactly accounted for: there are as many errors under
   * `城市名称` as such rows, and together with the accepted cities they make up all rows.
   */
  lemma ValidatedNameErrors(existing: seq<BatchCity>, data: seq<Row>, startRow: int)
    ensures Count(Validate(existing, BatchConfig, data, startRow).errors, IsNameError) == Count(data, LacksName)
    ensures |Validate(existing, BatchConfig, data, startRow).validCities| + Count(data, LacksName) == Validate(existing, BatchConfig, data, startRow).totalRows
  {
    NumericFieldsApartFromName();
    FoldNameErrors(existing, BatchConfig, Initial(existing), data, startRow);
    ValidatedNames(existing, BatchConfig, data, startRow);
    NamedSplit(data);
  }

  /** Every row either has a name or lacks one. */
  lemma {:induction false} NamedSplit(data: seq<Row>)
    ensures Count(data, HasName) + Count(data, LacksName) == |data|
    decreases |data|
  {
    if data != [] {
      NamedSplit(data[1..]);
    }
  }
}
