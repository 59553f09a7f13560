/**
 * The records the batch import and export component works on. Its `City` type is not
 * part of this model; what the component does with it fixes the shape used here: an id
 * that is a CSV string or a number from the id counter, a name, a province, and the
 * numeric fields the validator may set (`lat`, `lng`, `searchHeat`, `travelHeat`,
 * `economicHeat`, `population`, `gdp`), kept in a map so that an unset field is absent.
 */
module BatchRecords {
  import opened JsStrings

  /** A city id: the text of an `id`/`ID` cell, or a number handed out by the id counter. */
  datatype BatchId = StrId(text: string) | NumId(num: int)

  /** The id as it appears in text (`${city.id}`, or an element of an array `join`). */
  function IdText(id: BatchId): (r: string)
    ensures id.NumId? ==> |r| >= 1
  {
    match id
    case StrId(t) => t
    case NumId(n) => IntToString(n)
  }

  datatype BatchCity = BatchCity(id: BatchId, name: string, province: string, numbers: map<string, real>)

  /** One parsed CSV data row: header to cell text. */
  type Row = map<string, string>
}
