# China city visualization: a verified model of its data side

This project models the data logic behind the city heat dashboard, in Dafny:

- city records, and how their ids are generated and checked;
- the in-memory city store;
- the CSV batch import and export of the batch-operations panel;
- the reference geography lookup;
- the edit rules of the admin table;
- the heat ranking, filters and statistics of the city data module;
- the map-side data rules: the coordinate filter, the per-level counts, the default level table, the label colour, and the radii of the distance circles.

Values are modelled in Dafny's own terms:

- text is `seq<char>`;
- JavaScript numbers are `real`;
- `String.prototype.trim`, `toLowerCase` (ASCII), `includes`, `split`, `join`, `replace` and `parseFloat`, and `Array.prototype.find`, `filter`, `map`, `some`, `sort` and `new Set` are functions in `JsStrings` and `Lists`, with their own contracts.

The code that changes state in place is imperative Dafny:

- the store is a class, `Service.CityDataService`, whose `cities` field its methods reassign;
- the import panel is a class, `BatchImport.BatchOperations`, holding the preview state. Its `config` constant is the component's validator (its city table, numeric fields and `parseFloat`); the validation functions take that validator as a parameter;
- `getStatistics` sorts its argument array in place;
- the id generator, the row validator, the CSV row builder, the decoding loop and the radii loop are methods with loop invariants.

Each method is proved equal to a specification function, and the properties are proved about that function. The sorts are the exception: `Lists.SortDescending`, and the two `GetStatistics` methods that sort with it, are specified by their output being sorted and a permutation of the input, not by a function.

Modules, one per source file or concern:

- `Wrappers`: Option and Result;
- `JsStrings` and `Lists`: the JavaScript built-ins;
- `Types`: the `CityData` record;
- `JsObjects`: property reads and writes on a plain JavaScript object, with the keys it inherits from `Object.prototype`;
- `IdGenerator`;
- `Service`;
- `BatchRecords`, `BatchCsv`, `BatchValidation` and `BatchImport`: the batch panel;
- `ExtendedCityDatabase`;
- `CityInfoData`;
- `ChinaMap`;
- `CityDataAdmin`;
- `DistanceUtils`.

## Model

| member | source | states |
|---|---|---|
| IdGenerator.Lookup | src/utils/idGenerator.ts:132-134 | `PINYIN_MAP[key]` is found exactly when some table entry has that key, and what is found is that entry's value |
| IdGenerator.PinyinMapWellFormed | src/utils/idGenerator.ts:4-123 | every name in the 113-entry table is non-empty, starts outside ASCII and holds none of 市/县/区; every pinyin is a non-empty run of `[a-z0-9]` |
| IdGenerator.LookupAppend | src/utils/idGenerator.ts:4-123 | a lookup in the table searches its parts in source order, the first part first |
| IdGenerator.KnownPinyin | src/utils/idGenerator.ts:130-143 | 重庆 gets `chongqing`, and 北京市 gets `beijing` by the suffix-stripping retry |
| IdGenerator.SuffixedTableNamePinyin | src/utils/idGenerator.ts:138-143 | a table name followed by 市, 县 or 区 gets the same pinyin as the table name |
| IdGenerator.AsciiNamePinyin | src/utils/idGenerator.ts:147 | a name in ASCII misses the table and becomes the original name lowercased, with everything outside `[a-z0-9]` removed |
| IdGenerator.LowerAlnumNamePinyin | src/utils/idGenerator.ts:147 | a name already made of `[a-z0-9]` is its own pinyin |
| IdGenerator.PinyinIsLowerAlnum | src/utils/idGenerator.ts:130-148 | chineseToPinyin only ever yields lower-case letters and digits |
| IdGenerator.BaseIdIsValid | src/utils/idGenerator.ts:158-163 | the base id (the pinyin, or `city_<now>` when it is empty) always passes isValidCityId |
| IdGenerator.SuffixedIsValid | src/utils/idGenerator.ts:175-179 | `base_k` of a valid base is valid |
| IdGenerator.SuffixedInjective | src/utils/idGenerator.ts:175-179 | different counters give different `base_k`, so the suffix loop never retries an id |
| IdGenerator.GeneratedIdUnique | src/utils/idGenerator.ts:169-182 | "the base if free, else `base_k` for the least free k >= 1" fixes a single id |
| IdGenerator.GenerateCityId | src/utils/idGenerator.ts:156-183 | returns the base id when no existing city has it, otherwise `base_k` for the least k >= 1 that is free; the result is never an existing id and always passes isValidCityId |
| IdGenerator.GenerateCityIds | src/utils/idGenerator.ts:191-216 | each id is what generateCityId gives against the existing cities plus the ids already handed out; the ids are pairwise distinct, valid, disjoint from existing ids; the result maps every name to the id of its last occurrence |
| IdGenerator.OnlyBaseTaken | src/utils/idGenerator.ts:169-179 | when only the base is taken, the generated id is `base_1` |
| IdGenerator.SameBaseTwice | src/utils/idGenerator.ts:191-216 | two turns with the same base against no cities give the base, then `base_1` |
| IdGenerator.SameNameTwice | src/utils/idGenerator.ts:191-216 | the same name twice against no cities gives its pinyin p, then `p_1` |
| IdGenerator.SameNameTwiceExample | src/utils/idGenerator.ts:195-197 | for a name given twice, the result record keeps only the second id `p_1` |
| IdGenerator.ChongqingTwice | src/utils/idGenerator.ts:191-216 | for 重庆 given twice, the second id is `chongqing_1` |
| IdGenerator.UniqueId | src/utils/idGenerator.ts:165-182 | the base when no existing city has it, otherwise `base_k` for the least free k >= 1; never an existing id; valid whenever the base is |
| IdGenerator.PlainLookup | src/utils/idGenerator.ts:132-133 | `PINYIN_MAP[key]` on the object literal: a key with a table entry reads that entry's pinyin; any other value read is the inherited member of the same name |
| IdGenerator.GenerateCityIdAsWritten | src/utils/idGenerator.ts:130-183 | generateCityId over the object literal: an inherited member as base is returned as it is; a string base gets the least free `base_k`, never an existing id |
| IdGenerator.PinyinOfAsWrittenAgrees | src/utils/idGenerator.ts:130-148 | the lookup on the object literal yields an inherited member only when the name, or the name without 市/县/区, is an `Object.prototype` key; off those names it agrees with the own-key `PinyinOf` |
| IdGenerator.BaseIdAsWrittenAgrees | src/utils/idGenerator.ts:158-163 | off the inherited names, the base id on the object literal is `BaseId` |
| IdGenerator.InheritedNameAsWritten | src/utils/idGenerator.ts:130-143 | over a well-formed table, a name that is an `Object.prototype` key reads the inherited member |
| IdGenerator.AsciiLowerPinyinOf | src/utils/idGenerator.ts:147 | an ASCII name whose lower-casing is already in id form gets that lower-casing from the own-key lookup |
| IdGenerator.ConstructorNameAsWritten | src/utils/idGenerator.ts:130-163 | for the name "constructor" the base id is the inherited `Object` function, which is not a valid id |
| IdGenerator.ToStringNameAsWritten | src/utils/idGenerator.ts:130-163 | for the name "toString" the inherited function has length 0, so the base id falls back to `city_<now>`; the own-key lookup gives `tostring` |
| IdGenerator.IdMapAsWrittenKeys | src/utils/idGenerator.ts:192-197 | the result object of generateCityIds has an own key for every name except `__proto__` |
| IdGenerator.ProtoNameAsWritten | src/utils/idGenerator.ts:192-197 | the name `__proto__` gets no key in the result object, so its keys are not the set of names |
| IdGenerator.IsValidCityId | src/utils/idGenerator.ts:223-226 | true exactly for a non-empty id made only of `[a-z0-9_]` |
| IdGenerator.IsCityIdExists | src/utils/idGenerator.ts:234-236 | true exactly when some record has that id |
| Service.CityDataService.constructor | src/services/cityDataService.ts:10-12 | the store starts from the list `loadData` produces (the stored list or the built-in one) |
| Service.CityDataService.GetAllCities | src/services/cityDataService.ts:48-50 | returns a freshly allocated array holding the records in order, so later store changes cannot reach it |
| Service.CityDataService.GetCityById | src/services/cityDataService.ts:53-55 | a record is found exactly when the id is in use, and it is the first record with that id |
| Service.CityDataService.AddCity | src/services/cityDataService.ts:58-77 | succeeds exactly when the id is free and no record has the same name in the same province; on success the record is appended at the end, otherwise the list is unchanged; unique ids stay unique |
| Service.CityDataService.UpdateCity | src/services/cityDataService.ts:80-99 | succeeds exactly when `id` is in use and the new id is `id` or free; then only the first record with `id` is overwritten, otherwise nothing changes; unique ids stay unique |
| Service.CityDataService.DeleteCity | src/services/cityDataService.ts:102-116 | succeeds exactly when the id is in use, removing just the first record with it; otherwise nothing changes; with unique ids, the id is gone afterwards |
| Service.CityDataService.UpdateAllCities | src/services/cityDataService.ts:119-128 | the list becomes exactly the given one |
| Service.CityDataService.SearchCities | src/services/cityDataService.ts:131-138 | keeps, in order, exactly the records whose lowercased name, province or id contains the lowercased query |
| Service.CityDataService.FilterByHeatLevel | src/services/cityDataService.ts:141-143 | keeps, in order, exactly the records at the level |
| Service.CityDataService.GetStatistics | src/services/cityDataService.ts:146-165 | total is the record count; the distribution has an entry exactly for each level in use, holding the size of its filter; the top list has min(n, 10) records from the store, sorted by overallHeat descending, none of them beaten by a record left out; the store is not reordered |
| Service.CityDataService.ResetToDefault | src/services/cityDataService.ts:168-177 | the list becomes the built-in list |
| Service.CityDataService.ImportData | src/services/cityDataService.ts:185-209 | all or nothing: succeeds exactly when the text parsed and every record has a truthy id, name and province and numeric coordinates; then the list is exactly the imported records, otherwise it is unchanged |
| Service.DistributionCounts | src/services/cityDataService.ts:148-151 | the reduce tally has a key exactly for each level in use, holding the number of records at that level |
| Service.DistributionTotal | src/services/cityDataService.ts:148-151 | when every level is in 1..5, the five counts add up to the record count |
| Service.TopPrefix | src/services/cityDataService.ts:155-157 | the first k records of a sorted copy are sorted, drawn from the store, and none of them is beaten by a record left out |
| Lists.SortDescending | src/data/cityData.ts:298-300 | the in-place sort leaves the array sorted descending on its key and a permutation of what it held |
| Lists.Tally | src/services/cityDataService.ts:148-151 | the keys of the tally are exactly the levels that occur, and each maps to its number of occurrences |
| Lists.Dedup | src/data/extendedCityDatabase.ts:267 | `[...new Set(s)]` has exactly the elements of `s`, each once |
| Lists.SortStringsSorted | src/data/extendedCityDatabase.ts:268 | `sort()` on strings yields a sorted list (and, by its contract, a permutation of the input) |
| Lists.SortedDistinctUnique | src/data/extendedCityDatabase.ts:266-268 | two sorted lists without repeats and with the same elements are equal |
| JsStrings.Trim | src/components/BatchOperations.tsx:303-305 | trim yields the empty string exactly for whitespace-only text, and otherwise a string with no whitespace at either end |
| JsStrings.SplitJoin | src/components/BatchOperations.tsx:303-305 | splitting a comma join of comma-free cells gives the cells back |
| JsStrings.JoinSplit | src/components/BatchOperations.tsx:297 | joining the pieces of a split gives the text back |
| JsStrings.StripSuffix | src/data/extendedCityDatabase.ts:241 | `replace(/市$/, '')` removes exactly one trailing 市, and leaves other strings alone |
| JsStrings.NatToStringInjective | src/utils/idGenerator.ts:175-179 | different counters print differently |
| JsStrings.ParseFloatOfInt | src/components/BatchOperations.tsx:175 | parseFloat reads a printed integer back exactly |
| BatchRecords.IdText | src/components/BatchOperations.tsx:80 | the text of a counter id is never empty |
| BatchCsv.HasRun | src/components/BatchOperations.tsx:221-226 | `/[class]{n,}/.test(s)` holds exactly when some run of n characters of the class occurs |
| BatchCsv.DetectGarbledText | src/components/BatchOperations.tsx:219-229 | true exactly when the text has two U+00C0–U+00FF characters in a row, `??`, U+FFFD, or three U+0080–U+00FF characters in a row |
| BatchCsv.CleanTextNotGarbled | src/components/BatchOperations.tsx:219-229 | a text clear of U+0080–U+00FF and U+FFFD, without `??`, is not garbled |
| BatchCsv.GarbledInContext | src/components/BatchOperations.tsx:219-229 | text around a garbled stretch is garbled too |
| BatchCsv.ChosenTextReadable | src/components/BatchOperations.tsx:278-294 | the chosen text is the UTF-8 retry, or the first decoding that did not fail and is not garbled, when that one is non-empty |
| BatchCsv.ChooseText | src/components/BatchOperations.tsx:273-294 | the decoding loop stops at the first readable decoding, recording its encoding; when none is readable or the one found is empty, it falls back to the UTF-8 retry |
| BatchCsv.CleanCell | src/components/BatchOperations.tsx:303-305 | a cleaned cell holds no `"` and only characters of the raw cell |
| BatchCsv.CellsClean | src/components/BatchOperations.tsx:303-305 | no cell of a split line holds a comma or a double quote |
| BatchCsv.RowFor | src/components/BatchOperations.tsx:306-309 | a row has exactly the headers as keys |
| BatchCsv.RowForAsWrittenDropsProto | src/components/BatchOperations.tsx:306-309 | the row object as written is the own-key row without a `__proto__` column |
| BatchCsv.ProtoHeaderAsWritten | src/components/BatchOperations.tsx:306-309 | a `__proto__` header is a key of the own-key row but not of the row object as written |
| BatchCsv.RowForShape | src/components/BatchOperations.tsx:306-309 | each header gets the value at its last position, or `''` when the line is too short, so a later equal header wins |
| BatchCsv.BuildRow | src/components/BatchOperations.tsx:306-309 | the `forEach` of assignments builds exactly that row |
| BatchCsv.RowsForAt | src/components/BatchOperations.tsx:304-311 | row k is built from the cells of data line k |
| BatchCsv.BuildRows | src/components/BatchOperations.tsx:304-311 | the `map` over the data lines builds one such row per data line |
| BatchCsv.ParseCsvShape | src/components/BatchOperations.tsx:297-311 | the parse aborts exactly when fewer than two non-blank lines remain; otherwise one row per data line, keyed by the cleaned header cells, each value the cleaned cell at the header's position or `''`, none holding a comma or a quote |
| BatchCsv.ParseCsvText | src/components/BatchOperations.tsx:297-311 | the parse step of the upload computes exactly that parse |
| BatchCsv.JoinedLine | src/components/BatchOperations.tsx:90 | a line of two or more cells without comma or newline splits back into them and is not blank |
| BatchCsv.ExportLineCells | src/components/BatchOperations.tsx:79-90 | an exported city line reads back cell by cell as id, unquoted name, unquoted province and the numeric cells |
| BatchCsv.HeaderLineCells | src/components/BatchOperations.tsx:72-78 | the exported header line reads back as the ten headers |
| BatchCsv.HeadersDistinct | src/components/BatchOperations.tsx:72-75 | no export header repeats |
| BatchCsv.ExportedRow | src/components/BatchOperations.tsx:72-91 | the row parsed from an exported line has exactly the ten headers as keys, each holding its column's exported value |
| BatchCsv.ExportedLines | src/components/BatchOperations.tsx:77-91 | the export's non-blank lines are the header line and one line per city, in order |
| BatchCsv.ExportThenParse | src/components/BatchOperations.tsx:77-91 | export then parse: for cities whose texts hold no comma, quote or newline, the parse gives one row per city, built from the headers and its exported values |
| BatchCsv.ExportEmptyThenParse | src/components/BatchOperations.tsx:77-91 | the export of no cities is a lone header line, which the parser rejects |
| BatchValidation.SmartMatchMeaning | src/components/BatchOperations.tsx:105-126 | no match exactly when no entry's name is the trimmed name less one trailing 市 and no alias is the trimmed name; otherwise the first match in the normalized province when there is a province and such a match, else the first match |
| BatchValidation.FirstTruthyMeaning | src/components/BatchOperations.tsx:150-151 | `row[k1] \|\| row[k2] \|\| ...` is the value of the first truthy key, and there is one exactly when some key is truthy |
| BatchValidation.NumericKeysDistinct | src/components/BatchOperations.tsx:161-169 | no two numeric fields set the same key |
| BatchValidation.CheckFieldCases | src/components/BatchOperations.tsx:171-194 | a field is unset exactly when no column is truthy; it stores the parsed number exactly when that parses and is not a negative heat; otherwise it gives an error on the row under the field's first name |
| BatchValidation.NegativeKeptUnlessHeat | src/components/BatchOperations.tsx:183-191 | a negative latitude, longitude, population or GDP is stored |
| BatchValidation.FoldKeys | src/components/BatchOperations.tsx:171-194 | exactly the fields that passed are set |
| BatchValidation.FoldValues | src/components/BatchOperations.tsx:171-194 | with distinct keys, each passing field holds its parsed number |
| BatchValidation.FoldErrors | src/components/BatchOperations.tsx:171-194 | the errors are exactly the fields' errors |
| BatchValidation.FieldsOfMeaning | src/components/BatchOperations.tsx:171-194 | exactly the passing fields are set, to their numbers, nothing else is set, and the errors are exactly those of the failing fields |
| BatchValidation.FieldErrorsOnRow | src/components/BatchOperations.tsx:177-189 | every field error is on the row, under the first name of one of the fields |
| BatchValidation.ReadNumericFields | src/components/BatchOperations.tsx:171-194 | the per-field loop computes exactly those numbers and errors |
| BatchValidation.MaxNumId | src/components/BatchOperations.tsx:132 | `Math.max(...ids, 0)` is at least 0, no smaller than any id, and is 0 or one of the ids |
| BatchValidation.ProvinceOf | src/components/BatchOperations.tsx:158 | the province is the trimmed cell unless empty, then the match's province unless empty, then 未知省份; never empty |
| BatchValidation.AcceptRow | src/components/BatchOperations.tsx:156-208 | the id assignment and duplicate check compute exactly the specified step |
| BatchValidation.ValidateRow | src/components/BatchOperations.tsx:134-209 | the body of the `forEach` computes exactly the specified row step |
| BatchValidation.FoldRowsStep | src/components/BatchOperations.tsx:134-209 | one turn of the `forEach`: the fold over the rows is the first row's step followed by the fold over the rest |
| BatchValidation.ValidateAll | src/components/BatchOperations.tsx:134-209 | the `forEach` computes exactly the fold of the row step over the rows |
| BatchValidation.ValidateCityData | src/components/BatchOperations.tsx:129-216 | validateCityData computes exactly `Validate` for the given city table, fields and number reader, with `totalRows` the number of rows |
| BatchValidation.UnnamedRow | src/components/BatchOperations.tsx:139-147 | a row with no truthy name cell adds exactly one error, on its row under 城市名称, and no city |
| BatchValidation.NamedRow | src/components/BatchOperations.tsx:150-208 | a named row adds exactly one city, whatever its errors, with the trimmed name, the chosen province and its fields' numbers; its errors follow the earlier ones, field errors first |
| BatchValidation.BlankNameAccepted | src/components/BatchOperations.tsx:139-157 | a whitespace-only name is truthy, so its row is accepted with an empty name |
| BatchValidation.RowId | src/components/BatchOperations.tsx:156-206 | the id is the given id/ID text, or the counter value; when it is taken, an `ID` error is logged and the next counter value is used instead |
| BatchValidation.CounterFree | src/components/BatchOperations.tsx:132-206 | a numeric id at or past the counter is not taken |
| BatchValidation.RowKeepsIdsFresh | src/components/BatchOperations.tsx:134-209 | each row keeps the counter past every numeric id in use and the accepted ids distinct and new |
| BatchValidation.ValidatedIdsFresh | src/components/BatchOperations.tsx:129-216 | the imported cities' ids are pairwise distinct and differ from every existing city's id |
| BatchValidation.ValidatedNames | src/components/BatchOperations.tsx:134-209 | the accepted cities are one per named row, in row order, each with the row's trimmed name |
| BatchValidation.ValidatedErrorRows | src/components/BatchOperations.tsx:135 | every error's row number is `startRow` plus the index of a row |
| BatchValidation.ValidatedNameErrors | src/components/BatchOperations.tsx:139-215 | there are as many 城市名称 errors as unnamed rows, and accepted cities plus unnamed rows make `totalRows` |
| BatchValidation.NamedSplit | src/components/BatchOperations.tsx:139 | every row is either named or unnamed |
| BatchImport.UploadPreviewRows | src/components/BatchOperations.tsx:291-313 | a preview is produced exactly when a text was read with a header and at least one data line, and its `totalRows` is the number of data lines |
| BatchImport.ReadUpload | src/components/BatchOperations.tsx:272-313 | reading, parsing and validating compute exactly the specified preview |
| BatchImport.BatchOperations.constructor | src/components/BatchOperations.tsx:65-67 | no preview, nothing shown, not importing, and the validator is the component's own table, fields and `parseFloat` |
| BatchImport.BatchOperations.HandleFileUpload | src/components/BatchOperations.tsx:266-326 | without a file nothing changes; otherwise importing ends false; an unreadable or too-short text leaves the preview as it was; otherwise the validated preview is set and shown |
| BatchImport.BatchOperations.ShowPreview | src/components/BatchOperations.tsx:314-315 | a produced preview replaces the one on show and is shown; without one nothing changes |
| BatchImport.BatchOperations.HandleConfirmImport | src/components/BatchOperations.tsx:329-335 | with a preview, hands exactly its valid cities to `onImport` and clears and hides it; without one, does nothing |
| BatchImport.BatchOperations.HandleCancelImport | src/components/BatchOperations.tsx:338-341 | clears and hides the preview, importing nothing |
| ExtendedCityDatabase.FindCityInfo | src/data/extendedCityDatabase.ts:225-258 | every non-null result is an entry of the table |
| ExtendedCityDatabase.FindFirst | src/data/extendedCityDatabase.ts:231 | `find` succeeds exactly when some entry matches, and returns the first that does |
| ExtendedCityDatabase.FindCityInfoStages | src/data/extendedCityDatabase.ts:225-258 | empty input gives null; the exact-name, alias, one-市-stripped and containment stages are tried in that order, each only when all earlier ones miss, each returning its first match; null exactly when all four miss |
| ExtendedCityDatabase.WhitespaceQuery | src/data/extendedCityDatabase.ts:228-257 | a whitespace-only query trims to `''`, which every name contains, so it returns the first entry |
| ExtendedCityDatabase.WhitespaceQueryFindsBeijing | src/data/extendedCityDatabase.ts:249-257 | on the built-in table, a blank query returns 北京 |
| ExtendedCityDatabase.GetAllCityNames | src/data/extendedCityDatabase.ts:261-263 | the names, one per entry, in table order |
| ExtendedCityDatabase.GetAllProvincesMeaning | src/data/extendedCityDatabase.ts:266-268 | the province list is sorted, has no repeats, and holds exactly the table's provinces |
| ExtendedCityDatabase.GetAllProvincesUnique | src/data/extendedCityDatabase.ts:266-268 | it is the only such list |
| CityDataAdmin.NewCityTemplate | src/components/CityDataAdmin.tsx:21-33 | a blank record at level 1 with population 0 |
| CityDataAdmin.ValidateIdMeaning | src/components/CityDataAdmin.tsx:52-62 | the check passes exactly for a valid id that is free, or in edit mode is the edited city's own; `''` gets the empty-id message, a malformed id the format message, and any other failure is the duplicate message for an id in use |
| CityDataAdmin.EditOwnIdPasses | src/components/CityDataAdmin.tsx:55-57 | in edit mode the edited city's own id passes the duplicate check |
| CityDataAdmin.TemplateNeedsId | src/components/CityDataAdmin.tsx:21-53 | the new-city template cannot be saved before an id is filled in |
| CityDataAdmin.Max3 | src/components/CityDataAdmin.tsx:74 | `Math.max` of three heats is one of them and no smaller than any |
| CityDataAdmin.SaveCityMeaning | src/components/CityDataAdmin.tsx:65-102 | saving fails exactly when the id check does, leaving the list alone; a saved record keeps the submitted id and carries the largest heat; add mode appends it; edit mode keeps the length and replaces exactly the records whose id is `editingCity?.id \|\| updatedCity.id` |
| CityDataAdmin.EditReplacesOne | src/components/CityDataAdmin.tsx:89-91 | editing a city whose id is unique replaces exactly that record |
| CityDataAdmin.DeleteCity | src/components/CityDataAdmin.tsx:105-114 | unconfirmed, the list is unchanged; confirmed, every record with the id goes and the others stay in order |
| CityDataAdmin.FilteredCities | src/components/CityDataAdmin.tsx:36-41 | in order, exactly the cities whose lowercased name or province contains the lowercased term and whose level matches the chosen level, if any |
| CityDataAdmin.NoFilterKeepsAll | src/components/CityDataAdmin.tsx:36-41 | an empty term and no level keep the whole list |
| CityInfoData.LadderCountsThresholds | src/data/cityData.ts:33-37 | the ladder is 1 plus the number of thresholds 0.2/0.4/0.6/0.8 the score reaches, so it is in 1..5 |
| CityInfoData.LadderMonotone | src/data/cityData.ts:33-37 | a higher score never gets a lower level |
| CityInfoData.CalculateHeatLevel | src/data/cityData.ts:25-38 | the static level is in 1..5 |
| CityInfoData.GreaterIrreflexive | src/data/cityData.ts:52 | no number, NaN included, is greater than itself, so a city is never ahead of itself |
| CityInfoData.CalculateDynamicHeatLevel | src/data/cityData.ts:48-63 | the dynamic level is in 1..5, for the empty list too |
| CityInfoData.RanksInRange | src/data/cityData.ts:50-52 | for a city of the list, each rank is in 1..n |
| CityInfoData.NoneAhead | src/data/cityData.ts:50-52 | with no city strictly ahead, the count is 0 and so the rank is 1 |
| CityInfoData.UnbeatenCityLevel | src/data/cityData.ts:50-62 | a city no other city is ahead of has percentile 1 − 1/n, and dynamic level 5 exactly when n >= 5 |
| CityInfoData.CombinedLevelMeaning | src/data/cityData.ts:74 | `Math.round((s + d) / 2)` is the integer mean rounded up, and is a level again |
| CityInfoData.RecalculateMeaning | src/data/cityData.ts:66-77 | the list keeps its length, order and every field but the levels; each city gets its static and dynamic level and the rounded mean, all in 1..5 |
| CityInfoData.HeatLevelColors | src/data/cityData.ts:254-269 | levels 1..5 have five different colours, and grey is given exactly to every other value |
| CityInfoData.SearchCities | src/data/cityData.ts:272-280 | a blank query keeps the list; otherwise, in order, exactly the cities whose lowercased name or province contains the lowercased query |
| CityInfoData.FilterCitiesByHeatLevel | src/data/cityData.ts:283-285 | in order, exactly the cities at the level |
| CityInfoData.SumLevelsBounds | src/data/cityData.ts:315 | when every level is in 1..5, the sum of levels lies between n and 5n |
| CityInfoData.AverageHeatBounds | src/data/cityData.ts:313-317 | the average level of a non-empty list of levels is between 1 and 5 |
| CityInfoData.TopOfMeaning | src/data/cityData.ts:322-326 | the reduce keeps the first city that no city beats on (level, then population) |
| CityInfoData.GetTopCityMeaning | src/data/cityData.ts:320-327 | null exactly for the empty list; otherwise the first maximal city |
| CityInfoData.Distribution | src/data/cityData.ts:290-296 | the distribution has exactly the keys 1..5 |
| CityInfoData.LevelCountsCover | src/data/cityData.ts:290-296 | when every level is in 1..5, the five level filters together cover the list |
| CityInfoData.DistributionTotal | src/data/cityData.ts:290-296 | when every level is in 1..5, the five counts add up to the number of cities |
| CityInfoData.GetStatistics | src/data/cityData.ts:288-310 | the counts are taken before the sort; the caller's array is then sorted in place by level then population, both descending, as a permutation; the top list is its first min(n, 10) cities; the average is that of the list |
| ChinaMap.ValidCities | src/components/ChinaMap.tsx:116-125 | in order, exactly the cities with both coordinates non-zero and within [-90, 90] and [-180, 180]; a single zero coordinate drops the city |
| ChinaMap.StatsMeaning | src/components/ChinaMap.tsx:128-136 | validCoordinates <= total; byLevel has an entry exactly for each level among the valid cities, holding its count; avgHeat is 0 with no valid city |
| ChinaMap.StatsByLevelTotal | src/components/ChinaMap.tsx:131-134 | when every level is in 1..5, the byLevel counts add up to validCoordinates |
| ChinaMap.DefaultBands | src/components/ChinaMap.tsx:139-145 | the default table lists levels 5 down to 1 with lower bounds 200, 130, 60, 20, 0, each band ending where the band above begins |
| ChinaMap.MarkerColor | src/components/ChinaMap.tsx:149-150 | the label colour is never empty |
| ChinaMap.MarkerColorMeaning | src/components/ChinaMap.tsx:149-150 | a level with a band gets the first such band's colour, unless that colour is empty; a level without one gets `#6b7280` |
| ChinaMap.DefaultMarkerColors | src/components/ChinaMap.tsx:139-150 | under the default table, every level 1..5 gets its band's colour and any other level grey |
| DistanceUtils.RadiiMeaning | src/utils/distanceUtils.ts:45-51 | the radii are interval, 2·interval, …, strictly increasing, none above the maximum while the next multiple would be; there are ⌊max/interval⌋ of them, none when max < interval |
| JsObjects.Assign | src/components/BatchOperations.tsx:308 | `obj[key] = value` sets the key to the value and leaves the other keys alone; for the key `__proto__` the own keys do not change |
| JsObjects.AssignDropsProto | src/utils/idGenerator.ts:197 | assigning into a plain object is assigning into the own-key map and then dropping `__proto__` |
| DistanceUtils.DefaultRadii | src/utils/distanceUtils.ts:45 | the defaults (3000, 500) give the six radii 500 to 3000 |
| DistanceUtils.GenerateCircleRadii | src/utils/distanceUtils.ts:45-51 | the loop yields exactly those radii |
| DistanceUtils.RadiiLoopNeverExits | src/utils/distanceUtils.ts:47 | with interval <= 0 and maxDistance >= interval, the radius `(k + 1) * interval` of every turn k passes the guard, so the loop never ends |

## Left out

- Persistence: localStorage load and save, the JSON text of `importData`, and the singleton `getInstance` are left out. The store's constructor takes the loaded list. `ImportData` takes the parsed records, or `None` when `JSON.parse` fails or the value is not an array.
- `exportData` (`JSON.stringify`) is left out: text serialisation only.
- File reading and browser effects are left out: `FileReader`/`TextDecoder` (`tryParseWithEncoding`), the `Blob` download link, `alert`, `console.warn`/`console.error`, the reset of the file input, and React state setters and rendering. The decodings are parameters, one `Option<string>` per encoding plus the UTF-8 retry.
- `calculateHeatLevel`'s `log10` score: the score is a function parameter, and only its threshold ladder is modelled.
- Floating point in general: numbers are exact reals with no rounding or overflow. `parseFloat` reads decimal literals; its `Infinity` spelling is read as NaN.
- `isNaN` on coordinates: reals have no NaN, so these checks always pass in the model. The division in the dynamic ranking is modelled with NaN and infinities.
- calculateDistance, calculateCircleBounds, formatDistance and toRadians are left out: trigonometry and `toFixed`.
- DistanceUtils.GenerateCircleRadii: its requires excludes a non-positive interval with `maxDistance >= interval`, where the source loop never ends (`RadiiLoopNeverExits`; see Findings).
- Service.CityDataService.GetStatistics: `averageHeat` is not computed. The source divides by the record count, giving NaN for an empty store. The top list is any sorted permutation's prefix. The source's sort is stable, so among records tied on overallHeat it keeps the store order, which fixes which tied records make the top 10 and in what order. The model leaves that tie order unspecified.
- CityInfoData.GetStatistics: the sort is proved sorted and a permutation, but not stable. The source's sort keeps the input order among cities tied on (heatLevel, population). So which tied cities make the top 10, and in what order, is fixed there and left unspecified here.
- BatchValidation.MaxNumId: it skips text ids of the already-loaded cities. `Math.max` converts them: a numeric text such as "12" counts as 12, and any other text makes the maximum NaN. Neither is modelled.
- CityDataAdmin.SaveCityMeaning: the level function and the fallback id are parameters. The fallback is a generated id or `city_<timestamp>`, which the id check makes unreachable. The admin table calls `calculateHeatLevel(overallHeat)` with a number, where the function reads `population`, `gdp` and `area` of a record. All three are undefined, so the score is NaN and the stored level is always 1 (`VERY_LOW`). The parameter covers that constant function too.
- IdGenerator.Lookup: it reads only the table's own entries. As written, `PINYIN_MAP[key]` also reads the members a plain object inherits from `Object.prototype`, such as `constructor`, `toString` and `__proto__`. `PlainLookup` and the `AsWritten` members model that lookup; see Findings.
- IdGenerator.AsciiNamePinyin: it holds for the own-key lookup. As written, the twelve ASCII names that are `Object.prototype` keys, such as "constructor" and "toString", read the inherited member instead (`InheritedNameAsWritten`); see Findings.
- IdGenerator.LowerAlnumNamePinyin: it holds for the own-key lookup. As written, "constructor", the one inherited name in `[a-z0-9]`, reads the `Object` function (`ConstructorNameAsWritten`).
- IdGenerator.PinyinIsLowerAlnum: it holds for the own-key lookup. As written, for a name that is an inherited key, or is one once 市/县/区 are removed, the pinyin is a function or `Object.prototype`, not a string (`PinyinOfAsWrittenAgrees`).
- IdGenerator.BaseIdIsValid: it holds for the own-key lookup. As written, the base id of "constructor" and the other inherited members with a non-zero `length` is that member, not a valid id (`ConstructorNameAsWritten`).
- IdGenerator.GenerateCityId: it uses the own-key lookup. As written, an inherited base is returned as it is, which is not a valid id (`GenerateCityIdAsWritten`); see Findings.
- IdGenerator.GenerateCityIds: its result has a key for every name. As written, a name `__proto__` creates no key in the result object (`IdMapAsWrittenKeys`), and an inherited-name base id is not a string. See Findings.
- IdGenerator.SameNameTwice: it holds for the own-key lookup. As written, an inherited name such as "constructor" given twice first gets the member itself. That member is then pushed into the existing cities, so the second turn gets `<the member's source text>_1`, for example `function Object() { [native code] }_1`.
- IdGenerator.SameNameTwiceExample: it holds for names other than `__proto__` and the inherited names; see GenerateCityIds.
- BatchCsv.RowFor: every header is a key. As written, the header `__proto__` creates no key in the row object (`RowForAsWrittenDropsProto`); see Findings.
- BatchCsv.RowForShape: as for RowFor; a `__proto__` header gets no value as written.
- BatchCsv.ParseCsvShape: as for RowFor; as written the rows lack a `__proto__` column.
- `handleAutoGenerateId` and the form glue of the admin table are left out. The window confirmation of a deletion is a boolean parameter.
- ExtendedCityDatabase.WhitespaceQueryFindsBeijing: `SampleDatabase` holds only the first eight entries of the reference table; the lookups are proved for any table. A missing `aliases` array is modelled as an empty one.
- `toLowerCase` lowers ASCII letters only.
- String `sort()` compares code points, not UTF-16 code units. This agrees for the Chinese names involved.
- Lists.SortDescending: the sort is proved sorted and a permutation, but not stable.
- searchCities and filterCitiesByHeatLevel of the city data module take the list as an explicit argument; the default argument `CITY_DATABASE` is not part of this model.
- `Date.now()` is a parameter of generateCityId, and a per-call clock of generateCityIds.

## Findings

In the first three rows, `PINYIN_MAP`, `result` and `row` are plain object literals. A read on them also finds the members they inherit from `Object.prototype`, and an assignment to `__proto__` goes to the prototype setter. The own-key definitions are the corrected ones, and the rest of the model uses them. In the last row, the radii loop is guarded by the requires of the corrected method.

| source | as written | input that shows it | evidently intended | confidence | as-written member | corrected member |
|---|---|---|---|---|---|---|
| src/utils/idGenerator.ts:130-163 | `PINYIN_MAP[chinese]` and `PINYIN_MAP[cleanName]` read inherited members, which are truthy | the city name "constructor": the base id is the `Object` function, which the existing cities' string ids never hold and isValidCityId rejects; "toString" falls back to `city_<now>` | only the table's own entries are found, so "constructor" gets the id `constructor` | not executed; high | IdGenerator.GenerateCityIdAsWritten, with IdGenerator.ConstructorNameAsWritten and IdGenerator.ToStringNameAsWritten | IdGenerator.GenerateCityId, with IdGenerator.BaseIdIsValid |
| src/utils/idGenerator.ts:197 | `result[cityName] = id` on a plain object | the name list `["__proto__"]`: an id is generated but the result object has no key | every name maps to its id | not executed; high | IdGenerator.IdMapAsWrittenKeys, with IdGenerator.ProtoNameAsWritten | IdGenerator.GenerateCityIds |
| src/components/BatchOperations.tsx:306-309 | `row[header] = values[index] \|\| ''` on a plain object | a CSV whose header line is `__proto__`: the row has no column for it | every header is a column of the row | not executed; medium | BatchCsv.RowForAsWrittenDropsProto, with BatchCsv.ProtoHeaderAsWritten | BatchCsv.RowFor, with BatchCsv.RowForShape |
| src/utils/distanceUtils.ts:47 | `for (let radius = interval; radius <= maxDistance; radius += interval)` with no check on `interval` | maxDistance 3000 and interval 0, which the circle-interval field stores when it is cleared (`Number('')` is 0): the radius stays 0 and the loop never ends | the loop runs only for a positive interval, giving ⌊maxDistance/interval⌋ radii | not executed; high | DistanceUtils.RadiiLoopNeverExits | DistanceUtils.GenerateCircleRadii, with DistanceUtils.RadiiMeaning |
