# Car dealership record store (`CarService`), modelled in Dafny

`CarService` keeps car models, cars and sales in three fixed-width text
files. Each record is its fields joined by `;`, left-justified to
`LINE_LENGTH = 500` characters and ended by `"\n"`, so record `k` starts at
character `k * 501`. Each data file has an index file of `key;line_number`
lines. An operation loads the index whole, appends a record or overwrites
one in place at its offset, and saves the index back sorted by key.

The model has these parts:

- `Service.CarService` is a class whose six fields are the six files, as
  strings. Its methods do what the service does, step by step: load the
  index, append, seek and overwrite, rewrite the sales file, rebuild or save
  the index. Every loop of the service is a loop with invariants here.
  Each method is proved to leave the files and return the value that its
  function in `Store` gives, as a function of the files before the call.
- `Store` holds those functions, one per operation. When the service raises
  part way, the model keeps the files written so far together with the
  error (`Step(files, Fail(e))`).
- `PyStr`, `FixedWidth` and `IndexTable` model the string functions the
  service calls (`strip`, `split`, `join`, `ljust`, `int`, line iteration,
  `seek`/`readline`/`write`). They also model the slot layout and the
  index-file format.
- `Consistency` states which states the write operations keep. The main
  one is agreement between a data file and its index: each line has a
  record of the entity's arity, and the index maps each line's field 0 to
  that line number, one to one. The lemmas also say exactly what each write
  changes.
- `Queries` and `TopModels` relate the read operations to plain reference
  definitions: a filter, a first match, a join, a count per model and a
  ranking.

### Behaviour kept from the code

These are places where a plain reading of the system's design differs from
what the code does. In each case the model follows the code.

- Records are never checked for width. `ljust` pads and never truncates, so
  a record over 500 characters overflows its slot
  (`FixedWidth.WideRecordOverflows`). The correctness lemmas therefore
  require records that fit (`Storable`).
- Adding a model or car whose key is already indexed writes nothing. It
  returns its argument, not the stored record.
- `sell_car` does not reject a sales number that is already indexed. It
  appends the sale anyway and indexes it under `len(index)`, which does not
  grow. The sales file then has one line more than the index has entries,
  and the agreement is lost (`Consistency.DuplicateSaleDesyncs`).
- `sell_car` records and indexes the sale before it looks up the car. A
  sale of an unknown VIN raises only after the sale has been stored
  (`Consistency.SaleRecordedFirst`).
- `get_car_info` returns `None` rather than failing when the VIN, the car
  line, the model id or the model line is missing or short.
- `update_vin` does nothing when the old VIN is not indexed. It does not
  touch the sales file, so sales of a renamed car still name the old VIN
  (`Queries.RenameLaw`). `get_car_info` of a renamed sold car then looks
  for sales of the new VIN, and reports none when there are none
  (`Queries.RenameSoldInfo`).
- `get_cars` skips blank lines and lines with fewer than 5 fields, with no
  count of what it skipped. A line whose number or status does not parse
  raises and ends the whole scan.

## Model

| member | source | states |
|---|---|---|
| `IndexTable.LoadIndex` | src/bibip_car_service.py:35-44 | the loop skips lines without `;`, splits every other line into exactly a key and an integer, and lets later lines overwrite earlier ones; the result is `ParseIndex`, or the error of the first bad line |
| `IndexTable.ParsedKeysValid` | src/bibip_car_service.py:40-43 | every key `_load_index` returns is valid (no `;`, no line break, no leading whitespace), so the map can be saved and read back |
| `IndexTable.SortedKeys` | src/bibip_car_service.py:49 | `sorted(index.items())` visits each key exactly once, in strictly ascending order |
| `IndexTable.BelowTransitive` | src/bibip_car_service.py:49 | the string order `sorted` uses is transitive |
| `IndexTable.BelowTotal` | src/bibip_car_service.py:49 | any two different keys are ordered one way or the other |
| `IndexTable.LeastKeyExists` | src/bibip_car_service.py:49 | every non-empty set of keys has a least key, so the ascending order exists |
| `IndexTable.SaveIndex` | src/bibip_car_service.py:46-50 | `_save_index` writes the text `IndexText(m)` |
| `IndexTable.WriteIndexLines` | src/bibip_car_service.py:48-50 | the write loop produces the `key;n\n` lines of the given keys, in the given order, and nothing else |
| `IndexTable.IndexTextLayout` | src/bibip_car_service.py:46-50 | the saved text is exactly one `key;n` line per entry, in ascending key order |
| `IndexTable.IndexLineEntry` | src/bibip_car_service.py:42-43 | a line `_save_index` wrote parses back into its key and line number |
| `IndexTable.IndexRoundTrip` | src/bibip_car_service.py:35-50 | for valid keys, `_load_index` of what `_save_index` wrote is the same map |
| `PyStr.Strip` | src/bibip_car_service.py:42 | `strip()` returns the piece of the string left once the whitespace at its two ends is removed: only whitespace lies before and after it, and neither of its ends is whitespace; an already stripped string comes back unchanged |
| `PyStr.StripSurround` | src/bibip_car_service.py:42 | `rstrip` after `lstrip` leaves a piece of the string with only whitespace before and after it |
| `PyStr.Split` | src/bibip_car_service.py:42 | `split(sep)` gives at least one piece, no piece contains `sep`, and joining the pieces gives back the string |
| `PyStr.SplitJoin` | src/bibip_car_service.py:110-114 | splitting a `;`-join of fields that contain no `;` gives back the fields |
| `PyStr.LJust` | src/bibip_car_service.py:59 | `ljust(w)` is the string followed by spaces up to width `w`, and is never shorter than the string |
| `PyStr.Lines` | src/bibip_car_service.py:40 | iterating over a file gives non-empty lines whose concatenation is the file; every line but the last ends in `"\n"`, and no line holds a `"\n"` before its last character |
| `PyStr.LinesOfConcat` | src/bibip_car_service.py:230-232 | lines that each end with their only `"\n"`, written in order, are read back as those lines |
| `PyStr.ReadLineAt` | src/bibip_car_service.py:108-109 | `seek(off)` then `readline()` returns the text from `off` up to and including the next `"\n"`: no `"\n"` before its last character, which is `"\n"` unless the text ends first; `""` at or past the end |
| `PyStr.WriteAt` | src/bibip_car_service.py:115-116 | writing at an offset replaces exactly the characters written and keeps everything before and after; past the end, the old text is kept and the gap is filled with NUL characters |
| `PyStr.ParseIntToString` | src/bibip_car_service.py:43 | `int(str(n)) == n` for every integer |
| `FixedWidth.RecordRoundTrip` | src/bibip_car_service.py:59 | clean fields within 500 characters, joined and padded, make exactly one slot, and that slot parses back into the same fields |
| `FixedWidth.WideRecordOverflows` | src/bibip_car_service.py:59 | a record over 500 characters is written whole: its line is longer than a slot |
| `FixedWidth.SlotAt` | src/bibip_car_service.py:108 | in a file of slots, line `k` starts at `k * (LINE_LENGTH + 1)` |
| `FixedWidth.ReadSlot` | src/bibip_car_service.py:142-144 | seek to `k * 501` plus `readline` in a file of slots returns line `k`, or `""` past the last line |
| `FixedWidth.WriteSlot` | src/bibip_car_service.py:114-116 | overwriting slot `k` with a slot changes line `k` and no other line |
| `FixedWidth.AppendSlot` | src/bibip_car_service.py:61-62 | appending a slot adds exactly one line at the end |
| `FixedWidth.RemoveSlot` | src/bibip_car_service.py:228-232 | writing back all slots but one leaves a file whose lines are the survivors, in order |
| `Records.StatusRoundTrip` | src/bibip_car_service.py:113 | `CarStatus(status.value)` gives back the status |
| `Records.ParseStatusExact` | src/bibip_car_service.py:132 | only `available` and `sold` name a status, and each names exactly one |
| `Records.CarFieldsRoundTrip` | src/bibip_car_service.py:79 | the car read back from the fields `add_car` writes is the car |
| `Records.CarRecordRoundTrip` | src/bibip_car_service.py:145-153 | a stored car's padded line parses into its fields and back into the car |
| `Records.CarOfRenamedFields` | src/bibip_car_service.py:205-206 | replacing field 0 changes the car read back in its VIN only |
| `Records.CarOfRestatusedFields` | src/bibip_car_service.py:113-114 | setting field 4 to a status's value changes the car read back in its status only |
| `Service.CarService.constructor` | src/bibip_car_service.py:26-33 | a new service starts with six empty files, and each index agrees with its data file |
| `Service.CarService.AddModel` | src/bibip_car_service.py:52-67 | the files and the result after `add_model` are `AddModelOp` of the files before |
| `Service.CarService.AddCar` | src/bibip_car_service.py:69-87 | the files and the result after `add_car` are `AddCarOp` of the files before |
| `Service.CarService.RewriteStatus` | src/bibip_car_service.py:101-116 | the status rewrite returns the car file `SetStatus` describes, or its error, and changes nothing |
| `Service.CarService.SellCar` | src/bibip_car_service.py:89-116 | the files and the outcome after `sell_car` are `SellCarOp` of the files before, including the sale already stored when the car lookup fails |
| `Service.CarService.GetCars` | src/bibip_car_service.py:118-134 | the scan returns `GetCarsOp` of the files and changes nothing |
| `Service.CarService.ReadCar` | src/bibip_car_service.py:138-153 | the car half of `get_car_info` returns `LookupCar` |
| `Service.CarService.ReadModel` | src/bibip_car_service.py:155-166 | the model half returns `LookupModel` |
| `Service.ScanSales` | src/bibip_car_service.py:170-179 | the sales loop stops at the first line whose VIN field matches, or at the first line that raises |
| `Service.CarService.GetCarInfo` | src/bibip_car_service.py:136-190 | `get_car_info` returns `GetCarInfoOp` of the files and changes nothing |
| `Service.CarService.UpdateVin` | src/bibip_car_service.py:192-212 | the files and the outcome after `update_vin` are `UpdateVinOp` of the files before |
| `Service.CarService.TakeSale` | src/bibip_car_service.py:216-228 | the first half of `revert_sale` returns the surviving sales lines and the sold VIN as `RemoveSale` does, including the Python behaviour of a negative line number |
| `Service.CarService.RewriteSales` | src/bibip_car_service.py:229-240 | the second step of `revert_sale` writes the surviving lines back in order and saves the index of their keys by line number, touching no other file |
| `Service.WriteLines` | src/bibip_car_service.py:230-232 | rewriting the sales file produces exactly the surviving lines, in order |
| `Service.RebuildIndex` | src/bibip_car_service.py:234-240 | the `new_sales_index` loop gives `Reindex` of the lines' keys |
| `Service.CarService.RevertSale` | src/bibip_car_service.py:214-255 | the files and the outcome after `revert_sale` are `RevertSaleOp` of the files before |
| `Service.LoadCarMapping` | src/bibip_car_service.py:260-272 | the `car_mapping` loop gives `CarMappingFrom` of the car lines |
| `Service.CountSales` | src/bibip_car_service.py:274-286 | the sales loop gives the tallies of the known-VIN sales, in the order models are first seen (`Ranking.TallyOfFirstSeen`) |
| `Service.CollectStats` | src/bibip_car_service.py:293-307 | the result loop gives `Gather` of the per-model steps |
| `Service.CarService.TopModelsBySales` | src/bibip_car_service.py:257-308 | `top_models_by_sales` returns `TopModelsOp` of the files and changes nothing |
| `Consistency.ReadIndexed` | src/bibip_car_service.py:141-144 | on a well-formed file, reading at an existing line number returns that line |
| `Consistency.RewriteLine` | src/bibip_car_service.py:107-116 | an in-place overwrite with a record that fits keeps the file length and changes only line `n`, whose fields become the record's |
| `Consistency.AppendKeepsAgreement` | src/bibip_car_service.py:58-64 | appending a record under a new key, indexed at its position, keeps file and index in agreement |
| `Consistency.ReplaceKeepsAgreement` | src/bibip_car_service.py:113-116 | replacing a record by one with the same key and enough fields keeps the agreement |
| `Consistency.AddKeepsSync` | src/bibip_car_service.py:54-65 | on an agreeing store, an indexed key changes nothing; a new key appends exactly its padded record, indexes it under `len(index)`, which is its line number, and the agreement holds afterwards |
| `Consistency.AddModelSynced` | src/bibip_car_service.py:52-67 | `add_model` returns its argument and touches only the model files; a duplicate id leaves every file unchanged, and a new id then reads back as that model's name and brand |
| `Consistency.NewModelReadable` | src/bibip_car_service.py:155-166 | a model added under a new id is found by the model lookup of `get_car_info` |
| `Consistency.AddCarSynced` | src/bibip_car_service.py:69-87 | `add_car` returns its argument and touches only the car files; a duplicate VIN leaves every file unchanged, and a new VIN then reads back as exactly that car |
| `Consistency.SetStatusSynced` | src/bibip_car_service.py:101-116 | the status rewrite fails exactly for an unindexed VIN (or an empty VIN in `sell_car`); otherwise only the VIN's line changes, only in field 4, and the agreement holds |
| `Consistency.SellCarSynced` | src/bibip_car_service.py:89-116 | with a new sales number, the sale is appended and indexed under its line number whatever follows; an unknown VIN then fails with the car file untouched; otherwise only the car's line changes, with field 4 set to `sold`; both stores stay in agreement |
| `Consistency.SaleRecordedFirst` | src/bibip_car_service.py:91-103 | whatever the car lookup does, the sale is already appended and the sales index saved, and the model files and car index are untouched |
| `Consistency.DuplicateSaleDesyncs` | src/bibip_car_service.py:92-99 | selling under a sales number that is already indexed leaves a sales file with one more line than its index has entries, so the agreement is lost |
| `Consistency.CountMismatch` | src/bibip_car_service.py:92 | a data file and an index with different numbers of lines and entries cannot agree |
| `Consistency.UpdateVinOutcomes` | src/bibip_car_service.py:194-212 | once the car index loads, an unindexed old VIN changes nothing and succeeds and an indexed new VIN is refused with nothing written; on an agreeing car store, otherwise the call succeeds and writes only the car file and its index |
| `Consistency.RenameKeepsAgreement` | src/bibip_car_service.py:205-211 | rewriting field 0 of line `n` to a new key and renaming its entry keeps the agreement |
| `Consistency.RenameEffect` | src/bibip_car_service.py:199-212 | renaming changes only the car's line, and only its field 0; the index loses the old VIN, maps the new one to the same line and is otherwise unchanged; the agreement holds |
| `Consistency.RenamedIndexRoundTrip` | src/bibip_car_service.py:210-212 | the renamed index saves and loads back unchanged |
| `Consistency.RemoveKeepsAgreement` | src/bibip_car_service.py:228-240 | deleting record `i` and moving every later entry up one line keeps the agreement |
| `Consistency.ReindexPositions` | src/bibip_car_service.py:234-240 | the rebuilt index maps each key to the last line holding it, and holds no other key |
| `Consistency.ReindexOfSynced` | src/bibip_car_service.py:234-240 | rebuilding the index of lines that agree with an index gives back that index |
| `Consistency.RemoveSaleFound` | src/bibip_car_service.py:216-226 | on an agreeing sales store, an indexed sale is found at its line, with its VIN field |
| `Consistency.RemoveSaleSynced` | src/bibip_car_service.py:216-240 | the indexed line is deleted, the survivors keep their order, and the rebuilt index is the old one without the sale, each later line moved up by one; the sales store stays in agreement |
| `Consistency.SaleRemovedFirst` | src/bibip_car_service.py:221-244 | the sales file and its index are rewritten before the car lookup, and the other files are untouched |
| `Consistency.RevertSaleSales` | src/bibip_car_service.py:214-240 | an unknown sales number raises with nothing written; otherwise, whatever the car lookup does, the sale's line is gone, the index is compacted and in agreement, and the model files and car index are untouched |
| `Consistency.RevertSaleCars` | src/bibip_car_service.py:242-255 | an unknown VIN raises with the car file untouched; a known one gets field 4 of its line set to `available`, no other line changes, and the car store stays in agreement |
| `Queries.CarLineStatus` | src/bibip_car_service.py:123-133 | a stored car's line is listed, as exactly that car, if and only if its status is the one asked for |
| `Queries.CarsFromFilter` | src/bibip_car_service.py:122-133 | the scan over stored cars' lines appends exactly the cars with that status, in file order |
| `Queries.GetCarsFilters` | src/bibip_car_service.py:118-134 | on a car file written as stored cars, `get_cars(status)` is exactly those cars filtered by status, in file order |
| `Queries.CarsFromSound` | src/bibip_car_service.py:122-133 | whatever the lines, every car the scan appends has the status asked for |
| `Queries.GetCarsSound` | src/bibip_car_service.py:118-134 | whatever the car file holds, every car `get_cars(status)` returns has that status |
| `Queries.FirstSaleOfFound` | src/bibip_car_service.py:172-179 | the first sale of a VIN is the earliest sale naming it |
| `Queries.FirstSaleOfNone` | src/bibip_car_service.py:172-179 | there is no first sale if and only if no sale names the VIN |
| `Queries.StoredFirstSale` | src/bibip_car_service.py:170-179 | on a sales file written as stored sales, the scan finds the cost and date of the first sale of the VIN, in file order |
| `Queries.FirstSaleFound` | src/bibip_car_service.py:172-179 | when the scan finds a sale, it came from some line at which the scan stopped, and every earlier line was passed over |
| `Queries.CarInfoNoCar` | src/bibip_car_service.py:138-147 | `get_car_info` returns `None` for an unindexed VIN and for a car line with fewer than 5 fields |
| `Queries.CarInfoNoModel` | src/bibip_car_service.py:155-164 | for a car that reads back, it returns `None` for an unindexed model id and for a model line with fewer than 3 fields |
| `Queries.SoldCarInfo` | src/bibip_car_service.py:136-190 | a sold car with a known model is joined with its model's name and brand and the cost and date of the first sale of its VIN, or with neither when there is none |
| `Queries.UnsoldCarInfo` | src/bibip_car_service.py:168-190 | an available car with a known model is reported with no sale date or cost |
| `Queries.AddedCarInfo` | src/bibip_car_service.py:52-87 | after adding a new model and then a new available car of that model, `get_car_info` reports the car with that model's name and brand and no sale |
| `Queries.RenameLaw` | src/bibip_car_service.py:192-212 | after a rename the old VIN is not found (`get_car_info` gives `None`), the new VIN reads back the same car under its new VIN, and the sales and model files are unchanged |
| `Queries.RenameUnsoldInfo` | src/bibip_car_service.py:192-212 | for an indexed car that is not sold and whose model is known, `get_car_info` of the new VIN after the rename reports what `get_car_info` of the old VIN reported before it, with the VIN replaced and no sale |
| `Queries.RenameSoldInfo` | src/bibip_car_service.py:170-190 | for an indexed sold car whose model is known, over stored sales, `get_car_info` reported the first sale naming the old VIN before the rename and reports the first sale naming the new VIN after it, so with no sale of the new VIN the renamed car is reported with no sale |
| `Queries.RestatusedRead` | src/bibip_car_service.py:107-116 | a car line rewritten in place with a new status reads back as the same car with that status |
| `Queries.SoldCarReads` | src/bibip_car_service.py:89-116 | after `sell_car` of an indexed car with a non-empty VIN, the car reads back sold and otherwise unchanged, the sale line is appended and the model files are untouched |
| `Queries.LatestSaleInfo` | src/bibip_car_service.py:170-190 | a sold car over stored sales ending in a sale of its VIN is reported with the first sale of its VIN, which is that last sale when no earlier sale names the VIN |
| `Queries.FirstSaleOfLast` | src/bibip_car_service.py:177-184 | a sale appended after sales of other VINs is the first sale of its VIN |
| `Queries.SellThenInfo` | src/bibip_car_service.py:89-116 | after `sell_car` of an indexed car with a non-empty VIN and a known model, over stored sales, the car reads back sold and `get_car_info` reports the first sale of its VIN, which is the new sale when no earlier sale names the VIN |
| `Queries.RevertThenInfo` | src/bibip_car_service.py:214-255 | after `revert_sale` of a sale whose VIN is an indexed car with a known model, the car reads back available and otherwise unchanged, and `get_car_info` reports it with no sale |
| `Queries.RenamedRead` | src/bibip_car_service.py:199-209 | the renamed line is read back at the same line number and parses as the old line with field 0 replaced |
| `TopModels.CarMappingKeys` | src/bibip_car_service.py:260-272 | `car_mapping` holds exactly the VINs of the car lines with at least 5 fields |
| `TopModels.StoredCarEntry` | src/bibip_car_service.py:263-272 | a stored car's line gives `car_mapping` its VIN, model and price |
| `TopModels.SoldFromCounts` | src/bibip_car_service.py:276-286 | for each model, the sales loop counts exactly the sales whose VIN is in `car_mapping` with a car of that model; sales of unknown VINs are not counted |
| `TopModels.SoldFromKnown` | src/bibip_car_service.py:281-286 | every sold car the loop records is an entry of `car_mapping` |
| `Ranking.TallyOfCounts` | src/bibip_car_service.py:284-286 | each model sold gets exactly one tally; its count is the number of its sold cars, and its `max_price` is a price it sold at that no other sale of it exceeds |
| `Ranking.FirstSeen` | src/bibip_car_service.py:277-284 | the position of a model's first sale: a sale of it stands there and none before |
| `Ranking.FirstSeenAppend` | src/bibip_car_service.py:277-284 | one more sale moves where a model is first seen only if it had not been seen before |
| `Ranking.UntalliedUnseen` | src/bibip_car_service.py:281-284 | a model with no entry in `sales_count` was never sold |
| `Ranking.TallyOfFirstSeen` | src/bibip_car_service.py:274-290 | `sales_count` holds the models in the order of their first sale, the dict order in which `sorted` meets tied models |
| `TopModels.KnownSalesConcat` | src/bibip_car_service.py:276-286 | the known-VIN sales of a model in two runs of sales lines add up |
| `TopModels.KnownSalesWithout` | src/bibip_car_service.py:276-286 | dropping one sales line drops exactly its share of a model's known-VIN sales |
| `TopModels.SurvivorsKnownSales` | src/bibip_car_service.py:227 | removing one sales line removes exactly that line's share of each model's known-VIN sales |
| `TopModels.RevertedSalesLines` | src/bibip_car_service.py:221-231 | after `revert_sale` of an indexed sale, the sales file holds the other lines, in order |
| `TopModels.IndexedSaleVin` | src/bibip_car_service.py:222-226 | the indexed line of a sale in an agreeing sales store is not blank, and its VIN field is the VIN `revert_sale` reads |
| `TopModels.RevertUncounts` | src/bibip_car_service.py:214-240 | after `revert_sale` the removed sale no longer counts: a model's known-VIN sales, as `top_models_by_sales` counts them, drop by one when the sale's VIN is a known car of that model and are unchanged otherwise |
| `TopModels.TalliesCountKnownSales` | src/bibip_car_service.py:274-286 | each tally counts exactly the known-VIN sales of its model, and its `max_price` is the price of a car in `car_mapping` |
| `Ranking.RankSorted` | src/bibip_car_service.py:288-290 | the ranking is descending in `(count, max_price)`, is a permutation of the tallies, and keeps tallies with equal keys in their original order, as Python's stable `sorted(reverse=True)` does |
| `Ranking.InsertDescending` | src/bibip_car_service.py:288-290 | inserting a tally at its place keeps the ranking descending |
| `Ranking.InsertMultiset` | src/bibip_car_service.py:288-290 | inserting adds exactly that tally |
| `Ranking.TopThree` | src/bibip_car_service.py:291 | `[:3]` keeps the first `min(3, n)` ranked tallies |
| `TopModels.GatherGrows` | src/bibip_car_service.py:294-307 | the result loop keeps what it had and adds at most one entry per ranked model |
| `TopModels.GatherOrdered` | src/bibip_car_service.py:294-307 | over models ranked by count, the result lists counts that never increase |
| `TopModels.DescendingCounts` | src/bibip_car_service.py:288-290 | a ranking descending in `(count, max_price)` has counts that never increase |
| `TopModels.TopModelsRanked` | src/bibip_car_service.py:257-308 | `top_models_by_sales` returns at most three entries, with sales counts that never increase |
| `TopModels.StatStepSynced` | src/bibip_car_service.py:295-307 | on agreeing model files, a ranked model is listed exactly when its id is indexed, with the name and brand of the line holding that id |
| `TopModels.GatherListed` | src/bibip_car_service.py:294-307 | the result loop over such steps is `Listed`: the indexed ranked models, in rank order |
| `TopModels.StatsSynced` | src/bibip_car_service.py:293-307 | on agreeing model files, the result loop lists exactly the ranked models whose ids are indexed, in rank order, and skips the others |
| `TopModels.ListedCounts` | src/bibip_car_service.py:295-307 | the result has at most one entry per ranked model; it has all of them when every one is indexed, and none when none is |
| `TopModels.TopModelsSynced` | src/bibip_car_service.py:257-308 | on agreeing model files, `top_models_by_sales` returns the indexed models among the first three of the stable `(count, max_price)` ranking of the known-VIN sales, in that order, with their names, brands and counts |

## Left out

- Directory creation and the creation of missing files in `__init__` are not modelled. A new service starts with six empty files, which is what a first run leaves. The `os.path.exists` test in `_load_index` is always true once `__init__` has run.
- Files are strings of characters, and `seek` offsets count characters. Python's text-mode `seek` counts bytes, so the model takes one byte per character (ASCII content). Non-ASCII fields would shift the offsets, and that is not modelled.
- Files are opened with `newline=""`, so Python would also end a line at a lone `"\r"`. The model ends lines only at `"\n"`. Stored records must contain no `"\n"`, but a `"\r"` inside a field is read back as part of its line.
- IndexTable.IndexRoundTrip: a valid key (`IndexTable.ValidKey`) may hold a `"\r"`. The round trip is proved for lines ended only by `"\n"`, so it says nothing of Python's line splitting for such a key.
- `Decimal` prices and costs are whole numbers, written with `str` and read with `int`. `Decimal` formatting, the `replace(",", ".")` and decimal fractions are not modelled.
- Dates are opaque strings. `strftime`, `strptime` and `fromisoformat` are never modelled as failing.
- `int()` is modelled as an optional sign and ASCII digits, after stripping whitespace. Underscores and non-ASCII digits are not accepted.
- `Car`, `Model`, `Sale`, `CarStatus`, `CarFullInfo` and `ModelSaleStats` come from the `models` module, which is not part of this model. They are plain datatypes here, with status values `available` and `sold`.
- Exceptions are error values (`Results.Error`), one per kind of exception. Their messages are not modelled, and neither are I/O failures of the operating system.
- Concurrency, crashes between the two writes of `sell_car` and `revert_sale`, and atomicity are not modelled. The model is single-threaded.
- Consistency lemmas: they are stated for stores whose data files agree with their indexes, with records that fit their slots (`Synced`, `Storable`). Any other files are described only by the `Store` functions the service methods are proved against.
- Queries.GetCarsFilters: the exact filter is stated for car files written as stored cars (`CarLines`). For arbitrary car files, `Queries.GetCarsSound` states only that every car returned has the status asked for.
- Queries.StoredFirstSale: the first-match result is stated for sales files written as stored sales. For arbitrary files, `Queries.FirstSaleFound` states where a found sale comes from.
- Queries.RenameLaw: it states what the car lookup reads after a rename. What `get_car_info` reports is stated separately for a car whose model is known: `Queries.RenameUnsoldInfo` for a car not sold, `Queries.RenameSoldInfo` for a sold car over stored sales. The sale of a renamed sold car is not carried over to its new VIN, because the code does not carry it over.
- TopModels.CarMappingKeys: it states which VINs `car_mapping` holds, not that a VIN on several car lines keeps the entry of its last line.
- TopModels.TopModelsRanked: for arbitrary model files it states the bound and the order of the counts only. The exact result, names and brands included, is `TopModels.TopModelsSynced`, for model files that agree with their index.
