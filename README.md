# Warehouse slot and pallet logic: a Dafny model

This project models the logic in `conexion_bd.py` of a warehouse inventory dashboard. Staff ingest pallets from scanned QR codes, assign pallets to storage slots, free slots, and pick a free location from dropdown options. The database behind it is replaced by abstract tables. The stored procedures the code calls are reduced to the state change the code relies on.

The model has four modules:

- `Values` (`values.dfy`): the column values the driver returns (None, a number or text), Python truthiness, and the order `sorted` uses on them.
- `PalletIngest` (`pallet_ingest.dfy`): `ingresar_pallet`.
  - The payload is split on commas the way Python's `str.split(',')` splits it.
  - There must be exactly five fields: variety, description, market, harvest date and pallet code.
  - The harvest date must be eight digits.
  - The pallet code must be eight characters of any kind.
  - A code that is already stored is refused.
  - The pallet table is seen only as its set of pallet codes.
- `SlotOptions` (`slot_options.dfy`): `obtener_opciones_disponibles`.
  - Each filter that is set adds one condition and one parameter to two parallel lists, in the order tipo_almacen, piso, rack, letra.
  - The query reads the free slots that satisfy the conditions.
  - Each column becomes a sorted list with no repeats. For floor, rack and letter, falsy values are dropped.
- `SlotStore` (`slot_store.dfy`): `asignar_ubicacion` and `liberar_ubicacion`.
  - They are methods of a class whose fields are the pallet table and the slot table.
  - The slot table is split into the fixed location of each slot and the pallet that occupies it.
  - The guards run in the source's order, and every refusal leaves the tables unchanged.
  - The class invariant `Valid` says that no pallet is in two slots and that every occupant is a known pallet.

In these places the model follows what the code does:

- Assignment and release identify a pallet by its integer key `id_pallet`, not by its 8-character code.
- Release only checks that the pallet is at position 1. Re-sequencing the rest of the lane happens inside `retirar_pallet`, whose body is not in the code.
- The code never states a slot-selection rule such as "lowest free position". `reasignar_pallet` therefore places the pallet in some free slot of the lane and leaves the choice open.
- `reasignar_pallet` receives floor, rack and letter, not the warehouse type. The confirmation still repeats the requested warehouse type.

## Model

| member | source | states |
|---|---|---|
| Values.StrLessTotal | conexion_bd.py:262-265 | two different strings are ordered one way or the other, as Python orders strings |
| Values.StrLessTransitive | conexion_bd.py:262-265 | the string order is transitive |
| Values.LessTotal | conexion_bd.py:262-265 | the value order used by `sorted` relates every two different values |
| Values.LessTransitive | conexion_bd.py:262-265 | the value order is transitive |
| Values.LessAsymmetric | conexion_bd.py:262-265 | the value order is a strict order: never both a < b and b < a |
| PalletIngest.Split | conexion_bd.py:285 | `split(',')` yields at least one field and no field contains a comma |
| PalletIngest.SplitCount | conexion_bd.py:285-288 | the number of fields is the number of commas plus one |
| PalletIngest.JoinSplit | conexion_bd.py:285 | joining the fields with commas gives back the payload |
| PalletIngest.SplitJoin | conexion_bd.py:285 | splitting comma-free fields joined by commas gives back those fields |
| PalletIngest.ParseQr | conexion_bd.py:285-303 | an accepted payload is the encoding of a record that passes every check; the payload is refused as malformed exactly when it does not have four commas; the parser never reports a duplicate |
| PalletIngest.ParseEncode | conexion_bd.py:285-303 | parsing the encoding of a well-formed record gives that record |
| PalletIngest.ParseIff | conexion_bd.py:285-303 | a payload is accepted as a given record if and only if the record passes every check and the payload encodes it |
| PalletIngest.FieldRules | conexion_bd.py:297-303 | for any five comma-free fields: a date that is not eight digits is refused first, then a code that is not eight characters, and otherwise the record is exactly those fields |
| PalletIngest.Ingest | conexion_bd.py:283-321 | an empty payload gives no response and changes nothing; a pallet is inserted exactly when the payload parses and its code is not stored; then the stored codes gain exactly that code; every refusal leaves the codes unchanged; a non-empty payload always gets an answer; a payload that fails a check is refused with that check's error; a payload whose code is stored is refused as a duplicate of its own code |
| PalletIngest.IngestTwice | conexion_bd.py:309-316 | ingesting the same payload again changes nothing, and is refused as a duplicate if the first attempt inserted it |
| PalletIngest.AcceptedExample | conexion_bd.py:285-303 | `VarietyX,DescY,MarketZ,20240115,12345678` is accepted with those five fields |
| PalletIngest.ShortDateExample | conexion_bd.py:298-299 | a 7-character harvest date is refused as an invalid date |
| PalletIngest.ShortCodeExample | conexion_bd.py:302-303 | a 7-character pallet code is refused as an invalid code |
| PalletIngest.LetterCodeExample | conexion_bd.py:302-303 | an 8-letter pallet code is accepted: the code is not required to be digits |
| SlotOptions.ActiveColumns | conexion_bd.py:240-251 | the columns whose filter is set, each once, in the fixed order: a column is listed if and only if its filter is truthy |
| SlotOptions.BuildConditions | conexion_bd.py:237-251 | the condition list and the parameter list have equal length; entry i of each belongs to the i-th set filter, in the fixed order |
| SlotOptions.ComposeQuery | conexion_bd.py:232-256 | the query text is the base query, one " AND " conjunct per condition and the ORDER BY clause; when every condition names a column, reading the conditions back from the query text gives exactly the list it was built from |
| SlotOptions.JoinConjuncts | conexion_bd.py:253-254 | `" AND " + " AND ".join(parts)` is the conjunct of each part, one after the other |
| SlotOptions.ReadConjunctsOf | conexion_bd.py:253-254 | reading back the conjuncts of any list of column conditions gives that list |
| SlotOptions.ConjunctsOfRead | conexion_bd.py:253-254 | any text the conjunct reader accepts is the run of conjuncts of the list it returns |
| SlotOptions.QueryRoundTrip | conexion_bd.py:232-256 | for every list of column conditions, the conditions read back from the query text built from it are that list |
| SlotOptions.ReadQuery | conexion_bd.py:232-258 | every query text from which conditions can be read is exactly the base query, their conjuncts and the ORDER BY clause, so query text and condition list determine each other |
| SlotOptions.Execute | conexion_bd.py:258-259 | the fetched locations are exactly those of the free rows that satisfy every condition read from the query text, each with its parameter |
| SlotOptions.ConditionsMeaning | conexion_bd.py:240-258 | the built conditions and parameters hold for a location if and only if the location agrees with every filter that is set |
| SlotOptions.Insert | conexion_bd.py:262-265 | adding a value to a strictly sorted list keeps it strictly sorted and adds exactly that value |
| SlotOptions.SortedSet | conexion_bd.py:262-265 | `sorted(set(vs))` is strictly increasing, so it is sorted and has no repeats, and it holds exactly the values of vs |
| SlotOptions.SortedUnique | conexion_bd.py:262-265 | two strictly sorted lists with the same elements are equal, so `sorted(set(...))` has only one possible result |
| SlotOptions.Project | conexion_bd.py:262-265 | the projected values are the column's values over the rows, without the falsy ones when they are dropped |
| SlotOptions.OptionList | conexion_bd.py:262-265 | an option list is strictly sorted and holds exactly the column's values over the rows, without falsy ones when they are dropped |
| SlotOptions.AvailableOptions | conexion_bd.py:224-267 | all four lists are sorted without repeats; a value is offered for a column exactly when some free slot that passes the filters holds it there; the floor, rack and letter lists also require it to be truthy |
| SlotStore.Store.FindSlot | conexion_bd.py:91-96 | finds the slot that holds the pallet, if one does; since no pallet is in two slots, that slot is the only one |
| SlotStore.Store.ReassignPallet | conexion_bd.py:100-108 | the allocation procedure puts an unplaced pallet into a free slot of the requested lane and changes nothing else, or changes nothing when the lane has no free slot; the invariant is kept |
| SlotStore.Store.Assign | conexion_bd.py:75-116 | refusals come in this order: an id that is not an integer, an unknown pallet, then a pallet that already has a slot, which is reported; every refusal leaves the tables unchanged; on success the pallet holds exactly one new, previously free slot in the requested lane; no pallet ends up in two slots |
| SlotStore.Store.RetirePallet | conexion_bd.py:150-155 | after the removal procedure the pallet holds no slot, every other pallet holds a slot exactly when it did before, slots in other lanes keep their occupants, and the invariant is kept; how the lane is reorganised is left open |
| SlotStore.Store.Release | conexion_bd.py:119-164 | refusals come in this order: an id that is not an integer, an unknown pallet, a pallet with no slot, then a pallet whose slot is not at position 1; every refusal leaves the tables unchanged; a pallet at position 1 is released: it no longer holds a slot, every other pallet holds a slot exactly when it did before, and slots outside its lane keep their occupants |
| SlotStore.ReleaseTwice | conexion_bd.py:131-148 | after a successful release, releasing the same pallet again is refused because it has no slot |

## Left out

- Connections, commits, rollbacks, closing and environment variables (`conectar_bd`, `cerrar_conexion_bd`) are database I/O and are not modelled.
- `crear_usuario` and `verificar_credenciales` are not modelled. They wrap SHA-256 hashing and a database uniqueness constraint.
- `obtener_todas_las_posiciones` and `obtener_opciones_campo` are not modelled. Each is a single SELECT with no logic of its own.
- Python's `int(pallet_id)` is not modelled. The id arrives as `Option<int>`, and `None` stands for the ValueError path.
- Store.ReassignPallet: the body of `reasignar_pallet` is not part of this model. It is modelled as choosing any free slot of the lane. Its failure is modelled only as "the lane has no free slot"; any other driver error it might raise is not.
- Store.RetirePallet: the body of `retirar_pallet` is not part of this model. Its contract says only that the pallet leaves its slot, that no other pallet gains or loses a slot, and that other lanes are untouched. How the pallets left in the lane are moved is not specified.
- `actualizar_status_ubicacion` is not modelled. The option query reads `status_ubicacion` as it is stored (`SlotOptions.SlotRow.status`). The store in `SlotStore` has no status column. The two models of the slot table are not connected.
- Store.Release: a driver error during removal, and the rollback that follows it, is not modelled.
- Store.Release: the code reads the pallet's slot and position from the table `asignacion_pallet`, while `asignar_ubicacion` reads `ubicaciones.id_pallet_asignado`. The model reads both through the one `occupant` map, via `FindSlot`, so the two tables are assumed to agree.
- Store.Assign and Store.Release: `r.Err? ==> occupant == old(occupant)` holds for the guard refusals only. The code commits the stored-procedure call before it runs `actualizar_status_ubicacion`. A driver error in that second call returns an error after the tables have already changed, and the model does not capture this.
- Store.Assign and Store.Release: each guard is checked and then the procedure is called, and nothing makes the two steps atomic. Two concurrent calls can both pass a guard. The model treats each call as one atomic step. The invariant `Valid`, and in particular "no pallet in two slots", depends on that. The same holds for the duplicate check and the insert in `ingresar_pallet`.
- SQL `=` on NPallet, piso, rack and letra is modelled as exact equality of values. The database's collation, such as case-insensitive or trailing-space-insensitive comparison, is not modelled.
- PalletIngest.Ingest: a driver error from the duplicate query or from `InsertPalletFromQR` is not modelled. The insertion is modelled as adding the pallet code to the stored codes. The other columns that the procedure writes are not modelled.
- PalletIngest.IsDigits: ASCII digits only. Python's `str.isdigit` also accepts other Unicode digit characters, such as superscripts.
- Values.Less: Python raises TypeError when `sorted` compares values of different kinds, for example None and text in the tipo_almacen column. The model orders None before numbers and numbers before text instead.
- SlotOptions.Execute: SQL's DISTINCT and ORDER BY on the fetched rows are not modelled, because the caller keeps only the set of values. The conditions are read back from the query text, and only conditions of the form `column = ?` are recognised. The SQL is not otherwise parsed.
- The status messages and the `dbc.Alert` objects that carry them are reduced to result values. Message text and colour are not modelled.
- The example payloads of the ingestion lemmas are written as the comma-join of their five fields rather than as one string literal.
