# Near-Earth-object loaders: the record-mapping step

This project models the two loaders of `extract.py`, which feed a database of
near-Earth objects and their close approaches to Earth:

- `load_neos` reads a table of near-Earth objects. For every row it builds one
  object whose designation, name and diameter are the row's `pdes`, `name` and
  `diameter` texts. The object is hazardous exactly when `pha` is `"Y"`.
- `load_approaches` reads a close-approach document. For every array listed
  under its key `data` it builds one close approach from the elements at
  positions 0 (designation), 3 (time), 4 (distance) and 7 (velocity).

The model starts from input that is already parsed. A table row is a
`map<string, string>` from column header to text. The document is a
`map<string, seq<seq<string>>>`. The Python exceptions become a
`Result<T, LoadError>`. A missing column or a missing `data` key gives
`KeyError(key)`, taken from the first lookup that fails, in the source's
evaluation order. An array too short for a position gives `IndexError(index)`, for
the first such position in the order 0, 3, 4, 7. A failed load returns no
records at all.

`results.dfy` (module `Results`) defines `MapAll`. It is the all-or-nothing traversal
both loaders perform. It comes with its general lemmas: success exactly when
every element maps, one image per element in order, the first error wins, and
congruence. `extract.dfy` (module `Extract`) holds:

- the per-record mappings `MapRow` and `MapArray`;
- reference relations `RowYields` and `ArrayYields`, and inverses `RowOf` and
  `ArrayOf`, as independent partners of those mappings;
- the two loader methods `LoadNeos` and `LoadApproaches`. Each is a `while`
  loop that appends to `result` as the source does. Each is proved equal to the
  specification functions `NeoRecords` and `ApproachRecords`;
- the properties of those functions, stated as lemmas.

The code looks the columns up row by row, while it builds each object. It runs no
check on the header first. The model does the same. So a table whose header
lacks a column fails only if it has at least one data row. A table with a header
and no data rows loads as the empty list (`NeoRecords([]) == Ok([])`).

## Model

| member | source | states |
|---|---|---|
| Results.MapAllSucceedsIff | extract.py:27-38 | a load loop over a sequence succeeds exactly when every element maps successfully |
| Results.MapAllOkIff | extract.py:27-38 | a successful load loop returns exactly one image per element, in input order, and any sequence with that property is the result |
| Results.MapAllFirstError | extract.py:30-37 | a failed load loop reports the error of its first failing element; every earlier element mapped successfully |
| Results.MapAllPrefixError | extract.py:30-38 | once a prefix fails, the whole call fails with the same error; elements after it are never examined and no partial result survives |
| Results.MapAllAgree | extract.py:30-37 | inputs that map pointwise to the same outcomes give the same load result |
| Results.MapAll | extract.py:30-37 | the loop shared by both loaders (extract.py:30-37 and 50-57): a successful result has one image per element; its full meaning is stated by the `MapAll*` lemmas |
| Extract.MapRow | extract.py:31-36 | a row yields an object exactly when it has all of `pdes`, `name`, `diameter`, `pha`; otherwise the error names the first absent one in lookup order |
| Extract.MapRowMatchesReference | extract.py:31-36 | `MapRow(row) == Ok(n)` exactly when `n` copies `pdes`, `name`, `diameter` verbatim and is hazardous iff `pha` is `"Y"` (both directions) |
| Extract.HazardousIffY | extract.py:35 | whatever a complete row holds otherwise, the hazard flag is true for `pha` exactly `"Y"` and false for `"N"`, empty or any other text |
| Extract.MapRowReadsOnlyNeoColumns | extract.py:31-36 | two rows that agree on the presence and text of the four read columns give the same outcome |
| Extract.MapRowIgnoresOtherColumn | extract.py:31-36 | setting any column other than the four read leaves a row's outcome unchanged |
| Extract.MapRowRowOf | extract.py:31-36 | the row made of an object's fields maps back to that object |
| Extract.ErosRow | extract.py:31-36 | the row 433 / Eros / 16.84 / N maps to a harmless object named Eros with diameter text 16.84 |
| Extract.NeoRecords | extract.py:27-38 | what `load_neos` returns for the parsed rows: a successful result has one object per row; its meaning is stated by the `NeoRecords*` lemmas |
| Extract.LoadNeos | extract.py:27-38 | the `for record in data` loop that appends one object per row returns exactly `NeoRecords(rows)`, so equal rows always give equal results |
| Extract.NeoRecordsSucceedIff | extract.py:30-38 | the mapping step of `load_neos` succeeds exactly when every row has the four columns (this assumes the object constructor always returns) |
| Extract.NeoRecordsOnePerRow | extract.py:27-38 | `load_neos` returns `neos` exactly when `neos` has one object per row, in row order, each related to its row by `RowYields` |
| Extract.NeoRecordsFirstError | extract.py:32-35 | a failed `load_neos` reports the first missing column of the first incomplete row; all earlier rows are complete |
| Extract.NeoRecordsReadOnlyNeoColumns | extract.py:29-37 | tables that agree row by row on the four read columns load to the same result; other columns never matter |
| Extract.NeoRecordsRoundTrip | extract.py:27-38 | loading the rows of a list of objects gives back that list |
| Extract.MapArray | extract.py:51-56 | an array yields an approach exactly when it has at least eight elements; otherwise the error names the first of positions 0, 3, 4, 7 that it lacks |
| Extract.MapArrayMatchesReference | extract.py:51-56 | `MapArray(a) == Ok(c)` exactly when `a` has at least eight elements and `c` holds its elements 0, 3, 4, 7 verbatim (both directions) |
| Extract.MapArrayReadsOnlyApproachFields | extract.py:51-56 | arrays that agree on which of positions 0, 3, 4, 7 they have, and on the elements there, give the same outcome |
| Extract.MapArrayIgnoresOtherIndex | extract.py:51-56 | changing the element at any position other than 0, 3, 4, 7 leaves the outcome unchanged |
| Extract.MapArrayIgnoresSwap | extract.py:51-56 | swapping the elements at positions 1 and 2 leaves the outcome unchanged |
| Extract.MapArrayIgnoresTail | extract.py:51-56 | elements after position 7 are never read |
| Extract.MapArrayArrayOf | extract.py:51-56 | the array made of an approach's fields maps back to that approach |
| Extract.ApproachArray | extract.py:51-56 | the array for 2015 AB maps to the approach with time 2020-Jan-01 00:00, distance 0.1659 and velocity 12.34 |
| Extract.ApproachRecords | extract.py:47-58 | what `load_approaches` returns for the parsed document: a successful result means `data` is present and has one approach per array; its meaning is stated by the `ApproachRecords*` lemmas |
| Extract.LoadApproaches | extract.py:47-58 | the `for record in data["data"]` loop that appends one approach per array returns exactly `ApproachRecords(doc)`, so equal documents always give equal results |
| Extract.ApproachRecordsNeedData | extract.py:50 | a document without the `data` key fails with `KeyError("data")` |
| Extract.ApproachRecordsSucceedIff | extract.py:50-57 | the mapping step of `load_approaches` succeeds exactly when `data` is present and every array under it has at least eight elements (this assumes the approach constructor always returns) |
| Extract.ApproachRecordsOnePerArray | extract.py:47-58 | `load_approaches` returns `approaches` exactly when `data` is present and `approaches` has one approach per array, in order, each related to its array by `ArrayYields` |
| Extract.ApproachRecordsFirstError | extract.py:50-55 | a failed `load_approaches` on a document with `data` reports the first missing position of the first short array; all earlier arrays are long enough |
| Extract.ApproachRecordsReadOnlyApproachFields | extract.py:49-57 | documents whose `data` lists agree array by array on positions 0, 3, 4, 7 load to the same result; other positions and other top-level keys never matter |
| Extract.ApproachRecordsRoundTrip | extract.py:47-58 | loading a document whose `data` lists the arrays of some approaches gives back those approaches |

## Left out

- Opening and closing the files (extract.py:28, 48) is not modelled. It is file I/O; the model takes already-parsed input.
- `csv.DictReader` and `json.load` (extract.py:29, 49) are not modelled. They are library parsers. Their outputs are modelled as a sequence of string maps and as a map from keys to sequences of string sequences.
- The `NearEarthObject` and `CloseApproach` constructors (extract.py:18) are not modelled. `models.py` is not part of this model. The records hold the raw texts the loaders pass. Number parsing of diameter, distance and velocity, and timestamp parsing of time, happen in those constructors.
- Constructor failures are not modelled. Each `NearEarthObject(...)` and `CloseApproach(...)` call (extract.py:31, 51) is assumed to return. `NeoRecordsSucceedIff`, `ApproachRecordsSucceedIff` and the other success statements hold under that assumption, since number or time parsing in those constructors could raise.
- The CSV header is not modelled apart from the rows. A missing column shows up only through a row that lacks it, so a table with no data rows loads as the empty list whatever its header says.
- `DictReader` fills short rows with `None`, and JSON values can be numbers or null. These are not modelled: every value is a string.
- The document's top-level values other than under `data` are typed as lists of string arrays, because nothing else is read. What other structure would make `data["data"]` or the indexing fail is not modelled.
- Python's `IndexError` does not say which position failed. The model's `IndexError(index)` records the first missing position, 0, 3, 4 or 7, which is more than the source reports.
- Determinism is not a separate member. `LoadNeos` and `LoadApproaches` ensure their result equals a function of their input, and that is the statement.
- The loaders do not check approach designations against object designations, and neither does the model.
