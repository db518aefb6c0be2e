# dor-console catalog core in Dafny

This project models the bookkeeping core of the dor-console catalog. The
catalog is a read-mostly view of a digital-object repository. It stores
intellectual objects and their revisions, filesets, object files, collections
and PREMIS events. The model covers:

- the pagination record `Page` and the query-string helper `remove_parameter` (`dor/utils.py`);
- the size rollups, the source file and the collection summary of the domain records (`dor/domain.py`);
- the in-memory stores for collections, PREMIS events and intellectual objects, with their append and linear search;
- the SQL-backed repositories and the catalog service, modelled over a snapshot of the database tables:
  - the alternate-identifier codec (`,`-join on write, `split(',')` on read);
  - the PREMIS event link to an object's current revision;
  - the filter, count and page semantics of the managers;
  - the schema's uniqueness constraints;
  - the ORM's type-dispatched `total_data_size` and `collections_summary`.

The modules follow the program's files:

- `Wrappers` (`wrappers.dfy`): `Option` and `Result`
- `Seqs` (`seqs.dfy`): Python `sum`, the slice pair `s[start:][:limit]` (`Window`), the `for … return` linear search (`FindFirst`) and the `where key == value` query (`Select`)
- `Text` (`text.dfy`): `sep.join`, `str.split(sep)`, `str(int)` and the truthiness of `str | None`
- `Utils` (`utils.dfy`): `dor/utils.py`: the `Page` class and `remove_parameter`
- `Domain` (`domain.dfy`): `dor/domain.py`: records, rollups, source file, collection summary
- `Records` (`records.dfy`): the record shapes of `dor/models/domain.py` that `MemoryCatalog` stores
- `Tables` (`tables.dfy`): the tables of `dor/models/`: the rows, the constraints, the current-revision join, and the ORM's `total_data_size` and `collections_summary`
- `CollectionRepository` (`collection_repository.dfy`): `dor/adapters/collection_repository.py`
- `PremisEventRepository` (`premis_event_repository.dfy`): `dor/adapters/premis_event_repository.py`
- `CatalogAdapter` (`catalog_adapter.dfy`): `MemoryCatalog` in `dor/adapters/catalog.py`
- `CatalogService` (`catalog_service.dfy`): `dor/services/catalog.py`

**State.** `Page`, `MemoryCollectionRepository`, `MemoryPremisEventRepository`
and `MemoryCatalog` are classes, because the source assigns their fields in
place:

- `Page`'s constructor runs `UpdateTotals`, as `__post_init__` runs `_update_totals`;
- each store's `Add` appends to a `seq` field;
- each store's `Get` is a loop with an early return, proved equal to `Seqs.FindFirst`.

**Database.** A database is a `Tables.Database` value: one sequence of rows per
table, in table order. A SQL read is a function of that value. A SQL write
returns the new value, or a `DbError`:

- `NoResultFound` and `MultipleResultsFound` are the two ways `one()` / `scalar_one()` raise;
- `IntegrityError` is a violated unique column at commit.

**Constraints.** `Tables.WellFormed` collects the schema's uniqueness
constraints. It also requires `PointersAgree`: a current-revision row names the
identifier of the object row it points at. This is how the catalog loader
writes those rows at `dor/cli/catalog.py:83-88`; the schema does not enforce
it.

**Current-revision join.** The join is modelled with multiplicity: an object
row appears once per current-revision row pointing at it. Under `WellFormed`
that is at most once, and at most one current row exists per identifier
(`Tables.AtMostOneCurrent`). So `get` never meets `MultipleResultsFound`.

**`MemoryCatalog.get`.** It returns the first object added with an identifier,
not the latest revision. The in-memory catalog keeps no current-revision
pointer: a later revision of the same identifier never wins
(`CatalogAdapter.FirstRevisionWins`).

**`Page` offsets.** `Page` follows the code as written: `previous_offset` keeps
its default `-1` whenever `offset - limit < 0`, even for a page that does not
start at 0. The test suite expects otherwise; see Findings.

## Model

| member | source | states |
|---|---|---|
| `Utils.CeilDiv` | dor/utils.py:88 | `math.ceil(total_items / limit)` computed exactly: the least `r` with `total_items <= r * limit` |
| `Utils.TruncDiv` | dor/utils.py:100 | `int(a / b)` for `b > 0`: the quotient truncated toward zero, with the remainder bounds for both signs |
| `Utils.Page.constructor` | dor/utils.py:73-85 | the page keeps `total_items`, `offset`, `limit` and `items`, and the derived fields satisfy `Valid()` |
| `Utils.Page.UpdateTotals` | dor/utils.py:87-92 | `total_pages` is the ceiling of `total_items / limit`; `previous_offset` becomes `offset - limit` when that is at least 0, and `next_offset` becomes `offset + limit` when that is below `total_items`; otherwise each keeps its old value; nothing else changes |
| `Utils.SeveralPages` | dor/utils.py:87-96 | for a positive limit, a non-negative count and `total_pages` computed as `_update_totals` does, `limit < total_items` holds exactly when there is more than one page |
| `Utils.Page.IsUseful` | dor/utils.py:94-96 | on a valid page with a non-negative count, `is_useful` holds exactly when `total_pages > 1`; on a valid page at offset 0, exactly when there is a next page |
| `Utils.Page.Index` | dor/utils.py:98-100 | for `offset >= 0`, `index` is the 1-based number of the block of `limit` items that holds `offset` |
| `Utils.Page.Range` | dor/utils.py:102-108 | the text is exactly the decimal forms, without leading zeros, of two numbers joined by '-': the first is `offset + 1` and the last is exactly `min(offset + limit, total_items)`, so at most `total_items`; when `offset < total_items`, the count of positions shown is `min(limit, total_items - offset)` |
| `Utils.ParseRangeOfShow` | dor/utils.py:108 | `"{a}-{b}"` for non-negative `a` and `b` splits back into exactly `a` and `b` |
| `Utils.OffsetsInRange` | dor/utils.py:89-92 | on a valid page with `0 <= offset <= total_items`, each neighbouring offset is `-1` or lies in `[0, total_items)` |
| `Utils.NextThenPrevious` | dor/utils.py:87-100 | the page at `next_offset` has this page's offset as its `previous_offset`, and its index is one more |
| `Utils.PreviousOffsetMissedNearStart` | dor/utils.py:89-90 | as written: a page with `0 < offset < limit` has `previous_offset == -1`, where the clamped value is 0 |
| `Utils.ClampedPreviousOffset` | dor/utils.py:89-90 | the previous offset the tests expect: `-1` at offset 0; otherwise a start in `[0, offset - 1]` at most `limit` items back, either 0 or `offset - limit` |
| `Utils.RemoveParameter` | dor/utils.py:121-124 | the result's keys are the input's keys minus `key`, each with its original value |
| `Utils.RemoveParameterAbsent` | dor/utils.py:121-124 | removing an absent key changes nothing; removing a key twice equals removing it once |
| `Utils.RemoveParameterExample` | dor/utils.py:121-124 | the filter parameters of the test suite minus `alt_identifier` |
| `Seqs.Window` | dor/adapters/collection_repository.py:56-60 | `s[start:]`, cut to `limit` when longer: length `min(limit, len - start)` or 0 past the end, element `i` is `s[start + i]` |
| `Seqs.WindowsAdjoin` | dor/adapters/collection_repository.py:56-60 | two consecutive pages together are the page as long as both |
| `Seqs.FindFirst` | dor/adapters/catalog.py:24-28 | the linear search answers `None` exactly when no element has the key; otherwise an element of the list with the key |
| `Seqs.FindFirstIsEarliest` | dor/adapters/catalog.py:24-28 | the element found is the earliest one with the key |
| `Seqs.FindFirstAppend` | dor/adapters/catalog.py:21-28 | after an append, an earlier match still wins; otherwise the appended element is found exactly when its key matches |
| `Seqs.FindFirstConcat` | dor/adapters/catalog.py:21-28 | appending never changes a search that already succeeds |
| `Seqs.Select` | dor/adapters/collection_repository.py:100-102 | keeps exactly the elements whose key is the value, never more elements than the input |
| `Seqs.SelectNone` | dor/adapters/collection_repository.py:103-106 | the query is empty exactly when no element has the key, which is when `one()` raises `NoResultFound` |
| `Seqs.SelectDistinct` | dor/adapters/collection_repository.py:99-104 | over a unique column, at most one element matches |
| `Seqs.SelectConcat` | dor/services/catalog.py:52-55 | the `where` filter distributes over concatenation, so it keeps table order |
| `Seqs.SelectAppend` | dor/adapters/premis_event_repository.py:90-96 | appending a row adds it to the query exactly when its key matches |
| `Seqs.SumConcat` | dor/domain.py:118-121 | `sum` is additive over concatenation |
| `Text.Split` | dor/adapters/collection_repository.py:78 | `split(sep)` never returns an empty list, and no piece contains the separator |
| `Text.JoinSplit` | dor/adapters/collection_repository.py:74-97 | joining the pieces of a split gives the original string |
| `Text.SplitJoin` | dor/adapters/collection_repository.py:74-97 | splitting a join gives the pieces back when there is at least one and none contains the separator |
| `Text.EmptyListDoesNotRoundTrip` | dor/adapters/collection_repository.py:74-97 | the empty list joins to `""`, which splits to `[""]` |
| `Text.ParseDecimalString` | dor/utils.py:108 | reading back the decimal text of a number gives the number |
| `Domain.SourceFiles` | dor/domain.py:65-68 | the list keeps exactly the files tagged `function:source` |
| `Domain.FilesetTotalDataSize` | dor/domain.py:63-69 | 0 when the fileset has no source file; not negative when no file size is negative |
| `Domain.SourceDataSize` | dor/domain.py:63-69 | 0 for a list without source files; not negative when no file size is negative |
| `Domain.SourceDataSizeConcat` | dor/domain.py:63-69 | a fileset's data size is additive over concatenated file lists |
| `Domain.SourceDataSizeCons` | dor/domain.py:63-69 | a source file contributes its size, and any other file contributes nothing |
| `Domain.SourceDataSizeInsert` | dor/domain.py:63-69 | a file not tagged source adds nothing to the data size, wherever it is inserted in the list |
| `Domain.NonSourceFileDoesNotCount` | dor/domain.py:65-68 | inserting (or removing) a non-source file anywhere leaves `total_data_size` unchanged |
| `Domain.SourceObjectFile` | dor/domain.py:71-80 | `None` exactly when no file is tagged source; otherwise the first source file in list order |
| `Domain.FirstSourceFile` | dor/domain.py:71-80 | the first element of the source-file list is the first file of the fileset tagged source, with no source file before it |
| `Domain.FilesetSizes` | dor/domain.py:120 | one entry per fileset, each that fileset's data size |
| `Domain.ObjectTotalDataSize` | dor/domain.py:118-121 | 0 for an object without filesets, whatever its own files; not negative when no fileset's file has a negative size |
| `Domain.FilesetsDataSize` | dor/domain.py:118-121 | 0 for no filesets; not negative when no file size is negative |
| `Domain.FilesetsDataSizeConcat` | dor/domain.py:118-121 | an object's data size is additive over concatenated fileset lists |
| `Domain.ObjectSizeIgnoresOwnFiles` | dor/domain.py:118-121 | the object's own files never change its data size |
| `Domain.ObjectSizeIsSourceFilesOfAllFilesets` | dor/domain.py:118-121 | the two-level rollup equals the source data size of all filesets' files together |
| `Domain.CollectionsSummary` | dor/domain.py:110-116 | empty without collections; when there is at least one alternate identifier and none contains `/`, splitting it on `/` gives every alternate identifier in collection order |
| `Domain.RollupExample` | dor/domain.py:63-121 | a source file of 100 and a service file of 50 make a fileset of 100; two such filesets make 200 |
| `CatalogAdapter.MemoryCatalog.constructor` | dor/adapters/catalog.py:18-19 | a new catalog is empty |
| `CatalogAdapter.MemoryCatalog.Add` | dor/adapters/catalog.py:21-22 | the object is appended; earlier entries and their order are unchanged |
| `CatalogAdapter.MemoryCatalog.Get` | dor/adapters/catalog.py:24-28 | the loop returns what `FindFirst` specifies: the first object added with the identifier, or `None` |
| `CatalogAdapter.GetIsEarliest` | dor/adapters/catalog.py:24-28 | `None` exactly when no stored object has the identifier; otherwise the earliest-added one |
| `CatalogAdapter.ReAddKeepsFirst` | dor/adapters/catalog.py:21-28 | re-adding an identifier does not change what `get` returns for it |
| `CatalogAdapter.FirstRevisionWins` | dor/adapters/catalog.py:21-28 | revision 1 then revision 2 of an identifier: `get` returns revision 1 |
| `CatalogAdapter.GetOnlyObject` | dor/adapters/catalog.py:24-28 | on a catalog holding only `o`, `get` of `o`'s identifier returns `o` |
| `CollectionRepository.MemoryCollectionRepository.Filter` | dor/adapters/collection_repository.py:43-50 | a falsy type (`None` or `""`) returns every collection; any other type keeps exactly the collections of that type; never more than stored |
| `CollectionRepository.MemoryCollectionRepository.constructor` | dor/adapters/collection_repository.py:31-32 | a new repository is empty |
| `CollectionRepository.MemoryCollectionRepository.Add` | dor/adapters/collection_repository.py:34-35 | appends; earlier entries and their order are unchanged |
| `CollectionRepository.MemoryCollectionRepository.Get` | dor/adapters/collection_repository.py:37-41 | the loop returns the first collection with the identifier, or `None` |
| `CollectionRepository.MemoryCollectionRepository.Find` | dor/adapters/collection_repository.py:53-60 | at most `limit` items; empty when `start >= find_total`; otherwise `min(limit, total - start)` items, item `i` being filtered item `start + i` |
| `CollectionRepository.MemoryCollectionRepository.FindTotal` | dor/adapters/collection_repository.py:62-63 | at most the number of collections, and all of them when the type is falsy |
| `CollectionRepository.MemoryCollectionRepository.FindAll` | dor/adapters/collection_repository.py:65-66 | `find_all` is the unfiltered `filter` and the one `find` page as long as the store |
| `CollectionRepository.ModelToCollection` | dor/adapters/collection_repository.py:74-85 | the columns are copied; the alternate identifiers are never an empty list, none contains `,`, and they join back to the stored string |
| `CollectionRepository.CollectionToModel` | dor/adapters/collection_repository.py:87-96 | the columns are copied under the given key; the stored string splits back into the alternate identifiers when there is at least one and none contains `,`; no identifiers store `""` |
| `CollectionRepository.FindPagesAdjoin` | dor/adapters/collection_repository.py:53-60 | consecutive `find` pages join into one longer page |
| `CollectionRepository.CodecRoundTrip` | dor/adapters/collection_repository.py:75-96 | a collection written and read back is unchanged when its alternate identifiers are non-empty and comma-free; `[]` reads back as `[""]`; a stored row read and rewritten is the same row |
| `CollectionRepository.FreshId` | dor/adapters/collection_repository.py:97 | the new row gets a primary key no stored row has |
| `CollectionRepository.SqlAdd` | dor/adapters/collection_repository.py:87-97 | `IntegrityError` exactly when a stored row already has the identifier; otherwise the new state is the old one plus the encoded row |
| `CollectionRepository.SqlAddKeepsIdentifiersUnique` | dor/adapters/collection_repository.py:87-97 | a successful `add` keeps the identifier column unique |
| `CollectionRepository.SqlAddThenGet` | dor/adapters/collection_repository.py:87-109 | `get` after `add` returns the decoded row, which is the collection itself when its identifiers survive the codec |
| `CollectionRepository.SqlGet` | dor/adapters/collection_repository.py:99-109 | `None` exactly when no row has the identifier, otherwise the decoded row with it; the only error is `MultipleResultsFound`, and with unique identifiers `get` never fails |
| `CollectionRepository.RowsOfType` | dor/adapters/collection_repository.py:111-115 | a falsy type keeps every row; any other type keeps exactly the rows of that type; never more rows than the table |
| `CollectionRepository.ToCollections` | dor/adapters/collection_repository.py:116-117 | one decoded collection per row, in row order |
| `CollectionRepository.SqlFind` | dor/adapters/collection_repository.py:111-117 | at most `limit` collections; none when `start >= find_total`; otherwise `min(limit, total - start)`, collection `i` decoded from filtered row `start + i` |
| `CollectionRepository.SqlFindTotal` | dor/adapters/collection_repository.py:119-125 | at most the number of rows, and all of them when the type is falsy |
| `CollectionRepository.SqlFindAll` | dor/adapters/collection_repository.py:127-134 | every row decoded, in table order; equal to the unfiltered `find` page as long as the table |
| `CollectionRepository.MirrorsOfType` | dor/adapters/collection_repository.py:111-115 | filtering rows written from a list of collections by type gives the rows written from the filtered list |
| `CollectionRepository.SqlFindMatchesMemory` | dor/adapters/collection_repository.py:111-134 | over rows written from a list of codec-safe collections, the SQL `find`, `find_total` and `find_all` equal the in-memory ones |
| `PremisEventRepository.MemoryPremisEventRepository.constructor` | dor/adapters/premis_event_repository.py:26-27 | a new repository is empty |
| `PremisEventRepository.MemoryPremisEventRepository.Add` | dor/adapters/premis_event_repository.py:29-30 | appends; earlier events are untouched |
| `PremisEventRepository.MemoryPremisEventRepository.Get` | dor/adapters/premis_event_repository.py:32-36 | the loop returns the first event with the identifier, or `None` |
| `PremisEventRepository.GetAfterAddFresh` | dor/adapters/premis_event_repository.py:29-36 | `get` after `add` of an event with a new identifier returns that event |
| `PremisEventRepository.GetLatestObject` | dor/adapters/premis_event_repository.py:44-51 | a row found is an object row with the identifier that a current-revision row points at; `None` exactly when no such row exists; under the constraints never an error |
| `PremisEventRepository.LinkedIdentifier` | dor/adapters/premis_event_repository.py:55-56 | `None` exactly when the event has no link or the link leads to no row; otherwise the linked row's identifier |
| `PremisEventRepository.EventToModel` | dor/adapters/premis_event_repository.py:73-88 | the row carries the event's identifier, type, date, detail, outcome and note, the agent in three columns that rebuild it, and the given object link |
| `PremisEventRepository.ModelToEvent` | dor/adapters/premis_event_repository.py:53-71 | the columns are copied, the agent is rebuilt from its three columns, and the object identifier is the linked row's, as `LinkedIdentifier` states |
| `PremisEventRepository.ConversionKeepsFields` | dor/adapters/premis_event_repository.py:53-84 | writing and reading back keeps identifier, type, date, detail, outcome, note and the three linking-agent fields; an unlinked row reads back without an object identifier; a row read and written back with its own link is the same row |
| `PremisEventRepository.SqlAdd` | dor/adapters/premis_event_repository.py:73-90 | a new row is appended and nothing else changes; it is linked exactly when the event names an identifier with a current row, and then to that row; `IntegrityError` only for a stored event identifier, and under the constraints always for one; never `NoResultFound`; under the constraints a new identifier always succeeds |
| `PremisEventRepository.SqlGet` | dor/adapters/premis_event_repository.py:92-101 | `None` exactly when no event row has the identifier, otherwise the converted row with it; the only error is `MultipleResultsFound`, and with unique event identifiers `get` never fails |
| `PremisEventRepository.LinkFindsRow` | dor/adapters/premis_event_repository.py:55-56 | with distinct primary keys, following a link finds the row it was made from |
| `PremisEventRepository.SqlAddThenGet` | dor/adapters/premis_event_repository.py:73-101 | `get` after `add` returns the event with every field kept; the object identifier survives exactly when the object had a current revision, and is `None` otherwise |
| `PremisEventRepository.LinkStableUnderNewObjects` | dor/adapters/premis_event_repository.py:55-56 | a stored link reads back the same after more object rows are appended |
| `Tables.One` | dor/services/catalog.py:46 | `scalar_one()`: a row exactly when there is one, and then it is that row; `NoResultFound` exactly when there is none; never `IntegrityError` |
| `Tables.Pointers` | dor/models/intellectual_object.py:95-96 | the count of current-revision rows pointing at a row is positive exactly when one points at it |
| `Tables.JoinCurrent` | dor/models/intellectual_object.py:89-98 | the join keeps exactly the rows some current-revision row points at |
| `Tables.JoinCurrentConcat` | dor/models/intellectual_object.py:89-98 | the join distributes over concatenation |
| `Tables.WithIdentifier` | dor/adapters/premis_event_repository.py:47 | keeps exactly the rows with the identifier |
| `Tables.CurrentWithIdentifier` | dor/services/catalog.py:42-44 | exactly the object rows with the identifier that a current-revision row points at |
| `Tables.JoinCurrentSingle` | dor/models/intellectual_object.py:89-98 | the inner join repeats a row once per current-revision row pointing at it |
| `Tables.AtMostOnePointer` | dor/models/intellectual_object.py:93-94 | under the constraints, no object row has two current-revision rows |
| `Tables.SameIdentifierSameCurrentRow` | dor/models/intellectual_object.py:93-94 | two current object rows with the same identifier are the same row |
| `Tables.AtMostOneCurrent` | dor/models/intellectual_object.py:68-94 | under the constraints an identifier has at most one current row |
| `Tables.FilesOfObject` | dor/models/intellectual_object.py:60 | exactly the file rows whose `intellectual_object_id` is the row's key |
| `Tables.FilesOfFileSet` | dor/models/file_set.py:29 | exactly the file rows whose file-set key is the file set's key |
| `Tables.FilesetsOf` | dor/models/intellectual_object.py:49-58 | exactly the object rows whose `bin_identifier` is this row's identifier and whose type is `types:fileset` |
| `Tables.SourceSizes` | dor/models/intellectual_object.py:79-81 | at most one entry per file; none negative when no file size is negative |
| `Tables.RowTotalDataSize` | dor/models/intellectual_object.py:76-85 | not negative when no stored file size is negative; 0 for a fileset row without source files |
| `Tables.RowSizes` | dor/models/intellectual_object.py:83-85 | one entry per fileset row, each that row's `total_data_size` |
| `Tables.NonSourceFileRowDoesNotCount` | dor/models/intellectual_object.py:78-85 | appending a non-source file changes no object row's data size |
| `Tables.NothingContributesNoSize` | dor/models/intellectual_object.py:82-85 | 0 for a row other than a fileset whose filesets have no source files, or that has no filesets |
| `Tables.RowSizeMatchesDomain` | dor/models/intellectual_object.py:76-85 | a fileset row, or an object row, whose files correspond to a domain record's files has the domain record's data size |
| `Tables.FileSetTotalDataSize` | dor/models/file_set.py:36-41 | 0 when the file set has no source files; not negative when no file size is negative |
| `Tables.FileSetSizeCountsOnlySources` | dor/models/file_set.py:36-41 | appending a file adds its size to the file set's data size when it is a source file of that file set, and adds nothing otherwise |
| `Tables.FileSetSizeMatchesDomain` | dor/models/file_set.py:36-41 | a file set row whose files correspond to a domain file set's files has that file set's `total_data_size`: the sum of the sizes of its source files |
| `Tables.CollectionsOf` | dor/models/intellectual_object.py:64-66 | exactly the collection rows joined to the object row by a membership row |
| `Tables.RowCollectionsSummary` | dor/models/intellectual_object.py:72-74 | empty without collections; when there is at least one and no stored string contains `/`, splitting it on `/` gives each collection's stored string |
| `Tables.SummariesAgreeForSingleIdentifiers` | dor/models/intellectual_object.py:72-74 | when each collection has exactly one alternate identifier, the ORM and domain summaries are equal |
| `Tables.SummariesDifferForTwoIdentifiers` | dor/models/intellectual_object.py:72-74 | a collection with identifiers `a` and `b`: the ORM summary is `a,b`, the domain summary `a/b` |
| `CatalogService.TopLevel` | dor/services/catalog.py:35 | keeps exactly the rows with `bin_identifier == identifier` |
| `CatalogService.ObjectsOfType` | dor/services/catalog.py:36-37 | a falsy type applies no filter; any other type keeps exactly the rows of that type |
| `CatalogService.ObjectsQuery` | dor/services/catalog.py:34-38 | the objects query holds exactly the top-level rows, of the type when given, that are current |
| `CatalogService.Find` | dor/services/catalog.py:10-29 | the page counts every row of the query, holds the window of at most `limit` rows from `start`, has `offset = start` and `limit = limit`, and is valid |
| `CatalogService.FindObjects` | dor/services/catalog.py:34-39 | a page of the objects query; every item is a top-level, current row of the requested type |
| `CatalogService.FindCollections` | dor/services/catalog.py:52-56 | a page of the collection rows of the type, counted before paging |
| `CatalogService.GetObject` | dor/services/catalog.py:41-47 | the result is a current row with the identifier; `NoResultFound` exactly when there is none; under the constraints never `MultipleResultsFound` |
| `CatalogService.GetCollection` | dor/services/catalog.py:58-63 | the result has the identifier; `NoResultFound` exactly when no row has it; with unique identifiers never `MultipleResultsFound` |

## Left out

- `fetch`, `extract_identifier`, `create_uuid_from_string`, the `converter` hooks and `Filter.make_label` in `dor/utils.py`: these are network and file I/O, MD5 hashing, date and UUID formatting, and URL encoding.
- `Page.benchmark`: a float field that nothing derives.
- `Page` is modelled for a positive `limit` only. With `limit == 0` the source raises `ZeroDivisionError`.
- `math.ceil` and `int()` of a float are computed exactly on integers. Float rounding for huge counts is not modelled.
- `CollectionRepository.MemoryCollectionRepository.Find`: `start` and `limit` are natural numbers. Python's negative slice indices are not modelled.
- `CatalogService.Find`, `CatalogService.FindObjects`, `CatalogService.FindCollections`: each requires `start >= 0` and `limit > 0`. A negative OFFSET is left to the database engine. A zero `limit` makes `Page` divide by zero.
- Nullable columns (`alternate_identifiers`, `title`, `description`, the event detail fields) are always strings here. `None` in those columns would make `'/'.join` and `split(',')` raise.
- SQLAlchemy sessions, flush and commit are left out. A write is the state after its commit; an `IntegrityError` is reported as the result of the write.
- The `.replace(tzinfo=UTC)` on datetimes is left out: timestamps are plain integers.
- SQL statements without ORDER BY are evaluated in table order. Nothing is claimed about the order a database engine would return.
- `ondelete="CASCADE"` and `cascade="all, delete"` are left out: deletion is enforced by the engine and no modelled operation deletes.
- `ObjectFile.name` (`pathlib.Path(path).name`) is left out.
- The catalog loader in `dor/cli/catalog.py` is not modelled. The object rows and current-revision rows it writes are part of the snapshot.
- `dor/models/premis_event.py` declares one `linking_agent` column, twice. The repository reads and writes `linking_agent_value`, `linking_agent_type` and `linking_agent_role`; the event row follows the repository.
- `dor/models/object_file.py` links a file to `catalog_fileset`, while `FileSet` in `dor/models/file_set.py` maps `catalog_file_set`. File rows carry one `filesetId`, read as the key of the file set the file belongs to.
- `Decimal("0")` as the start of the size sums is modelled as the integer 0.
- `dor/builder.py`, the command-line tools, the web entry points, the configuration and the front-end script are left out.

## Findings

| source | as written | input that shows it | evidently intended | confidence | as-written member | corrected member |
|---|---|---|---|---|---|---|
| dor/utils.py:89-90 | `previous_offset` is set only when `offset - limit >= 0`, so it stays `-1` for any `0 < offset < limit` | `total_items = 8`, `offset = 1`, `limit = 2`: `previous_offset` is `-1`, while tests/test_utils.py:77-81 expects 0 | a page that does not start at 0 has a previous page starting at `max(0, offset - limit)` | not executed | `Utils.PreviousOffsetMissedNearStart` | `Utils.ClampedPreviousOffset` |
