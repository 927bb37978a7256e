# A verified model of goen

goen buffers edits of a database ("patches"), compiles them into SQL statements and runs them, and loads relations
of records eagerly through a keyed cache. This project models the three parts that carry the logic, and proves what
they promise.

* **The patch compilers** (`Sql`, `RowKeys`, `Compile`, `Compilers`, `BulkMeaning`, `Chunking`, `Fewest`). Statements
  are syntax trees with a relational semantics: tables are sequences of rows with NOT NULL and uniqueness constraints
  that are checked at the end of a statement, and WHERE is three-valued (ISO/IEC 9075:1992 section 8.12). The bulk
  compiler, which merges adjacent patches into multi-row INSERTs and OR-ed UPDATEs and DELETEs, is proved to do exactly
  what the default compiler does, failures included, in as few statements as its limit allows, but for one kind of
  delete patches (see below).
* **The scope cache and the include loaders** (`KeyStrings`, `ScopeCaches`, `Joins`, `CacheContents`, `Includes`,
  `LoaderLists`, `EagerQueries`, `Meta`, `SchemaTags`, `PairedTags`). One string-keyed map holds three indexes. It is
  proved to answer like a plain log of additions and removals. A whole eager query of any depth, with any list of loaders in
  which no one-to-many loader shares its table with another, is proved to fill every relation field of every record it
  reaches with the nested-loop join of the two tables. The keys that the generated loaders ask for are proved to be the
  keys under which the meta schema files objects, all the way from the struct tags.
* **The unit of work** (`PatchLists`, `UnitOfWork`, `PatchMeaning`, `EntityPatches`, `Dialects`). The patch buffer is a ring
  of linked elements on the heap and is drained by copying its head; statements run until one fails; a transaction scope commits
  or rolls back; quoting keeps the meaning of row keys; entity patches act on the row of their entity.

Loops over linked lists, maps and slices are methods with invariants, proved against functions (`Compile.BulkCompile`,
`ScopeCaches.Add`, `Meta.MetaOf`, …) about which the laws are then proved as lemmas. What these functions amount to is
also told without them: `PatchMeaning.PatchMeans` says what a patch does to the rows of its table, `SchemaTags` what the
schema holds by the literal tags, `EntityPatches.PatchColumns` which fields a patch sends, `Dialects.ShippedMarks` how the
two dialects delimit names.

Five places where the code is not what its reader may expect are modelled as the code has them:

* The bulk compiler checks the lengths of columns and values, and the kind, only for the first patch of each chunk, the default
  compiler for every patch. `Chunking.PanicsAgree` says for which lists this makes a difference, `HiddenMalformedExample` shows one.
* Whether deletes are merged also depends on the columns of their patches, which no statement shows: neighbours that name
  different ones stay apart (`compiler.go:217-225`). `Fewest.FewestUnlimited` says that this is the only case in which fewer
  statements would do, `OddDeletesExample` shows it. `meta.go:350-358` makes no such patches.
* Renaming the columns of a row key deletes and reinserts entries of the map it ranges over. It goes wrong, for some
  iteration order, exactly when a column of the key is the quoted form of another (`RowKeys.RequotingAlwaysRight`).
* The comment on `MaxIncludeDepth` calls a negative value unlimited (`db_ctx.go:37`); the loop runs no round then
  (`db_ctx.go:177`). `EagerQueries.IncludeContext` has the loop.
* An object that one loader or the root query caches also starts buckets under the other one-to-many keys of its table,
  and a loader that finds a bucket does not query. `CacheContents.NewBucket` says when such a bucket is complete,
  `PartialBucketExample` shows one that is not, and `EagerQueries.RootsOk` says for which root queries nothing is missing.

## Model

| member | source | states |
|---|---|---|
| BulkMeaning.BulkPreservesMeaning | compiler.go:149-208 | for every dialect, limit, patch list that the default compiler accepts, and consistent database: the bulk compiler accepts it too, and its statements run to completion exactly when the default ones do, ending in the same database |
| BulkMeaning.ChunkMeaning | compiler.go:160-195 | the one statement of a chunk has the effect of its patches' statements one after the other, and fails when one of them does |
| BulkMeaning.UpdateGrows | compiler.go:179-195 | one more row key OR-ed to an update is one more update, also when SET overwrites columns that row keys test, and with constraints checked at the end of each statement |
| BulkMeaning.DeleteGrows | compiler.go:168-178 | one more row key OR-ed to a delete is one more delete on a consistent table |
| BulkMeaning.InsertGrows | compiler.go:160-167 | one more row in an INSERT is one more INSERT; a batch fails exactly when one of its rows does |
| BulkMeaning.ClashRemains | compiler.go:226-234 | a uniqueness clash after assigning the same constants to fewer rows was there before, or is still there after assigning them to more |
| BulkMeaning.OverwriteTwice | compiler.go:226-234 | assigning the same constants twice is assigning them once |
| Sql.ConjunctionInAnyOrder | compiler.go:72-82 | a row key means the three-valued AND of its column tests, in whatever order its map is iterated; without columns, always true |
| Sql.EqSelects | compiler.go:72-82 | a row key selects exactly the rows that hold its values, a nil value matching NULL |
| Sql.OrSelects | compiler.go:170-177 | an OR of row keys selects a row exactly when one of them does; unknown parts do not hide a true one |
| Chunking.GreedyIsOptimal | compiler.go:153-206 | no order-preserving split of the list into chunks of patches that the compiler takes for compatible, within the limit, has fewer chunks than the greedy one |
| Chunking.FewestStatements | compiler.go:149-208 | the bulk compiler emits no more statements than any such split has chunks |
| Fewest.NoListIsShorter | compiler.go:149-236 | whatever is merged with whatever: no list of statements that comes apart into the statements of the single patches, in order and with at most the limit in each, is shorter than what the bulk compiler emits, as long as neighbouring deletes of one table name the same columns |
| Fewest.FewestUnlimited | compiler.go:217-225 | without a limit that condition is exact: if neighbouring deletes name different columns, a shorter list exists |
| Fewest.FewestExactly | compiler.go:149-236 | with a limit: the output is as short as can be exactly when it is as long as for the same patches with the columns of the deletes left out |
| Fewest.OddDeletesExample | compiler.go:217-225 | two deletes whose patches name different columns: two statements where one has the same parts |
| Fewest.BulkMerges | compiler.go:160-206 | the bulk statements come apart into the statements of the single patches, and none is empty or above the limit |
| Fewest.AlikeAreOne | compiler.go:160-195 | inserts or deletes of one table and one column list, and updates with one list of values too, become one statement if the limit allows |
| Fewest.ContextKeepsLimit | db_ctx.go:194-206 | a context with a bulk compiler passes its limit on, for all row keys |
| Chunking.SuffixNeedsNoMore | compiler.go:153-206 | cutting a suffix of the list greedily never takes more chunks than cutting the list |
| Chunking.ChunksConserve | compiler.go:153-206 | the chunks in order concatenate to the input; each is non-empty, within the limit, and its patches are compatible with each other |
| Chunking.OneStatementPerChunk | compiler.go:153-206 | the bulk compiler's result has one statement per chunk |
| Chunking.StatementsConserve | compiler.go:160-195 | taken apart, the bulk statements are the default compiler's statements: every inserted row and every row key once, in input order, with its table, columns and values |
| Chunking.BulkPanicsAtHeads | compiler.go:153-157 | the bulk compiler panics exactly when a malformed patch, or one of unknown kind, is the first of its chunk; chunks are runs of compatible neighbours, counted off in steps of the limit |
| Chunking.PanicsAgree | compiler.go:114-118 | the two compilers agree on whether to panic exactly when the patches are all well-formed or one that is not is the first of its chunk |
| Chunking.HiddenMalformedExample | compiler.go:155-157 | two deletes, the second with a stray value: the bulk compiler accepts them, the default compiler panics |
| Chunking.CleanlyCompiled | compiler.go:72-82 | when no column of a row key is the quoted form of one of its columns, neither compiler has a choice: its result is the one function of the list about which the meaning is proved |
| Chunking.PanicsFixed | compiler.go:114-118 | whether a compiler panics depends on the patches only, never on the iteration order of a row key |
| Compilers.QuoteAll | compiler.go:64-70 | every name quoted, in order |
| Compilers.SetClause | compiler.go:127-129 | each quoted column is assigned the value at its position |
| Compilers.CompileOne | compiler.go:119-136 | the statement of one patch by its kind, for every row key: a row key that the renaming loop can spoil gets a condition that the loop leaves for some iteration order |
| Compilers.CompileDefault | compiler.go:110-141 | walking the linked list yields one statement per patch in list order, for every list; panics exactly when some patch is malformed or of unknown kind |
| Compilers.MoreRows | compiler.go:162-166 | the inner cursor stops on the last patch of the greedy chunk, having taken the values of exactly its patches |
| Compilers.MoreConds | compiler.go:170-176 | the same for the conditions of deletes and updates, each one that its row key may become |
| Compilers.CompileChunk | compiler.go:154-205 | one turn of the outer loop yields the statement of the chunk at the cursor, for all row keys, and leaves the cursor on its last patch; it panics exactly when the chunk's first patch is malformed or of unknown kind |
| Compilers.CompileBulk | compiler.go:149-208 | the nested cursor loops terminate and emit, for every list, one statement per chunk of the list the cursor walks, or panic exactly when the head of a chunk is malformed |
| Compilers.IsCompat | compiler.go:210-236 | same kind, table and columns, and for updates the same values, decided by the loop over the columns |
| RowKeys.Canonical | row_key.go:30-41 | the columns of a row key in strictly increasing order, each beside its value |
| RowKeys.Requote | row_key.go:47-55 | deleting and reinserting in some order of the original columns gives, for keys without a column that is the quoted form of another, exactly the quoted columns with their values |
| RowKeys.RequotingExact | row_key.go:49-53 | for one visiting order: the result is right exactly when no column is visited after the column whose quoted form it is |
| RowKeys.RequotingAlwaysRight | row_key.go:49-53 | the result is right for every visiting order exactly when no column is the quoted form of one of the columns |
| RowKeys.RevisitQuotesTwice | row_key.go:49-53 | a loop that also visits an entry it has inserted itself gives a wrong key |
| RowKeys.RowKeyToSqlizer | compiler.go:72-82 | a missing row key becomes the condition that is always true, without a dialect a row key is its own condition, and otherwise it becomes what the renaming loop makes of it in some order of its columns |
| RowKeys.CleanCond | compiler.go:72-82 | unless one of its columns is the quoted form of one of them, a row key becomes one condition only: its quoted columns with their values |
| RowKeys.KeylessSelects | compiler.go:73-76 | whatever condition a missing row key, or one without columns, becomes, it is true of every row |
| RowKeys.CleanSelects | row_key.go:43-57 | the condition of any other row key that the renaming loop cannot spoil is true of exactly the rows that hold its values, NULL for nil |
| RowKeys.QuotingKeepsMeaning | compiler.go:72-82 | the quoted row key has, on every row, the truth value of the unquoted one |
| Dialects.ScanInvertsQuote | dialect/postgres/dialect.go:18-20 | with the mark of the dialect, scanning a delimited identifier (ISO/IEC 9075:1992 section 5.2) yields a name and a rest exactly when the text is the quoted name followed by that rest, which does not start with the mark |
| Dialects.ShippedMarks | dialect/postgres/dialect.go:18-20 | a name quoted for PostgreSQL starts with a double quote and is read back up to the closing double quote; for SQLite the same with backquotes; without a dialect names are left alone |
| Dialects.QuoteInjective | dialect/sqlite3/dialect.go:18-20 | different names have different quoted forms |
| Dialects.QuoteLengthens | dialect/postgres/dialect.go:18-20 | quoting adds at least two characters, so no name is its own quoted form |
| PatchLists.PatchList.PushBack | utils_gen.go:77-81 | appends a value, and keeps the elements linked into one ring through the root in both directions |
| PatchLists.PatchList.PushBackList | utils_gen.go:83-86 | appends copies of the other list's values, which keeps its own |
| PatchLists.PatchList.Init | utils_gen.go:33-37 | empties the list without touching its former elements |
| PatchLists.Drain | db_ctx.go:194-206 | the copied head walks over exactly the old patches in order, and the buffer is empty |
| PatchLists.DrainThenBuffer | db_ctx.go:98-100 | patches buffered afterwards do not disturb that walk |
| UnitOfWork.DialectKeepsMeaning | compiler.go:57-82 | whatever the dialect, the default statements do what the unquoted patches do one at a time |
| UnitOfWork.CompiledMeaning | db_ctx.go:194-206 | with either compiler, running the compiled statements is applying every patch one at a time in order |
| PatchMeaning.PatchMeans | compiler.go:119-136 | exactly when a patch succeeds and what it does then, told without statements: an insert adds one row, NULL where no value is given; an update writes its values into the rows that hold its row key; a delete takes these rows away |
| PatchMeaning.KeylessDelete | compiler.go:73-76 | a delete without a row key empties its table |
| PatchMeaning.KeylessUpdate | compiler.go:73-76 | an update without a row key gives every row its values and changes no other column |
| PatchMeaning.DeleteSucceeds | compiler.go:131-134 | on a consistent database a delete whose table and columns exist never fails |
| UnitOfWork.WithoutCompiler | db_ctx.go:197-200 | a context without a compiler emits one statement for each patch, of its kind, and panics at any malformed patch |
| UnitOfWork.CompiledWith | db_ctx.go:194-206 | a result that the compiler in use may return panics exactly when the compiler does, and for row keys the renaming loop cannot spoil it is the only one |
| UnitOfWork.RunsAPrefix | db_ctx.go:212-228 | what ran is a prefix of the statements, the next one is the one that failed, and none runs after the driver gives up |
| UnitOfWork.RunUntilTheEnd | db_ctx.go:212-228 | all statements run exactly when none fails and the driver does not give up |
| UnitOfWork.DBContext.AddPatch | db_ctx.go:98-100 | the patch goes to the end of the buffer; nothing is compiled |
| UnitOfWork.DBContext.CompilePatch | db_ctx.go:194-206 | empties the buffer and compiles its patches, whatever their row keys; over any run each buffered patch has been compiled once, in order, or is still buffered |
| UnitOfWork.DBContext.ExecStatement | db_ctx.go:223-225 | a statement takes effect as a whole or fails without effect; on a finished transaction it fails |
| UnitOfWork.DBContext.ExecAll | db_ctx.go:214-227 | the loop runs statements until one fails or the driver gives up, which on a finished transaction it does at the first |
| UnitOfWork.DBContext.SaveChanges | db_ctx.go:212-228 | runs the compiled statements up to the first failure and reports whether all ran; on a finished transaction none runs; a panic while compiling changes no data |
| UnitOfWork.DBContext.UseTx | db_ctx.go:81-95 | the clone has its own buffer with the same patches, and the original keeps its own |
| UnitOfWork.Tx.Commit | tx_scope.go:20-24 | publishes the work when the database accepts it and ends the transaction either way |
| UnitOfWork.TxScope | tx_scope.go:13-27 | the transaction is closed however the function ends, also when the function itself committed or rolled back; the data is the function's result when it succeeded and the commit was accepted or when it committed itself, and the old data otherwise |
| UnitOfWork.EndScope | tx_scope.go:18-25 | what follows the function: commit unless it failed or panicked, and the deferred rollback; shared by the two scopes |
| UnitOfWork.SaveInTx | tx_scope.go:13-27 | for every patch list: inside a scope every compiled statement has run or nothing has changed, with a statement failing at any index, a failed commit, a failed begin or a panic, and it says exactly when it saves; for well-formed patches with row keys the renaming loop cannot spoil that is all buffered patches, one at a time in order, or nothing |
| KeyStrings.KeyStringFromRowKey | meta.go:177-207 | the key string depends on the table and the map from columns to rendered values only |
| KeyStrings.CacheKeyInjective | scope_cache.go:19-30 | without ';' or '#' inside, nor '=' in a column name, cache keys are equal exactly when cardinality, table and rendered columns are |
| KeyStrings.KeyStringExample | meta.go:204-206 | the key string of two columns, in the order of their names, and its three forms |
| KeyStrings.SeparatorCollision | meta.go:204-206 | a separator inside a value makes two different row keys share a cache key |
| ScopeCaches.ScopeCache.GetObject | scope_cache.go:48-58 | answers what the log of additions and removals says: the last object, or the bucket in insertion order |
| ScopeCaches.ScopeCache.HasObject | scope_cache.go:88-95 | says whether the log has something under the key |
| ScopeCaches.ScopeCache.AddObject | scope_cache.go:60-85 | keeps the map in step with the log; the type assertion on a bucket cannot fail |
| ScopeCaches.ScopeCache.RemoveObject | scope_cache.go:97-114 | keeps the map in step with the log |
| ScopeCaches.AddRefines | scope_cache.go:60-85 | adding to the map is appending to the log: last object for primary and many-to-one keys, buckets with multiplicity for one-to-many keys |
| ScopeCaches.RemoveRefines | scope_cache.go:97-114 | removing from the map is a removal in the log, which forgets what was added before under its keys |
| ScopeCaches.AddAt | scope_cache.go:60-85 | an addition changes the entries under the object's own keys, each in its own index, and no other entry |
| ScopeCaches.AddedIsFound | scope_cache.go:60-85 | an added object is found by its primary key, at the end of the bucket of each of its one-to-many keys, and under each of its many-to-one keys, the keys being spelled out by columns and values |
| ScopeCaches.RemovedIsGone | scope_cache.go:97-114 | a removed object is gone under its primary key and its reference keys, whatever the cardinality |
| ScopeCaches.RemoveLeavesNoTrace | scope_cache.go:97-114 | after a removal every lookup by a key of the object misses, whatever the cardinality, and every other key is unchanged |
| ScopeCaches.AddThenRemove | scope_cache.go:60-114 | adding an object to a cache without entries at its keys and removing it restores the cache exactly |
| Joins.BelongsMeaning | test/multiref/goen.go:949-957 | equal key columns, being selected by the row key's condition, and having the same cache key are the same thing |
| Joins.MatchingIsJoin | test/multiref/goen.go:1003-1012 | the rows filed under a record's key are its side of the nested-loop join, in table order |
| Joins.FetchedMatching | test/multiref/goen.go:970-984 | the one query for all missing keys brings for each of them all of its rows, and no row of another key |
| CacheContents.AllMatching | scope_cache.go:68-78 | the objects filed under a one-to-many key are those whose rows have it, in order, each as often as its table has that key |
| CacheContents.LoadFills | test/multiref/goen.go:995-997 | after caching what the query brought, the bucket of a missing key holds all of its rows, or is missing when there are none; a key that was not asked for keeps its bucket |
| CacheContents.LoadKeepsComplete | test/multiref/goen.go:995-997 | a load keeps every bucket of its relation complete and leaves the present ones alone |
| CacheContents.LoadKeepsSound | scope_cache.go:79-84 | caching rows of the table keeps every many-to-one entry an object that has the key it is filed under |
| CacheContents.LoadKeepsObjects | test/multiref/goen.go:539-541 | a load replaces no object that a many-to-one key already leads to |
| CacheContents.OthersKeep | scope_cache.go:60-85 | caching objects of another table changes nothing that is filed for a relation |
| CacheContents.NewBucket | scope_cache.go:68-78 | objects filed under a new one-to-many key make a complete bucket exactly when they hold all rows with that key, in order, or none |
| CacheContents.OtherKeyBucket | test/multiref/goen.go:964-969 | after a whole load for one relation, the bucket under another one-to-many key of the same table is complete exactly when the query asked for all rows with that key, or brought none |
| CacheContents.PartialBucketExample | test/multiref/goen.go:964-969 | two children, two holders and two one-to-many keys: after the load for the first holder, the second finds a bucket with one of its two children |
| Includes.Query | test/multiref/goen.go:683-704 | one new object per row that ORDER BY, LIMIT and OFFSET leave of the selected ones, in their order, with empty relation fields |
| Includes.Uncached | test/multiref/goen.go:959-969 | the keys of the records that the cache does not know, in record order |
| Includes.LoadMissing | test/multiref/goen.go:970-1001 | one query for the missing keys; its objects are cached and handed to the next round |
| Includes.FillMany | test/multiref/goen.go:1003-1012 | each record's field is extended by the bucket of its key, and its other fields are untouched |
| Includes.FillOne | test/multiref/goen.go:545-551 | each record refers to the cached object of its key, or keeps what it referred to; its other fields are untouched |
| Includes.IncludeMany | test/multiref/goen.go:943-1015 | appends to every record its side of the join in table order, keeps every bucket complete and every present one as it is, hands what it loaded to the next round, and passes over records of another type; the table may have several one-to-many keys |
| Includes.IncludeOne | test/multiref/goen.go:487-556 | every record whose referent exists refers to an object with equal key columns, every other keeps what it referred to; with all keys cached nothing is queried |
| Includes.ReferentFound | test/multiref/goen.go:545-551 | after loading, a record's key is cached exactly when its referent exists, and leads to it |
| LoaderLists.LoadKeepsAll | include_loader.go:35-42 | one loader's load keeps the cache fit for every other loader of the list, and what is filed for it as it is |
| LoaderLists.BucketStays | test/multiref/goen.go:1004-1012 | a bucket that is a record's side of the join, empty ones included, is what every later load finds there |
| LoaderLists.FilledStays | include_loader.go:35-42 | what the loaders made of a record stays right under every later load |
| LoaderLists.FilledMany | test/multiref/goen.go:1004-1012 | filling one field of a record leaves right what the other loaders, other fields of the same struct included, made of it |
| LoaderLists.FilledOne | test/multiref/goen.go:547-553 | the same for a many-to-one field |
| EagerQueries.QueryRecords | test/multiref/goen.go:683-716 | the records are what the root query leaves of the selected rows; every relation field of every record that a round reached is the join, in table order without duplicates, or the referent; what it leads to is reached by the next round; and when no two selected records share a key, each of their children refers to that very record |
| EagerQueries.RunLoader | include_loader.go:25-27 | one loader on one slice: right fields for what it has filled so far, a cache fit for all loaders, and at most one slice more for the next round |
| EagerQueries.LoadAll | include_loader.go:35-42 | any list of loaders, in any order and with repetitions, one after the other on one slice |
| EagerQueries.IncludeContext | db_ctx.go:174-190 | the rounds, for any list of loaders: every level but the last has been through all loaders, the last waits, and the loop ends when the limit is reached or a round loads nothing; a limit that is not positive allows none |
| EagerQueries.Round | db_ctx.go:179-188 | one round runs every loader on every slice of any frontier; what they load is the next frontier, and earlier slices stay right |
| EagerQueries.RootsOk | test/multiref/goen.go:706-709 | caching the selected records leaves the cache fit for the loaders exactly when, of the rows with one key of a one-to-many relation to their table, the root query selected all in order, or none |
| EagerQueries.DoneIsJoined | test/multiref/goen.go:1004-1012 | what the loaders made of records is, read without the cache, the nested-loop join and the referents |
| EagerQueries.ChildrenLinkBack | test/multiref/goen.go:547-553 | once the rounds got to the children, every child that a selected record holds refers to that record |
| EagerQueries.MirrorBelongs | test/multiref/goen.go:493-501 | a child belongs to a parent exactly when the parent is what the child refers to |
| EagerQueries.ParentFound | test/multiref/goen.go:545-551 | a child finds its parent in any later cache: with distinct parent keys the very parent of the root query |
| Meta.ColPairs | internal/struct_tag.go:89-104 | each element of the tag gives a pair; a missing second name repeats the first |
| Meta.ParentKey | internal/struct_tag.go:70-77 | the columns on the side of the struct that has the field |
| Meta.ChildKey | internal/struct_tag.go:80-87 | the columns on the side of the struct the field leads to |
| Meta.TagRoundTrip | internal/struct_tag.go:89-104 | a tag written for a list of column pairs, in either notation, is read back as that list |
| Meta.FieldByFunc | internal/structs.go:138-145 | the first field with the property |
| Meta.FieldsByFunc | internal/structs.go:147-154 | the fields with the property, in order |
| Meta.IsOneToManyField | internal/structs.go:171-180 | a slice that leads to a struct through references and slices |
| Meta.IsManyToOneField | internal/structs.go:182-188 | a struct, perhaps behind references |
| Meta.OneCardinality | internal/structs.go:171-188 | no field is both |
| Meta.ComputeOf | meta.go:395-470 | the loops over fields and registered types compute the meta table about which `SchemaTags` and `MetaCovers` speak |
| SchemaTags.ColumnsAndKey | meta.go:404-417 | the columns are the fields with neither an ignore nor a foreign key tag, and the primary key those of them with a primary key tag: all of them and nothing else, in field order, each with its name and options |
| SchemaTags.ReferenceKeys | meta.go:419-467 | the reference keys, and those of either cardinality, are the keys of the relation fields of registered types that lead to the struct, and no others |
| SchemaTags.KeyOfNames | meta.go:443-455 | a key has a column for every name of the tag for which there is a field, in order; other names are passed over |
| SchemaTags.ColumnTag | internal/struct_tag.go:43-60 | a column tag with any list of parts is read as name and options: the first part is the name unless empty, `omitempty` counts in second place only, and the primary key tag goes first |
| SchemaTags.UntaggedColumn | internal/structs.go:83-105 | without such a tag the name is the converted field name, and nothing is left out |
| SchemaTags.TableTag | internal/structs.go:55-68 | the first field that is not ignored and has a table or view tag names the table, and the struct does when the tag is empty or missing |
| SchemaTags.RelationTypes | internal/structs.go:171-188 | to-many fields are slices that lead to a struct through any slices and references, to-one fields structs behind references only |
| SchemaTags.ColumnLookup | internal/structs.go:129-145 | a column is looked up as the first field that is not ignored and has its name |
| SchemaTags.FilledLast | meta.go:217-221 | in a row key each column has the last value given for it |
| Meta.MetaCovers | meta.go:460-466 | every one-to-many and many-to-one key is among the reference keys |
| Meta.KeyIsRegistered | meta.go:421-467 | the struct a relation field leads to has the key of that field, under the cardinality of the field |
| Meta.WalkRelation | generator/generator.go:331-361 | the paired columns of a relation with their fields, or a panic when a name has no column |
| SchemaTags.RelationColumns | generator/generator.go:331-361 | the relation names the field, the table and for each pair of the tag two columns with fields that hold them; it panics exactly when a name has no column |
| Meta.LookupsAgree | meta.go:445-449 | generator and meta schema find the same field for a column exactly when no relation field of that column name comes first |
| Meta.PrimaryKeyOf | meta.go:209-223 | the table and the primary key columns with the entity's values |
| Meta.ReferenceKeysOf | meta.go:225-283 | the same for every reference key, in order |
| Meta.GeneratedKeysMeet | generator/templates/table.tgo:352-362 | the row key a loader asks for and the reference key an entity is filed under have the same table and columns, and the same key string exactly when the paired fields render equally |
| PairedTags.PairedTagsJoin | meta.go:421-467 | with the meta schema computed from the tags, the loaders of two relation fields that lead to each other over the same columns meet, in either order, every premise of the join theorem, and lead back |
| PairedTags.TaggedLoaderReady | meta.go:421-467 | every loader generated for a tagged relation field is ready to run over rows that fit the computed meta schema |
| PairedTags.KeyLeads | meta.go:457-466 | the meta schema has the key by which a generated loader looks records up, under the cardinality of its field |
| PairedTags.FiledOnce | meta.go:457-466 | objects are filed once under the key of a field that is the only one-to-many field to lead to their struct |
| PairedTags.PairIsMirrored | generator/generator.go:340-361 | the relations generated for the two fields are each other's inverse |
| PairedTags.LoaderKeyOfRow | generator/templates/table.tgo:352-362 | the key a loader builds from the fields of a scanned record is the relation's key of the scanned row |
| PairedTags.EntityKeyOfRow | meta.go:225-283 | the reference key that the meta schema reads off the fields of a scanned record is its key by the columns of the scanned row |
| PairedTags.PrimaryKeyOfRow | meta.go:209-223 | the same for the primary key of a struct with distinct column names |
| PairedTags.MultirefIsPaired | test/multiref/entity.go:8-24 | the two structs of the composite-key test are such a pair, and the parent has the only one-to-many field that leads to the child |
| PairedTags.MultirefKeys | test/multiref/entity.go:8-24 | the primary keys and columns of the two structs |
| EntityPatches.InsertPatchOf | meta.go:296-318 | the loop builds the insert about which `PatchColumns` and `InsertAddsRow` speak, well-formed and without a row key |
| EntityPatches.UpdatePatchOf | meta.go:320-348 | the loop builds the update about which `PatchColumns` and `UpdateActsOnItsRow` speak, well-formed and under the primary key |
| EntityPatches.DeletePatchOf | meta.go:350-358 | a delete under the primary key |
| EntityPatches.PatchColumns | meta.go:296-348 | an insert carries exactly the columns that may not be omitted or whose value is not nil, zero or empty, an update the same without the primary key, each with the value of its field, in column order |
| EntityPatches.InsertAddsRow | meta.go:296-318 | an insert adds one row, which holds the value of every field that may not be omitted or is set, and NULL elsewhere |
| EntityPatches.DeleteActsOnItsRow | meta.go:350-358 | a delete takes away the rows with the primary key of the entity and keeps the others, in order |
| EntityPatches.MetaIsProper | meta.go:404-417 | distinct column names make a table whose primary key is part of its columns, each named once |
| EntityPatches.UpdateActsOnItsRow | meta.go:320-348 | an update gives the rows with its primary key the value of every other field that may not be omitted or is set, and changes no primary key, no other column, no other row and no other table |
| EntityPatches.UpdatesCommute | meta.go:320-348 | updates of entities with different primary keys do the same in both orders, failures included, on every consistent database each of whose uniqueness constraints covers a key column that tells them apart or no column that they write |
| EntityPatches.UpdateOrdersAgree | meta.go:320-348 | for every database: the two orders agree, failing together or ending in the same database, exactly when the final rows are illegal anyway or the table after the one update alone and after the other alone are both legal or both illegal |
| EntityPatches.OrderMatters | meta.go:320-348 | two rows with a unique number: giving row 1 the number of row 2 fails before row 2 has changed its own, and succeeds afterwards |
| EntityPatches.InsertThenDelete | meta.go:296-358 | inserting an entity with a fresh key, none of it omitted, and deleting it restores the database |

## Left out

* RowKeys.Requote: visits every original column once; the Go specification ("For statements with range clause") also lets a loop visit entries inserted on the way, which `RevisitQuotesTwice` shows to go wrong.
* BulkMeaning.BulkPreservesMeaning: what the statements do is claimed for one condition per row key; a key with a column that is the quoted form of another gets, in either compiler, one of the conditions of `RowKeys.IsCond`, and two runs may differ.
* EagerQueries.QueryRecords: a query that fails is not described beyond its failing, nothing writes to the tables meanwhile, and values in key columns render distinctly and without separators (`KeyStrings.SeparatorCollision`).
* LoaderLists.Setup: a one-to-many loader shares its table with no other loader of the list; `CacheContents.OtherKeyBucket` and `PartialBucketExample` say what happens otherwise.
* UnitOfWork.TxScope: the transaction is as it was begun; a function that keeps running statements on it from elsewhere is not modelled.
* SQL text, placeholders and squirrel's rendering; a statement is its syntax tree, and squirrel's empty `Eq` is always true.
* database/sql, drivers, contexts and scanning by reflection: a query is a filter of rows followed by an arbitrary choice among them (ORDER BY, LIMIT, OFFSET), and a record holds the row it was scanned from, by column.
* Identifier case folding: the loaders put row keys without quotes into their conditions, which the model reads as plain names.
* Values are NULL, integers and text with genuine equality; NaN, `driver.Valuer`, references, and slices as row key values (squirrel's IN) are not modelled.
* Row key types other than `MapRowKey`, and compilers given by the user.
* Compiler hooks, `StmtCacher`, loggers, the dialect registry.
* Foreign keys, deferred constraints, auto-increment and column defaults other than NULL; a statement that names a column twice in SET or in an INSERT's column list fails, as in ISO/IEC 9075:1992.
* How values render into key strings (marshalers, Go's default format) and how Go names become snake case: both are parameters.
* Parsing of struct tags into keys and values; a tag is a map.
* Locks of the scope cache: each operation is one critical section.
* View structs, one-to-one relations, package loading, template execution, embedded data and the command line.
