# dat0, verified

dat0 is a data workbench over DuckDB. This project models the parts of it whose correctness is
its own rather than DuckDB's, and proves what each promises, for all inputs and all runs.

| files | what they model |
|---|---|
| `Transform`, `Like`, `SqlAst`, `SqlLexer`, `SqlPrinter`, `SqlReading`, `SqlParser`, `ViewCompiler`, `ViewMeaning` | the compiler from an undoable stack of typed operations to one SELECT: a relational meaning, the printed text, a lexer and a parser for it, the imperative compiler, and the theorem that text and stack mean the same |
| `ExportSelect`, `Rowids` | the projection an export wraps around a view, and the surrogate row id that views address rows by |
| `Replay` | the order in which a replay makes derived tables: a Kahn sort, and the loop that makes them, each from what is there |
| `Civil`, `Timestamps` | closed-form civil dates against a recursive calendar (section 3.2.1 of ISO 8601:2004), and the text of an instant |
| `OpenFiles`, `QuerySlot`, `Origins`, `Migrations` | the engine's state: claims on database files, the in-flight query, provenance in memory and on disk, schema migrations |
| `BusLease`, `LayoutPersistence`, `OpenQueue`, `ColumnShape` | a window's protocols: the shared event bus, the debounced layout file, files opened while a session boots, dropping and renaming imported columns |
| `PackageDiff`, `LibraryClosure` | the difference between two packages, and the libraries an AppImage carries |
| `Decimal`, `Counting`, `Wrappers` | decimal text of numbers; counts of numbers below a bound; `Option` and `Result` |

Code that computes is a function here, code that changes an object is a class, and a loop is a loop
with invariants. Concurrency is a state machine whose steps are cut where the code releases a lock
or awaits; the class beside it performs the single steps, and its methods' contracts say so.

Choices a reader should know:

- What DuckDB decides is a parameter of every theorem that needs it (`SqlAst.Dialect`): how two
  values compare, a value's text, regular expressions, which value sorts first. Which patterns the
  regular-expression library compiles is a parameter too (`ViewCompiler.RegexCheck`). LIKE with its
  escape character follows section 8.5 of ISO/IEC 9075-2, quoting sections 5.2 and 5.3.
- A float is its printed text: a finite one's, `inf`, `-inf` or `NaN`. The last three are no SQL
  literals, but bare words that DuckDB takes for a column's name, and the parser here refuses them.
  A negative number is one token of the lexer.
- A base table's row id is never NULL. It need not be unique, and edits of the row id column itself
  need no exclusion: every CASE reads the row as it was before.
- Names are compared as they are written, as the code compares them, though DuckDB folds their case.
- Numbers are unbounded. The one cast that can matter, of a year to 32 bits, is modelled.
- The overlay of edits keeps values and renders them at the end; the source renders each as it
  stores it.
- Where the code and its comments differ the code is followed. `interrupt_scoped` is about the slot,
  not about which query the connection is running, and `begin_query` installs its token in a step
  of its own; a claim on a file reads the inode before it takes the lock; an import copies the
  origins before it waits for the connection. `QuerySlot`, `OpenFiles` and `Origins` each give a run
  in which that shows, and the latter two the exact condition under which it does no harm.

## Model

| member | source | states |
|---|---|---|
| `ViewMeaning.CompiledTextMeans` | crates/dat0-engine/src/render.rs:40-193 | for every stack, base table and candidate output: compilation fails exactly at the stack's first refused operation and with its error; else the text reads as SQL exactly when every float that comes to be written is finite, and then DuckDB's answers to the statement read are exactly what the stack means, over the relation given: all edits written in order, deleted ids left out, rows where every filter is true kept, sorted by the last sort |
| `ViewMeaning.NotFiniteIsNoSql` | crates/dat0-engine/src/render.rs:345-353 | a filter on infinity or a not-a-number is accepted and its text is no SQL of the compiler's |
| `ViewMeaning.EditNotFinite` | crates/dat0-engine/src/render.rs:140-193 | so is an edit to one, but not once the cell is written again: the first value never reaches the text |
| `ViewMeaning.CompiledRows` | crates/dat0-engine/src/render.rs:81-133 | the compiled statement's rows are the reference meaning's, in base order, before any sorting |
| `ViewMeaning.CompiledBinds` | crates/dat0-engine/src/render.rs:81-133 | DuckDB accepts the statement exactly when every column the stack names exists (the row id too, when there are edits or deletes); REPLACE names no column twice |
| `ViewMeaning.GatherIs` | crates/dat0-engine/src/render.rs:40-79 | the loop fails at the first refused operation and nowhere else, and otherwise collects the filters in order, the last sort, the overlay of all cells and all deleted ids |
| `ViewMeaning.FilterAcceptedIff` | crates/dat0-engine/src/render.rs:195-314 | a filter is accepted exactly when its value has the shape the operator needs, and else refused with the error that says why: no range, an empty list, the pattern that is no regular expression, or the operator with the name of the value's shape |
| `ViewMeaning.FilterMeans` | crates/dat0-engine/src/render.rs:195-314 | a filter's predicate is true of a row, under three-valued logic, exactly when the filter holds of the value: a NULL passes only the test for it |
| `ViewMeaning.LastWriteWins` | crates/dat0-engine/src/render.rs:140-193 | CASE's first matching branch for a cell is the last value the stack wrote to it, because the overlay keeps one entry per column and id |
| `ViewMeaning.OverlayColumns` | crates/dat0-engine/src/render.rs:158-193 | the overlay names each edited column once, and no other |
| `ViewMeaning.OverlayWrites` | crates/dat0-engine/src/render.rs:140-193 | the REPLACE list gives every row what writing its edits one by one gives it |
| `ViewMeaning.CellsInOrder` | crates/dat0-engine/src/render.rs:48-79 | the cells edited by a stack are those of its operations, one operation after the other |
| `ViewMeaning.CellsOfOne` | crates/dat0-engine/src/render.rs:48-79 | and of one operation, the cells of its edit as it lists them |
| `ViewMeaning.TextDependsOnlyOn` | crates/dat0-engine/src/render.rs:48-100 | stacks with the same filters, edits, deletes and last sort compile to the same text, however interleaved and whatever projection operations stand between |
| `ViewMeaning.ReplayableCompilesFlat` | crates/dat0-engine/src/transform.rs:125-148 | what survives a re-import compiles to the flat form over the stack's own filters and last sort, and compiles whenever the whole stack does |
| `ViewCompiler.CompileViewSql` | crates/dat0-engine/src/render.rs:40-133 | the loop, with its early returns, its growing lists and its two assemblies, produces the text (or error) that `ViewSql` specifies |
| `ViewCompiler.AssembleInner` | crates/dat0-engine/src/render.rs:110-124 | the overlay's text: REPLACE list, relation, and NOT IN clause for the deleted ids |
| `ViewCompiler.AssembleOuter` | crates/dat0-engine/src/render.rs:84-133 | WHERE and ORDER BY as the source appends them, each only when there is something to say |
| `ViewCompiler.EditOverlay.Upsert` | crates/dat0-engine/src/render.rs:158-176 | in place: a new column or id goes last, a rewritten cell keeps its position |
| `ViewCompiler.RenderFilterPrints` | crates/dat0-engine/src/render.rs:195-314 | the text formatted for a filter is the printed form of its predicate, operator by operator, and the errors agree |
| `ViewCompiler.EscapeLikeIsBoth` | crates/dat0-engine/src/render.rs:362-372 | the single-pass escape is LIKE escaping followed by literal escaping |
| `ViewCompiler.LiteralsMean` | crates/dat0-engine/src/render.rs:245-273 | for every searched text and subject: the printed literal, decoded, matches the subject exactly when it contains, begins with or ends in the text |
| `Like.EscapedMatchesItself` | crates/dat0-engine/src/render.rs:362-372 | an escaped text matches itself and nothing else, whatever the pattern goes on with |
| `Like.ContainsIsSubstring` | crates/dat0-engine/src/render.rs:245-258 | `%` text `%`, escaped, matches exactly the texts that hold it |
| `Like.StartsWithIsPrefix` | crates/dat0-engine/src/render.rs:261-266 | text `%`, escaped, matches exactly the texts that begin with it |
| `Like.EndsWithIsSuffix` | crates/dat0-engine/src/render.rs:267-272 | `%` text, escaped, matches exactly the texts that end in it |
| `Like.EscapedIsWellFormed` | crates/dat0-engine/src/render.rs:362-372 | no escaped text ends in a dangling escape character, so DuckDB accepts the pattern |
| `SqlLexer.UnquoteDoubled` | crates/dat0-engine/src/catalog.rs:12-14 | a name or value with its quotes doubled reads back as itself, and nothing after it is swallowed |
| `SqlReading.LexSelect` | crates/dat0-engine/src/render.rs:84-132 | the printed statement lexes to its own tokens, for every column name and string value |
| `SqlParser.PrintThenParse` | crates/dat0-engine/src/render.rs:84-132 | parsing the printed statement returns exactly the statement that was printed, or, when a float in it is not finite, nothing |
| `SqlParser.ComparisonMeans` | crates/dat0-engine/src/render.rs:195-238 | what the reading takes each of the six comparison symbols for, between a column that is not NULL and a text: said symbol by symbol, in terms of how DuckDB compares |
| `SqlParser.BetweenMeans` | crates/dat0-engine/src/render.rs:219-244 | BETWEEN takes both ends in |
| `SqlParser.LikeMeans` | crates/dat0-engine/src/render.rs:245-273 | LIKE with the escape character is the pattern match |
| `SqlParser.NotLikeMeans` | crates/dat0-engine/src/render.rs:245-273 | and NOT LIKE its opposite |
| `SqlParser.NullTestMeans` | crates/dat0-engine/src/render.rs:200-212 | IS NULL is the test for NULL |
| `SqlParser.NotNullTestMeans` | crates/dat0-engine/src/render.rs:200-212 | and IS NOT NULL its opposite |
| `SqlParser.InMeans` | crates/dat0-engine/src/render.rs:274-283 | IN is equality with something listed |
| `SqlParser.LiteralReads` | crates/dat0-engine/src/render.rs:335-353 | the words NULL, TRUE and FALSE, and the texts marked DATE and TIMESTAMP, are the values they name |
| `SqlParser.KeyReads` | crates/dat0-engine/src/render.rs:100-108 | ASC and DESC are the directions they name |
| `SqlParser.CaseMeans` | crates/dat0-engine/src/render.rs:178-193 | a CASE over the row id gives the row of that id the value, and any other what it had |
| `ExportSelect.ExportThenParse` | crates/dat0-engine/src/render.rs:390-403 | an export's text reads back as its columns with their display names and the very SELECT it wraps; with no column, or a float that is not finite, it is no statement |
| `ExportSelect.ColumnMeans` | crates/dat0-engine/src/render.rs:390-403 | a column with an alias is the value of the first name, shown under the second; one alone is shown under its own |
| `ExportSelect.ExportMeans` | crates/dat0-engine/src/render.rs:382-403 | the text around a compiled stack reads as SQL exactly when there is a column and every float written is finite; then it answers over every keyed table exactly what the stack shows, row by row, cut to the columns exported, in their order and under their display names |
| `ExportSelect.ExportedRows` | crates/dat0-engine/src/render.rs:382-403 | an export holds each row the stack shows, as often as it is shown, and no other; of an unsorted stack every such list is an export |
| `Transform.SplitReplayable` | crates/dat0-engine/src/transform.rs:125-148 | the operations kept are those that are neither edits nor deletes, in the order they stand in; the counts are how many edits and how many deletes the stack has; and nothing is lost |
| `Transform.LastSortIs` | crates/dat0-engine/src/render.rs:40-60 | the sort that counts is the one with no sort after it, and there is none exactly when the stack has none |
| `Transform.LastSortKept` | crates/dat0-engine/src/transform.rs:125-148 | leaving out operations that are no sorts leaves the last sort as it was |
| `Rowids.StoredTable.EnsureRowid` | crates/dat0-engine/src/duckdb_engine.rs:1237-1265 | nothing on a table that the comment says is numbered; else every row stays in place, numbered by how many come before it, with every value it had, the value of the user's own column of that name under the other name, with its comment; the columns are the old ones with those two; an error, and nothing done, when there is no room to move it to |
| `Rowids.NumberedIs` | crates/dat0-engine/src/duckdb_engine.rs:1252-1262 | the numbers are 0 to n-1, each once, ascending with DuckDB's own row numbers; every other value is untouched |
| `Rowids.NumberedIsKeyed` | crates/dat0-engine/src/duckdb_engine.rs:1252-1262 | a numbered table meets what the view compiler asks of its base table |
| `Replay.TopoOrderDerived` | crates/dat0-format/src/replay.rs:337-397 | for every recipe (duplicate names, repeated parents and self-parents included) and every hash order: success exactly when no walk from a table to one derived from it returns, and then each derived name once, as its last table, after every derived table it is derived from; else the cycle error |
| `Replay.DerivedIsLast` | crates/dat0-format/src/replay.rs:338-343 | of several derived tables of one name the last counts |
| `Replay.BuildGraph` | crates/dat0-format/src/replay.rs:346-361 | whatever order the map is walked in: each table's count is its pending derived parents, with multiplicity, and the children lists agree |
| `Replay.Seed` | crates/dat0-format/src/replay.rs:364-369 | the queue starts with exactly the derived tables that wait for nothing, in recipe order |
| `Replay.Settle` | crates/dat0-format/src/replay.rs:380-389 | settling a table decrements each child once per mention, never below zero, and queues exactly those that reach zero |
| `Replay.RunQueue` | crates/dat0-format/src/replay.rs:371-390 | the worklist ends, and what it ordered is duplicate-free and parents-first |
| `Replay.StuckHasCycle` | crates/dat0-format/src/replay.rs:392-396 | when fewer tables are ordered than there are, the rest hold a cycle |
| `Replay.OrderExcludesCycles` | crates/dat0-format/src/replay.rs:392-397 | a full order proves that there is no cycle |
| `Replay.StepSql` | crates/dat0-format/src/replay.rs:228-246 | the statement for a step: the recorded query, or the compiled transformation of its parent; the error is that there is no derivation, or why it does not compile |
| `Replay.ReadsParents` | crates/dat0-format/src/replay.rs:228-246 | what a step's statement reads, the relation its parsed text is about or what DuckDB finds in a recorded query, is what the table is derived from, if the recipe records its queries' parents |
| `Replay.Engine.CreateTable` | crates/dat0-format/src/replay.rs:256-259 | a table is made by its statement, unless the name is taken or something that the statement reads is not there |
| `Replay.Engine.Recreate` | crates/dat0-format/src/replay.rs:228-259 | one step: a stale table of the name goes first, and only when there is a statement |
| `Replay.Engine.RecreateInOrder` | crates/dat0-format/src/replay.rs:223-261 | tables are made in the order given, up to the first that cannot be made |
| `Replay.Engine.RecreateDerived` | crates/dat0-format/src/replay.rs:223-261 | for every recipe that records what its queries read: no step is ever refused because something it reads is not there or its name is taken; every derived table a statement reads was made again before; the whole succeeds exactly when there is no cycle and every derived table has a statement, and then each is made by its own and the other tables are as they were |
| `Civil.CivilDateCounts` | crates/dat0-fixtures/src/filter.rs:75-87 | for every day, negative eras included, the closed form gives a real date (month 1 to 12, day within the month under the leap rule) whose number is that day |
| `Civil.CivilDateInverts` | crates/dat0-fixtures/src/filter.rs:75-87 | every calendar date comes back from its day number |
| `Civil.CivilDateAscends` | crates/dat0-fixtures/src/filter.rs:75-87 | later days have later dates |
| `Civil.DayNumberAscends` | crates/dat0-fixtures/src/filter.rs:75-87 | the reference day count is strictly monotone in the date, so day and date determine each other |
| `Civil.DaysToYmdRightIff` | crates/dat0-fixtures/src/filter.rs:75-87 | with the cast of the year to 32 bits the source's answer is right exactly for the days from FIRST_DAY to LAST_DAY |
| `Civil.YearOfEra` | crates/dat0-fixtures/src/filter.rs:79-81 | the year within an era is below 400 and the remaining day count is within that year's length: no unsigned subtraction underflows |
| `Timestamps.NaiveStringAscends` | crates/dat0-fixtures/src/filter.rs:61-73 | while years have four digits, a later second has a text later in dictionary order |
| `Timestamps.NaiveStringSays` | crates/dat0-fixtures/src/filter.rs:61-73 | for as long as the year fits 32 bits, the text is `yyyy-mm-dd hh:mm:ss` and says, number by number, a date and a time of day that there are, and that very second; it has 19 characters while years have four digits |
| `OpenFiles.Registry.Claim` | crates/dat0-engine/src/duckdb_engine.rs:138-154 | all of a file's keys are taken, or none and an error; `:memory:` and the empty path claim nothing |
| `OpenFiles.Registry.ClaimCreated` | crates/dat0-engine/src/duckdb_engine.rs:157-163 | the inode of a file that opening it made is added once, and not checked again |
| `OpenFiles.Registry.Release` | crates/dat0-engine/src/duckdb_engine.rs:165-172 | exactly the claim's keys are given back |
| `OpenFiles.RegistryExcludes` | crates/dat0-engine/src/duckdb_engine.rs:62-195 | in every interleaving of looks, claims, opens, claims of created files, closes and calm steps of others on the files: the registry is the disjoint union of the claims, no two connections are on one inode, and a live engine's inode is claimed or has no other name to be reached by |
| `OpenFiles.NextKeepsInv` | crates/dat0-engine/src/duckdb_engine.rs:62-172 | every step of an engine, and every calm step of somebody else, keeps the registry a partition, each connection's file its own, each engine in order, and each inode that engines have or are to claim that of a file |
| `OpenFiles.CanBreakIff` | crates/dat0-engine/src/duckdb_engine.rs:62-172 | from a sound state, the engines left to themselves can reach an unsound one exactly when some engine is out of order (it wants or has an inode that its keys do not cover and that another can get at) or has the inode of a file that is gone, which a new file may get |
| `OpenFiles.CalmIsExact` | crates/dat0-engine/src/duckdb_engine.rs:138-163 | what somebody else does to the files, making, renaming, linking or removing them, is harmless exactly when it is calm: after any other step some steps of engines break the registry or the exclusion, and after a calm one none do |
| `OpenFiles.FailureRestores` | crates/dat0-engine/src/duckdb_engine.rs:165-195 | wherever in a calm run an engine ends, its claim refused, its open failed or its life over, the registry is afterwards exactly the other engines' claims, and these are as they were |
| `OpenFiles.RenameOntoBreaks` | crates/dat0-engine/src/duckdb_engine.rs:138-163 | a calm run after which moving a claimed file onto a path that another engine has looked at is not calm and leads to a breach |
| `OpenFiles.LinkOntoBreaks` | crates/dat0-engine/src/duckdb_engine.rs:138-163 | the same of linking a file to a path where an engine saw none |
| `OpenFiles.MoveAwayBreaks` | crates/dat0-engine/src/duckdb_engine.rs:157-163 | the same of moving away the file that an open has just made, before its inode is claimed |
| `OpenFiles.RemoveBreaks` | crates/dat0-engine/src/duckdb_engine.rs:138-163 | the same of removing the only name of a file that an engine has looked at: a new file may get its inode |
| `QuerySlot.QueryControl.Mint` | crates/dat0-engine/src/duckdb_engine.rs:203-211 | the first half of `begin_query`: a token nobody has had |
| `QuerySlot.QueryControl.Install` | crates/dat0-engine/src/duckdb_engine.rs:203-211 | the second half, in a step of its own, displaces whatever the slot held |
| `QuerySlot.QueryControl.EndQuery` | crates/dat0-engine/src/duckdb_engine.rs:213-222 | clears the slot only for its own token |
| `QuerySlot.QueryControl.InterruptScoped` | crates/dat0-engine/src/duckdb_engine.rs:227-239 | fires, and counts, exactly when its token is the one installed |
| `QuerySlot.QueryControl.InterruptLane` | crates/dat0-engine/src/duckdb_engine.rs:245-256 | fires, and counts, exactly when the installed query is on that lane |
| `QuerySlot.TokensAscend` | crates/dat0-engine/src/duckdb_engine.rs:203-211 | in every interleaving tokens are distinct and increasing |
| `QuerySlot.StaleStaysStale` | crates/dat0-engine/src/duckdb_engine.rs:213-239 | a token that has left the slot never fires again, and ending it changes no other query's entry |
| `QuerySlot.EndedNeverReturns` | crates/dat0-engine/src/duckdb_engine.rs:203-222 | an ended token is never in the slot again |
| `QuerySlot.DisplacedIsStale` | crates/dat0-engine/src/duckdb_engine.rs:203-222 | installing a token makes the one it displaces stale, whichever was minted first |
| `QuerySlot.CounterCounts` | crates/dat0-engine/src/duckdb_engine.rs:227-268 | the counter is the number of interrupts that returned true |
| `QuerySlot.OlderDisplacesNewer` | crates/dat0-engine/src/duckdb_engine.rs:203-211 | a concrete run in which an older token overwrites a newer one, since minting and installing are two steps |
| `Origins.Engine.Open` | crates/dat0-engine/src/origins.rs:109-159 | an engine on an existing database knows of each table that is still there just what its row records, and nothing of the others |
| `Origins.Engine.RegisterFile` | crates/dat0-engine/src/duckdb_engine.rs:388-462 | unless a table has the name, it becomes a view from that path, in the row and in both maps; every other name is left as it was |
| `Origins.Engine.KnownOrigins` | crates/dat0-engine/src/duckdb_engine.rs:472-474 | the copy of the origins that an import takes, in a step of its own, before it waits for the connection |
| `Origins.Engine.RegisterFileAsTable` | crates/dat0-engine/src/duckdb_engine.rs:465-577 | with origins copied earlier, the import goes under the stem or the first of stem_2, stem_3 and so on that is free or was the file's own when they were copied; unless a view has it, that name becomes a table from that path, and every other is left as it was |
| `Origins.Engine.CreateTable` | crates/dat0-engine/src/duckdb_engine.rs:580-623 | a free name becomes a table with that origin, in memory and on disk; every other is left as it was |
| `Origins.Engine.DropTable` | crates/dat0-engine/src/duckdb_engine.rs:626-644 | nothing is left of a table dropped, in the catalog, its row or either map, and every other name is left as it was |
| `Origins.Engine.RenameTable` | crates/dat0-engine/src/duckdb_engine.rs:647-680 | the new name has the table, its row or none, its origin and how it was read; the old name has nothing; every other is left as it was |
| `Origins.RenameCarries` | crates/dat0-engine/src/duckdb_engine.rs:647-680 | where memory and disk agree, all that was known of a table is known of its new name, and nothing of the old |
| `Origins.Engine.SetFileRead` | crates/dat0-engine/src/duckdb_engine.rs:1211-1225 | memory always remembers; disk only for a table with a row |
| `Origins.Engine.Attach` | crates/dat0-engine/src/duckdb_engine.rs:1022-1039 | attached names are recorded in memory only |
| `Origins.Engine.Detach` | crates/dat0-engine/src/duckdb_engine.rs:1042-1060 | exactly the alias's own entries go |
| `Origins.DetachUndoesAttach` | crates/dat0-engine/src/duckdb_engine.rs:1022-1060 | detaching undoes attaching |
| `Origins.NextKeepsSynced` | crates/dat0-engine/src/duckdb_engine.rs:572-680 | every operation keeps the non-attached part of memory equal to the rows |
| `Origins.SetFileReadSyncedIff` | crates/dat0-engine/src/duckdb_engine.rs:1211-1225 | after a file read is set, memory and disk agree exactly when the table has a row |
| `Origins.ReopenRestores` | crates/dat0-engine/src/origins.rs:109-159 | reopening gives back exactly the non-attached part of the maps |
| `Origins.RunThenReopen` | crates/dat0-engine/src/duckdb_engine.rs:1162-1177 | after any run of operations, closing and reopening restores the non-attached origins and all file reads |
| `Origins.TableNameFor` | crates/dat0-engine/src/register/mod.rs:42-66 | the first of the stem, stem_2, stem_3, and so on that is free or already this file's; the search ends |
| `Origins.NumberedDistinct` | crates/dat0-engine/src/register/mod.rs:42-66 | the candidate names never repeat |
| `Origins.ImportReplacesOnlyItsOwnIff` | crates/dat0-engine/src/duckdb_engine.rs:474-577 | an import under a name picked by earlier origins replaces nothing but the file's own exactly when, as it runs, the name is free or still the file's |
| `Origins.QuietImportReplacesOnlyItsOwn` | crates/dat0-engine/src/duckdb_engine.rs:474-577 | so it is safe after any operations in between that do not make, drop, rename or attach what has the name picked |
| `Origins.StaleImportReplacesAnother` | crates/dat0-engine/src/duckdb_engine.rs:474-501 | and not otherwise: the file's table dropped and a derived one of its name made in between is replaced |
| `Migrations.Connection.ApplyMigrations` | crates/dat0-engine/src/migrations.rs:33-105 | the loop of BEGIN, apply, record, COMMIT or ROLLBACK leaves exactly the state and outcome of `Run`; a finished one returns the last version of the list |
| `Migrations.RunKeepsPrefix` | crates/dat0-engine/src/migrations.rs:33-105 | a run from a database holding a prefix ends holding a prefix no shorter: all of the list when it succeeds, just what precedes the culprit when one fails or the process stops |
| `Migrations.RunsKeepPrefix` | crates/dat0-engine/src/migrations.rs:33-105 | so after any sequence of runs, each of any head of the list and each failing or stopping anywhere, the recorded versions are a prefix and the data is that prefix folded over the empty database |
| `Migrations.DoneIsFresh` | crates/dat0-engine/src/migrations.rs:33-105 | a finished run through any history equals applying the list fresh, and running again changes nothing |
| `Migrations.FaultIsForGood` | crates/dat0-engine/src/migrations.rs:33-105 | where a list first fails to ascend, a run stopped just there is for good: after any later runs, each with any fate, fewer versions are recorded than the list has |
| `Migrations.DoneIsWholeIffIncreasing` | crates/dat0-engine/src/migrations.rs:33-105 | every finished run, whatever runs came before, has the whole list recorded in order, if and only if the list's versions are positive and strictly increasing |
| `BusLease.Boot.Take` | crates/dat0-ui/src/launch.rs:380-386 | a lease takes the receiver out of the slot, or finds none |
| `BusLease.Boot.PutBack` | crates/dat0-ui/src/launch.rs:394-404 | dropping a lease fills the slot before it wakes anyone |
| `BusLease.NextKeepsInv` | crates/dat0-ui/src/launch.rs:373-404 | every step keeps one receiver, a queue of exactly the parked windows, and a wake-up pending while the slot is full and a window waits |
| `BusLease.BusIsNeverLost` | crates/dat0-ui/src/launch.rs:373-404 | so in every interleaving of takes, drops, notifies, waits and closing windows |
| `BusLease.QuietBusIsDrained` | crates/dat0-ui/src/launch.rs:648-658 | when no window has a move left and one is open, one of them holds the bus |
| `LayoutPersistence.Window.RunEffect` | crates/dat0-ui/src/session_boot.rs:60-101 | the first run restores; a later one starts a timer only when the layout differs from the last known |
| `LayoutPersistence.Window.Fire` | crates/dat0-ui/src/session_boot.rs:60-101 | a timer writes what it carries only when no later change has happened |
| `LayoutPersistence.LastLayoutReachesDisk` | crates/dat0-ui/src/session_boot.rs:60-101 | over every run of changes, runs of the effect and timers in any order, from before the restore: the last layout known is on disk or in exactly one pending timer of the current generation, and on disk once none is pending; nothing is written before the restore |
| `LayoutPersistence.EffectMakesKnown` | crates/dat0-ui/src/session_boot.rs:60-101 | once the effect has run after a change with no other since, that layout is the one known and shown, whatever fired in between |
| `LayoutPersistence.LastChangeIsRestored` | crates/dat0-ui/src/session_boot.rs:60-108 | so the layout last set after the restore, once the effect and the timers have run, is what the next window opens with |
| `LayoutPersistence.WritesAtMostChanges` | crates/dat0-ui/src/session_boot.rs:60-101 | over every run the file is written at most once for each change |
| `LayoutPersistence.WritesOnlyChanges` | crates/dat0-ui/src/session_boot.rs:60-101 | over every run, the file changes only as a timer of the current generation fires, and what is written is the layout last known, one that a change after the restore has set; the restored layout is not written back |
| `LayoutPersistence.DrainWritesOnce` | crates/dat0-ui/src/session_boot.rs:60-101 | letting the timers fire in any order writes exactly once if a current one waits and else not at all, and ends with the layout known on disk |
| `OpenQueue.Window.OpenPaths` | crates/dat0-ui/src/session_boot.rs:332-380 | registered when ready, queued in order while booting, dropped when failed |
| `OpenQueue.Window.Land` | crates/dat0-ui/src/session_boot.rs:177-202 | the session is published, then the queue is opened in one batch |
| `OpenQueue.Window.LandFailure` | crates/dat0-ui/src/session_boot.rs:177-202 | what was queued is dropped with the failure |
| `OpenQueue.Window.Retry` | crates/dat0-ui/src/session_boot.rs:445-462 | only a failed window boots again |
| `OpenQueue.Window.Registered` | crates/dat0-ui/src/session_boot.rs:332-380 | a batch's files get their tabs in order |
| `OpenQueue.NextConserves` | crates/dat0-ui/src/session_boot.rs:141-202 | no step loses sight of a request |
| `OpenQueue.NothingTwiceNothingAstray` | crates/dat0-ui/src/session_boot.rs:141-202 | over every interleaving each request is in one place and registered at most once; the queue keeps request order and is non-empty only while booting or in the landing step |
| `OpenQueue.LostOnlyToFailure` | crates/dat0-ui/src/session_boot.rs:141-202 | over every run, a request is lost at its end exactly when some step of the run opened it on a failed session or failed while it was queued |
| `OpenQueue.LandingDrainsInOrder` | crates/dat0-ui/src/session_boot.rs:177-202 | over every run, what is asked for during a boot that lands, launch files included, is opened as one batch in the order asked, and is ever after still registering or stands in the tabs without a gap in that order |
| `OpenQueue.SettledAccountsForAll` | crates/dat0-ui/src/session_boot.rs:141-202 | over every run that ends with a session and nothing under way, each request made in it is open, just once, exactly when no failure in the run lost it |
| `ColumnShape.ImportedTable.ApplyShape` | crates/dat0-ui/src/import_flow.rs:163-201 | the three loops of ALTERs, stopping at the first refusal, are the run of the shape's statements |
| `ColumnShape.ApplyShapeIs` | crates/dat0-ui/src/import_flow.rs:163-201 | for every table and every shape, the table's own or one saved for an earlier state of it: the passes succeed exactly when each column to be dropped or renamed is there and the shape applied at once leaves unique names and at least one column, and then they equal it, each column's data following its column, swaps and longer cycles included |
| `ColumnShape.DistinctNamesSucceed` | crates/dat0-ui/src/import_flow.rs:163-201 | so a shape with distinct kept names succeeds exactly when each column to be dropped or renamed is there, no column is given the name of one that the shape does not mention (such as the row id), and one is left |
| `ColumnShape.NamesStayUnique` | crates/dat0-ui/src/import_flow.rs:163-201 | after every ALTER of any run, no two columns have one name |
| `ColumnShape.NextPlaces` | crates/dat0-ui/src/import_flow.rs:181-190 | renaming to a placeholder is never refused |
| `ColumnShape.NextNames` | crates/dat0-ui/src/import_flow.rs:191-199 | renaming to the final name is refused only when another column has that name for good |
| `PackageDiff.Diff.DiffColumns` | crates/dat0-format/src/diff.rs:303-336 | the two loops append the columns' differences under the table's name |
| `PackageDiff.Diff.DiffMatchedTable` | crates/dat0-format/src/diff.rs:290-342 | derivation, columns and row count of a table in both, each in its own list |
| `PackageDiff.Diff.DiffTables` | crates/dat0-format/src/diff.rs:266-286 | removed and matched tables in the first package's order, then the added ones in the second's |
| `PackageDiff.Diff.DiffQueries` | crates/dat0-format/src/diff.rs:343-368 | saved queries by name and text |
| `PackageDiff.Diff.DiffCharts` | crates/dat0-format/src/diff.rs:371-396 | saved charts by name and whole spec, reported by summary |
| `PackageDiff.Compute` | crates/dat0-format/src/diff.rs:234-250 | a fresh diff holds the five differences and nothing else |
| `PackageDiff.DiffPackages` | crates/dat0-format/src/diff.rs:132-140 | the diff is empty exactly when the packages agree on table names, derivations, row counts, column types by name, query text and chart specs |
| `PackageDiff.DifferenceIff` | crates/dat0-format/src/diff.rs:303-396 | with unique names, a name is reported exactly as what became of it, and an unchanged one not at all |
| `PackageDiff.ReportedIff` | crates/dat0-format/src/diff.rs:343-396 | the same for what is shown of it: texts for queries, summaries for charts, derivations for tables |
| `PackageDiff.ChartSummaryIs` | crates/dat0-format/src/diff.rs:107-117 | a chart's summary is its kind in small letters, and then the column of each axis it has |
| `PackageDiff.SchemaIff` | crates/dat0-format/src/diff.rs:303-336 | a column delta is reported exactly for a column of a table in both packages, as it changed |
| `PackageDiff.RowsIff` | crates/dat0-format/src/diff.rs:338-341 | a row-count delta is reported exactly for a table in both whose counts differ, with both counts |
| `PackageDiff.EmptyIffSame` | crates/dat0-format/src/diff.rs:132-140 | the five lists are empty exactly when the packages are the same in that sense |
| `PackageDiff.ReversedIsFlipped` | crates/dat0-format/src/diff.rs:234-396 | each of the five lists, with added and removed and each from and to swapped, is as a multiset the same list of the diff the other way |
| `PackageDiff.SchemaDeltasPatch` | crates/dat0-format/src/diff.rs:303-336 | applying the schema deltas to a shared table's column map yields the other package's |
| `LibraryClosure.Classify` | xtask/src/linux.rs:139-153 | fails exactly on a library on neither list, naming the first; else keeps those to bundle, in order |
| `LibraryClosure.ToBundleInOrder` | xtask/src/linux.rs:139-153 | those to bundle come in the order they are needed in |
| `LibraryClosure.Bundle` | xtask/src/linux.rs:208-221 | ends on every NEEDED graph; succeeds exactly when every object reached needs listed libraries only, and then has each library reached once and no other |
| `LibraryClosure.ReachedIsLeast` | xtask/src/linux.rs:208-221 | the libraries reached are the least set closed under needing |
| `LibraryClosure.NothingIsMissing` | xtask/src/linux.rs:208-221 | whatever the binary or a bundled library needs is bundled or the host's |

## Left out

- DuckDB, Arrow, file sniffing, extensions, MotherDuck and everything behind a SQL call; of the
  catalog, only what the code relies on is here (creating and renaming fail on a taken name, dropping
  on a missing one, a transaction rolls back).
- Column types and implicit casts: a filter whose literal DuckDB cannot compare with its column fails
  in DuckDB, not in the compiler.
- What DuckDB makes of a bare `inf` or `NaN` where a table has a column of that name. In
  `PackageDiff`, two floats are the same when their texts are.
- `validate_date`, `validate_timestamp`, `compat_check` and `type_compatible`: short checks that
  settle by reading.
- The folding of renames, reorders and hidden columns into the visible column list, which is display
  only; the export takes its result.
- OpenFiles.RegistryExcludes: is about runs whose steps on the files are calm, which is exactly what
  it takes (`OpenFiles.CalmIsExact`). A new file's inode may be one that was a file's before, once
  nobody has that file open. An in-memory database is the empty claim of `Registry.Claim` and has no
  engine in the machine.
- Origins.RunThenReopen: assumes that each operation is atomic, save that an import's copy of the
  origins is a step of its own, that row writes succeed, that no
  attached name is a local one and that nothing is changed by raw SQL; `restore_origin` is not among
  its operations. A record's JSON form is taken to read back as written.
- Migrations.RunsKeepPrefix: a migration is a function of the data with a fate, so what it does to
  the database is not modelled. The statement is about positive, strictly ascending versions, which
  is exactly what it takes for the whole list to be run (`Migrations.DoneIsWholeIffIncreasing`). The
  recorded version is a primary key, so that recording one twice fails in the code, whatever the
  migration's fate here; a list that has one twice does not ascend.
- BusLease.BusIsNeverLost: tokio's `Notify` is taken to keep one permit, to wake waiters in order and
  to pass a wake-up on when a woken waiter is dropped. What the receiver delivers is not modelled.
- LayoutPersistence.LastLayoutReachesDisk: writing the file is taken to succeed. A change that the
  restore overtakes is replaced by what is restored, as in the code.
- ExportSelect.ExportMeans: DuckDB is taken to keep a subquery's order in a projection over it, as
  the code does.
- OpenQueue.NothingTwiceNothingAstray: packages, folders, SQLite files and files that cannot be read
  go elsewhere; a path counts once per request to open it. What a window opened on a workspace or a
  sample reopens on a retry is not modelled.
- Replay.Engine.RecreateDerived: what DuckDB reads as it runs a recorded query is a parameter, and it
  refuses a statement only for a name that is taken or a relation that is missing. Source rebinding,
  the confinement of a replay to its directory and the refreshed schemas and counts are not modelled.
- LibraryClosure.Bundle: resolving and copying a library may fail too, which is not modelled; what an
  object needs is a function of its name.
- PackageDiff.DifferenceIff: names are taken to be unique within a list; nothing is claimed of
  packages in which they are not. Rendering a diff as text or JSON is left out.
- ColumnShape.ApplyShapeIs: a shape mentions no column twice, and nothing is called as a placeholder
  is, `__dat0_wizard_` and a number.
- Rowids.StoredTable.EnsureRowid: the ALTER, UPDATE and COMMENT after the rename are taken to succeed.
- The window registry, the single-instance lock, session files, the package container with its
  checksums, keymaps, palettes, settings, updates, the command line, the user interface, and the
  release tooling apart from the library closure.
