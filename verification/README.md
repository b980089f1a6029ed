# fedqrs: the query interpreter and its connectors, verified

fedqrs runs a federated query plan: an ordered list of steps that read sources, collect join keys, read other
sources reduced by those keys, ship small relations, compose local fragments, and return one relation. This
project models its core in Dafny and proves what that core must keep.

* **The interpreter** (`Ir`, `Bindings`, `Eviction`, `Store`, `Reference`, `Interpreter`). A run holds each named
  intermediate in one of four forms (in memory, as keys, as a lazy composed plan, on disk) and changes the form
  when something else is read or stored: plans with one reader fuse into it, plans with several are forced once,
  the last reader takes and the earlier ones clone, and storing a relation can evict others to disk, largest
  first. `Interpreter` is a class over the mutable maps. Its reference is `Reference.Run`, which evaluates the
  steps in order over an environment that never forgets a binding and knows no forms. The main results are that
  a run's result is the reference's, that without failing requests a run either returns it or refuses a ship, that the counts of reads still ahead are exact in every state, that the
  resident bytes never exceed the budget, that no composed plan is live twice, and that the greedy eviction is
  optimal.
* **Key injection** (`Sources`, `Injection`, `InjectionProofs`, `PlainReads`, `Deliveries`, `Keys`, `Joins`,
  `PlanExactness`, `PlanRewrites`, `StarPlans`, `ScanModifiers`, `ReducedReads`). A probe is read reduced by the other
  join side's keys through one of several deliveries. Sources answer queries under SQL's three-valued logic. `PlainReads`
  says what one query reads of the stored tuples, in terms of its filter's truth and its column names alone, and
  `Deliveries` which delivery a probe gets and that it succeeds. Every delivery reads exactly the tuples of
  the plain scan that the key sets it uses can join; the rows lie between those all key sets can join and the whole base
  scan, and that is enough for the join above, exactly for the join kinds and sides listed in `Joins.Reducible`; so
  whole plans with an injected scan, for one join or for a star, return what the plans with the plain scan return.
* **The guard** (`Guard`): the scalar-subquery cardinality check, and the join it protects.
* **The parallel read** (`Partition`, `WorkerPool`, `Decimals`, `DecimalProofs`, `DecimalConfluence`, `Typing`,
  `ParallelRead`): page ranges that tile the table, a pool of reader threads shared by concurrent callers as a state
  machine over its steps, and NUMERIC columns that each read, and each partition, types by its own values and that are
  reconciled afterwards. `Typing` gives every Postgres read of the model its types by value. `ParallelRead` puts the
  three together: under any schedule of the pool, the frame a caller ends with is the plain read of the table.
* **Session state** (`Sessions`): key tables on a reused Postgres connection and shipped tables on pinned DuckDB
  connections, with any statement failing at any point.
* **SQL text** (`Sql`, `RenderedQueries`): the rendered scans, a parser that reads every name back out, and the query of
  the model that a rendered text is.

What lies outside the engine is a parameter. `Sources.World` holds the registry, the stored tables, the answers to
raw SQL, the truth of filters, the catalog statistics and a deterministic relational evaluator; all are fixed
during one query, but for the stored tables that shipping drops (`Injection.Now`). Drivers, the disk, the memory pool and
the planner of the local engine may fail at any point: an arbitrary oracle says which requests fail, a failing one ends in
`Outcomes.Error.Backend`, and nothing else does. How Arrow cuts a relation into batches, and how many bytes a batch
occupies, are arbitrary too.

## Where the code and the promises about it part

Properties that hold only under a condition are stated with that condition in both directions.

* A `Ship` step fails although the plan is meaningful when its relation was already evicted to disk, or is a lazy
  plan whose result alone exceeds the budget (`src/engine.rs:534-545`): `Interpreter.Interpreter.RunShip`. It is
  the only error a run has, beside a failing backend, that the reference does not, and `Interpreter.Execute` carries
  the step and the states that show it. `Interpreter.OversizedShipIsRefused` is a plan that meets it.
* An injected probe with DISTINCT, LIMIT or both is sandwiched by its own plain scan only under a condition on the
  plain scan's rows, because the deliveries that are scans apply the modifiers after the key filter, and the
  temp-table and the parallel deliveries render neither: `ScanModifiers.ModifiersSurviveIff` gives the condition, with
  `ScanModifiers.LimitSurvivesIff` and `ScanModifiers.DistinctSurvivesIff` for one modifier alone, and
  `ScanModifiers.LimitIsNotSandwiched` and `ScanModifiers.DistinctIsLost` are inputs that fail it.
* The DuckDB temp-table session does not see shipped tables. Its join is sandwiched by the scan on the pinned connection
  exactly when the table stored under that name serves in its place: `ScanModifiers.ShippedTableIff`. A ship drops the
  stored namesake without qualifying its name (`src/connectors.rs:121-122`), for good, so within the query the join of a
  shipped table is always refused: `ScanModifiers.ShippedTableIsRefused`, `Sessions.DroppedIsRefused`. Every other
  delivery reads the shipped table.
* A Postgres read types a NUMERIC column by the values it reads, so a reduced read and the plain one can hold different
  values. For every choice of key sets the reduced read is the plain read's joinable rows, in order, if and only if the
  plain read keeps every value: `ReducedReads.HitReadsIff`. It lies between the joinable rows and all of them, which is
  what a join needs, if and only if no value is rounded, and none is lost that is not lost among the tuples that no key
  set can tell from its own: `ReducedReads.SandwichedReadsIff`, and delivery by delivery
  `ReducedReads.InlineSandwichedIff`. `ReducedReads.RoundedIsNotSandwiched` is a rounded value that fails it, and
  `Typing.ReadingLessShows` a lost one. Every part of a relation, joinable or not, is typed as in the whole if and only if
  no value that fits alone is lost: `Typing.TypingIsStableIff`.
* Per-partition decimal typing is confluent exactly when the widest scale is carried by a value that still fits 38
  digits at that scale: `DecimalConfluence.ConfluentIff`, `DecimalConfluence.OverflowIsNotConfluent`, and for reads of
  tables `Typing.PartsReadIff`, `InjectionProofs.TiledReadIff`.
* The guard groups NULL keys together, so it refuses rows that the join above could never match; it agrees with the
  join unless that is all it found: `Guard.NullDuplicatesAreRefused`, `Guard.GuardAgreesIff`.
* The requested partition count is reached exactly when it divides the page count: `Partition.RangeCountIsExactIff`;
  eight partitions can give fifteen ranges: `Partition.RangeCountIsTight`. A request wraps to zero and divides by zero
  exactly when it is a positive multiple of 2^32: `Partition.NoPartitionsIff`; the contracts exclude it.
* The full-read thresholds are 15% on Postgres and 40% elsewhere (`src/engine.rs:45-51`); README.md of the
  repository gives one 40%. The key cap of `CollectDistinct` is ignored (`src/engine.rs:379`), although
  `core/src/ir.rs:50-53` describes a marker for a count over it.

## Model

| member | source | states |
|---|---|---|
| Interpreter.Execute | src/engine.rs:360-454 | For every plan and every oracle of failing requests: a result is the meaning of the plan in the reference; an error is the failure of a request that the run made, the reference's own error, or the refusal of a ship step, with the step, the bindings around it and the state of the reference there as the witness that its relation has a meaning and was on disk or oversized; so when no request that it made fails a plan with a meaning returns it or is refused such a ship; a well-formed plan meets no other error about its bindings; on every exit, and whatever an earlier query left behind, nothing stays pinned |
| Interpreter.OversizedShipIsRefused | src/engine.rs:412-419 | Reading a relation and shipping it, where no request fails: the reference returns the relation, and the run ends in the refusal if and only if the relation arrives in more than 16 GiB |
| Interpreter.Interpreter.RunSteps | src/engine.rs:371-453 | The walk over the steps refines the reference from the first step to the return, or ends in one of the errors above, with the same witness for a refused ship |
| Interpreter.Interpreter.RunStep | src/engine.rs:373-445 | One step done is the reference's step done: every held binding keeps its meaning, every name read ahead is held, the counts of reads ahead are exact, live plans come from earlier steps, and the resident bytes are within the budget; beyond the reference's errors it refuses only a ship whose relation was on disk or is oversized |
| Interpreter.Interpreter.RunSourceScan | src/engine.rs:374-377 | A source read binds exactly what the source answers; `PlainReads.PlainScanReads` says what that is |
| Interpreter.Interpreter.RunCollectDistinct | src/engine.rs:379-388 | Key collection forces a lazy input, reads memory or disk alike, leaves the input held and binds the reference's keys |
| Interpreter.Interpreter.RunInjected | src/engine.rs:390-410 | An injected scan reads the primary and all extra key bindings, notes one use of each, and binds what the delivery fetched |
| Interpreter.Interpreter.RunShip | src/engine.rs:412-419 | A ship leaves its input held and updates the pinned tables as the reference does; it fails beyond the reference only, and then always, when its relation was already on disk or is a lazy plan whose result alone exceeds the budget |
| Interpreter.Interpreter.MaterializedNow | src/engine.rs:534-545 | A borrow gives the batches of exactly the relation the name means, and succeeds exactly for a resident one; an unknown name is the reference's error |
| Interpreter.Interpreter.Borrowed | src/engine.rs:412-416 | What a ship borrows is the reference's relation, forced first when it is lazy; it is refused beyond the reference exactly when it was on disk or its forced result alone exceeds the budget |
| Interpreter.Interpreter.RunMerge | src/engine.rs:421-439 | A merge binds the fragment's value over its inputs, composed or executed |
| Interpreter.Interpreter.RunReturn | src/engine.rs:441-446 | The returned relation is the reference's, from memory, from disk, or by forcing a plan |
| Interpreter.Interpreter.RunFragment | src/engine.rs:800-845 | What comes out of a fragment means the merge over the inputs as they were before it, its plan is new among the live ones, each input's use is counted, and everything read later is still held |
| Interpreter.Interpreter.RegisterInputs | src/engine.rs:800-812 | After every registration the later inputs and steps can still be read, no region is used twice, and the measured volume is the saturating sum over the inputs' leaves |
| Interpreter.Interpreter.RegisterInput | src/engine.rs:862-906 | A lazy plan with one reader is handed on unexecuted, without a request or a write, and leaves the map; a spilled relation streams; anything else is materialized, then taken by its last reader or cloned; in each case the plan handed on means what the name meant |
| Interpreter.Interpreter.RegisterSpilled | src/engine.rs:879-892 | A spilled input streams its file and is dropped from the map by its last reader only |
| Interpreter.Interpreter.ConsumeMaterialized | src/engine.rs:1350-1371 | One use fewer is ahead; the binding leaves the map exactly when this was the last |
| Interpreter.Interpreter.TakeMaterialized | src/engine.rs:1374-1385 | The binding leaves the map; a form other than a resident relation is an error |
| Interpreter.Interpreter.TakeLazy | src/engine.rs:971-983 | Exactly a lazy binding is taken out; any other stays and is an error |
| Interpreter.Interpreter.ForceMaterialized | src/engine.rs:919-941 | A lazy binding ends in memory, or on disk when its result alone exceeds the budget, and no meaning changes; every other form is left alone |
| Interpreter.Interpreter.RunRegion | src/engine.rs:945-968 | Either way of joining gives the region's value; spillable joins are tried at once if and only if the measured input is over 8 GiB, and a second time exactly after an operator, not the collection of the result, exhausted the pool |
| Interpreter.Interpreter.StoreRelation | src/engine.rs:183-197 | The name means the new relation and every other name what it meant; a relation above the whole budget goes to disk, any other stays in memory; of the others only resident relations move to disk, no more of them than any choice that makes room; the budget holds afterwards, also on failure |
| Interpreter.Interpreter.SpillForHeadroom | src/engine.rs:202-227 | Evicting leaves room or nothing resident, changes no meaning, moves exactly the greedy prefix of the descending residents to disk, and evicts no more than any set of names whose absence would make room |
| Interpreter.Interpreter.EvictUntilRoom | src/engine.rs:212-226 | The loop evicts exactly the greedy prefix of the sorted residents |
| Interpreter.Interpreter.Evict | src/engine.rs:219-225 | One eviction frees the relation's bytes and keeps every meaning; the evicted name always holds a resident relation |
| Interpreter.Interpreter.SpillBinding | src/engine.rs:161-178 | A spilled file holds the relation's batches, and its record the row count and the bytes; a failed write disturbs no other file |
| Interpreter.Interpreter.Export | src/engine.rs:1388-1402 | The exported batches are the binding's relation; keys are an error |
| Interpreter.Interpreter.ReadSpilled | src/engine.rs:1407-1417 | Reading a file back gives the relation that was spilled |
| Interpreter.BindingUseCounts | src/engine.rs:461-484 | The count of a name is the number of reads of it in the whole plan: merge inputs with repetition, key and extra-key reads, ships and the return |
| Interpreter.NoteUseCounts | src/engine.rs:488-492 | Noting one use turns exact counts into exact counts of what remains |
| Interpreter.BatchesBytes | src/engine.rs:152-158 | A relation's bytes are the sum over its batches, and at least those of each |
| Bindings.BytesAppend | src/engine.rs:152-158 | The bytes of two parts of a relation add up, which with `Bindings.OneBatch` makes them the sum over its batches |
| Bindings.VolumeIsLeaves | src/engine.rs:812-906 | The measured volume of a composed plan is the sum of the bytes of all of its leaves, in memory and on disk, each as often as it occurs |
| Interpreter.AllRegistered | src/engine.rs:800-845 | Composing a fragment over registered inputs is evaluating it over the relations the inputs name |
| Interpreter.EagerIff | src/engine.rs:1204-1240 | The fragments executed on the spot are exactly the guard and the projections that repeat an output name |
| Interpreter.FewestEvicted | src/engine.rs:202-227 | The names evicted are no more than any choice that makes room; in particular none when there is room |
| Reference.WellFormedNeverMisreads | src/engine.rs:360-454 | A plan that writes every name before reading it, and reads it as what was written, never ends in an unknown binding, a wrong form or an unknown fragment |
| Reference.GuardingMerge | src/engine.rs:990-1014 | In the reference a guarding merge binds its input unchanged when no two rows share a key tuple, and otherwise ends the run with the violation |
| Reference.Misreads | src/engine.rs:379-426 | A step that misreads a binding, or names no fragment, ends the run in the error that says so (`Reference.FirstMisread`: the first such input decides) |
| Reference.ShipAdds | src/engine.rs:412-419 | A ship adds its relation to what is shipped to that path, and changes no binding and no other path |
| Reference.ShipsIff | src/connectors.rs:82-136 | A relation is shipped exactly to a registered DuckDB path that can ingest each of its columns, beside what that path and the others already have |
| Reference.InputsRead | src/engine.rs:800-812 | A merge reads its inputs in order, each under its own table name, exactly if each of them is bound to a relation |
| Reference.ExtrasRead | src/engine.rs:394-404 | An injected scan reads its extra key sets in order, each for its own column, exactly if each of them is bound to keys |
| Reference.InputsAgree | src/engine.rs:862-906 | An environment that lost only names not read ahead gives a merge the same inputs |
| Eviction.GreedyIsOptimal | src/engine.rs:202-227 | Largest-first evicts no more relations than any set that makes room |
| Eviction.LargestFreeMost | src/engine.rs:206-211 | Among all sets of k residents, the k largest free the most |
| Eviction.EvictedSizesAreDetermined | src/engine.rs:203-211 | Two descending lists with the same sizes evict the same sizes |
| Store.ListingsEvictAlike | src/engine.rs:203-216 | The sizes evicted are the same for every order in which the map lists its residents before they are sorted |
| Eviction.SortDescending | src/engine.rs:211 | The sorted list is a descending permutation of the residents |
| Store.NoPlanDuplicated | src/engine.rs:849-906 | In a sound store a merge step's composed plan occurs at most once over all live regions together |
| Store.SpillOne | src/engine.rs:216-225 | Moving a relation to disk keeps the store sound, every meaning, and frees its bytes |
| Store.ListedBytes | src/engine.rs:203-210 | The listed sizes account for the resident bytes, with any set of names taken away |
| Bindings.BindingSurvivesGrowth | src/engine.rs:161-178 | New files change the meaning of no binding, however deeply its plan streams from disk |
| Bindings.OccursOnceCounts | src/engine.rs:849-906 | A plan composed of distinct merge steps contains each of them exactly once |
| PlainReads.PlainScanReads | core/src/sql.rs:73-110 | A plain structured scan reads the named columns of exactly the stored tuples for which its filter is absent or true, in stored order, then the first of each row if it is DISTINCT, then as many as its LIMIT; it reads a shipped table in place of the stored one |
| PlainReads.PlainScanSucceedsIff | core/src/sql.rs:73-89 | It is answered exactly where the datasource is registered, the scan names a table and columns, and the source has them; each other case has its own error |
| PlainReads.PartitionReads | src/connectors.rs:656-666 | One partition reads the named columns of exactly the tuples on its pages that the scan's own filter passes, exactly where the table and the columns exist |
| PlainReads.SemiJoinReads | core/src/sql.rs:140-181 | The semi-join reads the named columns of exactly the stored tuples that the scan's own filter passes and whose non-NULL key is among the ingested keys, exactly where the table, the columns and the key column exist |
| PlainReads.RawScanReads | core/src/sql.rs:63-72 | A plain prerendered scan reads what its own SQL answers, over the tables shipped to its path |
| PlainReads.ReadAsStored | src/connectors.rs:286-304 | What a source without NUMERICs answers is read as it is |
| PlainReads.ShippingHides | src/connectors.rs:112-136 | Shipping hides exactly the stored tables of the default schema that have a shipped table's path and name |
| Deliveries.ChosenIff | src/engine.rs:566-628 | Each delivery is chosen exactly for its own key counts, sources, indexes and statistics, with every limit in numbers |
| Deliveries.MostOfTableIff | src/engine.rs:679-704 | The keys ask for most of a table exactly when they are over 15 percent of its distinct values on Postgres, over 40 elsewhere, by the planner's count or else by the source's estimate |
| Deliveries.RidesIff | src/engine.rs:631-642 | An extra key set rides along exactly with 1 to 1999 keys |
| Deliveries.MarkRefusedIff | src/engine.rs:500-519 | A `parallel` mark is refused as malformed if and only if the source is not Postgres, or the scan names no table or has DISTINCT or LIMIT; otherwise it is the partitioned read |
| Deliveries.RangesForEight | src/engine.rs:717-724 | The parallel read of a table of at least eight pages takes 8 to 15 ranges of equal chunks (`Deliveries.RangePerPage`: a smaller one takes a range a page) |
| Deliveries.GatheredInOrder | src/connectors.rs:683-692 | Partitions are gathered in range order under the schema of the first, or end in the error of the first that fails |
| Deliveries.DeliverySucceeds | src/engine.rs:566-628 | Where the plain scan is answered and has the injected columns, every delivery succeeds, the partitioned one given the catalog's page count |
| InjectionProofs.DeliveryFetches | src/engine.rs:566-628 | Where the plain read keeps every value, for every key count, source kind, key type, index and statistic: the rows fetched are exactly the rows of the plain scan that the key sets used by the chosen delivery can join, in the plain scan's order, and the schemas differ in decimal scales at most |
| InjectionProofs.DeliveryReads | src/engine.rs:566-628 | Whatever the values: every delivery that one query answers reads exactly the plain scan's tuples that the used key sets can join, typed as any read of that source is |
| InjectionProofs.PartitionedDelivery | src/engine.rs:606-623 | The delivery that several queries answer has the rows of the plain scan, in order, where no value that fits alone is lost |
| InjectionProofs.HitSandwich | src/connectors.rs:440-512 | Where nothing turns, what is read of the tuples some key sets can join lies between the plain read's joinable rows and all its rows |
| InjectionProofs.StrategySandwich | src/engine.rs:566-628 | For every delivery: what is fetched contains every base row that the primary keys and all extra sets can join, and is contained in the base scan; a shipped DuckDB table is among the probes under every delivery but the temp-table join |
| InjectionProofs.EmptyFetch | src/engine.rs:581-583 | Without keys no row is fetched, and none of the plain scan's rows is joinable |
| InjectionProofs.InlineFetch | src/engine.rs:584-590 | An IN list together with the extra lists reads exactly the plain scan's tuples that the primary keys and the riding extra sets can join |
| InjectionProofs.WholeFetch | src/engine.rs:591-605 | A read under the extra lists alone reads exactly the tuples the riding extra sets can join |
| InjectionProofs.UnselectiveFetch | src/engine.rs:606-623 | An unindexed Postgres probe and an unselective one read the plain scan whole, in parallel or not, up to decimal scales |
| InjectionProofs.TempTableFetch | src/engine.rs:729-754 | The server-side semi-join, generic or prerendered, reads exactly the tuples the ingested keys can join |
| InjectionProofs.SemiJoinFetch | core/src/sql.rs:140-181 | Membership in the ingested key column answers exactly the plain scan's tuples whose key is among the keys |
| InjectionProofs.NarrowedScan | core/src/sql.rs:73-110 | A dynamic filter that is true exactly on the rows some key sets can join selects exactly those of the plain scan, whatever the static filter and the output columns |
| InjectionProofs.ExtraFiltersAreHits | src/engine.rs:631-642 | The rendered extra filter is true of exactly the rows that every riding extra set can join |
| InjectionProofs.TiledReadIff | src/connectors.rs:643-702 | A partitioned read over any ranges that tile the page space, each partition typed by its own values and reconciled, is the plain read of the table without DISTINCT and LIMIT, row for row and type for type, if and only if the widest scales survive the split |
| InjectionProofs.ParallelReadIsPlainRead | src/engine.rs:708-726 | Where the plain read keeps every value, the ctid-partitioned read is that plain read, type for type |
| InjectionProofs.ParallelReadHasPlainRows | src/engine.rs:708-726 | Where no value that fits alone is lost, the ctid-partitioned read has the plain read's rows, in order |
| Typing.ReadIsRunQuery | src/connectors.rs:348-365 | What one Postgres read returns is its tuples typed by the widest digits of each NUMERIC column, however the driver cuts them into batches |
| Typing.PartsReadIff | src/connectors.rs:683-701 | A partitioned read of any tuples in any cut is the one read of them if and only if the widest scales survive |
| Typing.StablePartsRead | src/connectors.rs:683-701 | Where no value that fits alone is lost, a partitioned read has the rows of the one read, whether or not the widest scales survive |
| Typing.KeptPart | src/connectors.rs:440-512 | Where the whole read keeps every value, any part of it is read as the rows it holds, with decimal scales that can only differ in the schema |
| Typing.TypingIsStableIff | src/connectors.rs:440-512 | Every part of a relation is typed, tuple by tuple, as in the whole if and only if no value that fits at its own digits is lost at its column's scale |
| Typing.ReadingLessShows | src/connectors.rs:494-512 | An integer of 38 digits is read as itself alone and as NULL beside 0.1 |
| ReducedReads.HitReadsIff | src/connectors.rs:440-512 | For NUMERICs that print their values: under all key sets that an IN list delivers, the reduced read is the plain read's joinable rows if and only if the plain read keeps every value |
| ReducedReads.SandwichedReadsIff | src/connectors.rs:440-512 | Under all those key sets the reduced read is sandwiched if and only if no value is rounded and none is lost that its tuple's peers alone would not lose |
| ReducedReads.InlineSandwichedIff | src/engine.rs:584-590 | Every IN-list delivery to a structured Postgres probe is sandwiched by its plain scan if and only if nothing turns in the plain scan's answer |
| ReducedReads.RoundedIsNotSandwiched | src/connectors.rs:494-512 | A table of the value 5e-38 and a key 1e-37: the plain read rounds to a joinable row, and the IN list reads nothing |
| Injection.ExtrasInFilter | src/engine.rs:631-642 | The loop over the extra sets builds the dynamic filter that the deliveries use, last set first |
| Injection.ExtraFiltersExactly | src/engine.rs:631-642 | That filter holds an IN list for exactly the extra sets that are not empty and under the cap |
| Injection.InListFilter | src/engine.rs:663-673 | The IN list holds the keys of the first column, in order |
| Sources.WhereIsAll | core/src/sql.rs:99-105 | A conjunction under three-valued logic is true exactly when every part is, and false exactly when one part is |
| Sources.InTruthIsMembership | src/engine.rs:663-673 | IN is true exactly for a non-NULL member, and false exactly of an empty list, or of a value that differs from every member of one without NULLs |
| Sources.MembershipInColumn | core/src/sql.rs:147-152 | Membership in a temp table is true exactly of a non-NULL value that the named column of that table holds |
| ScanModifiers.ModifiersSurviveIff | src/engine.rs:566-628 | A probe with DISTINCT, LIMIT or both is sandwiched by its own plain scan if and only if, of the deduplicated plain rows, the limit keeps only rows the used key sets can join or cuts none of them off, and where the delivery drops the modifiers, it cuts none off and none repeats under DISTINCT |
| ScanModifiers.DistinctSurvivesIff | src/engine.rs:566-628 | DISTINCT alone survives if and only if the delivery deduplicates, or the rows of the plain scan that the used key sets can join repeat nothing |
| ScanModifiers.LimitSurvivesIff | src/engine.rs:566-628 | LIMIT alone survives if and only if no plain row beyond it can be joined or, where the delivery applies it, every row within it can |
| ScanModifiers.DroppedModifiers | src/engine.rs:708-754 | The temp-table and parallel deliveries read what they would without DISTINCT and LIMIT |
| ScanModifiers.RawScansIgnoreModifiers | core/src/sql.rs:58-72 | On a prerendered scan the modifiers change no read |
| ScanModifiers.LimitIsNotSandwiched | core/src/sql.rs:99-109 | A limited probe under an IN list can read rows the limited plain scan does not |
| ScanModifiers.DistinctIsLost | src/engine.rs:729-754 | A DISTINCT probe of two equal rows, read through the temp-table semi-join, returns both |
| ScanModifiers.SemiJoinReadsStored | src/connectors.rs:791-831 | The DuckDB temp-table join succeeds exactly where a scan with nothing shipped does, and reads the rows of that scan that its keys can join |
| ScanModifiers.ShippedTableIff | src/connectors.rs:791-831 | So it is sandwiched by the scan on the pinned connection if and only if the stored relation has its columns' shape and lies, reduced by the keys, between the shipped one's joinable rows and all of them |
| ScanModifiers.ShippedTableIsRefused | src/connectors.rs:112-136 | After the ship has dropped the stored namesake, the temp-table join of a shipped table is refused, while every plain scan and every other delivery reads the shipped table |
| Keys.CollectedKeys | src/engine.rs:759-791 | The keys are exactly the non-NULL values of the first column of that name, each once, in one column under its name and type |
| Keys.CollectsIff | src/engine.rs:759-791 | Keys are collected exactly from a column that exists |
| Joins.InJoin | src/engine.rs:1282-1293 | The rows of each of the six kinds: pairs with equal keys, none of them NULL; left rows with or without a match; and unmatched rows of either input padded with a NULL for each column of the other |
| Joins.ReducedProbeIsExact | src/engine.rs:1282-1293 | Any probe between the joinable rows and the whole gives the join of the whole, for multi-key joins and NULL keys |
| Joins.ReducibleIsExact | src/engine.rs:1314-1323 | The join kinds and probe sides whose reduction never shows are exactly Inner and Semi on either side, Left and Anti with the probe on the right, Right with it on the left |
| Joins.IrreducibleIsInexact | src/engine.rs:1314-1323 | Every other kind or side has a join that a reduced probe changes |
| Joins.OnlyJoinableMatter | src/engine.rs:1282-1293 | Dropping the unjoinable probe rows keeps the join |
| Joins.ProbePermutes | src/engine.rs:1282-1293 | The order in which a delivery returns the probe rows does not matter |
| PlanExactness.InjectionIsExact | src/engine.rs:566-628 | Collecting keys from one join side, reading the other through any delivery and joining gives the join of the plain scan |
| PlanExactness.StarInjectionIsExact | src/engine.rs:390-410 | A probe reduced by the keys of several inner or semi-joins at once, on any key pair and whichever key sets the delivery used or skipped, gives the same rows through the whole chain of projected inner, left, semi- and anti-joins as the plain scan does |
| PlanRewrites.ReducedPlanIsPlainPlan | src/engine.rs:379-446 | On whole plans, with any other steps between that leave the rewritten names alone: whenever collecting the build's keys, reading the probe reduced by them, joining and returning succeeds, so does reading the probe plainly, or in parallel where the mark is accepted, joining and returning, with the same rows |
| PlanRewrites.ReducedPlanSucceeds | src/engine.rs:379-446 | The rewrite loses no success: where the probe has the injected column, and a page count if it is read in partitions, the reduced plan returns if and only if the plain one does |
| PlanRewrites.FollowAlike | src/engine.rs:371-453 | From states that differ only in names that some steps neither read nor write, the steps both go on or both fail, and end in states that differ only there |
| StarPlans.StarPlanIsPlainPlan | src/engine.rs:379-446 | On whole plans, assuming of the evaluator only that each hash join gives its projected join rows: whenever collecting the keys of several dimensions, reading the probe reduced by all of them at once, joining the chain and returning succeeds, so does reading the probe plainly and joining the same chain, with the same rows |
| StarPlans.ChainIsStar | src/engine.rs:800-845 | The evaluator's result for a chain of hash joins is the row-wise star of the dimensions that the fragments name, whatever order the rows come in |
| StarPlans.PassedIsCarried | core/src/ir.rs:158-165 | A column that a link's projection passes keeps its value through the join |
| StarPlans.ChainRuns | src/engine.rs:421-446 | A chain of joins over held dimensions always runs to its end and returns what the evaluator makes of it |
| PlanExactness.JoinableHitsKeys | src/engine.rs:759-791 | A probe row some build row matches carries one of the keys collected from the build |
| PlanExactness.JoinedRowsIsJoin | src/engine.rs:1282-1293 | The row-by-row inner, left, semi- or anti-join is the multiset join |
| Guard.GuardIsSingleValued | src/engine.rs:990-1014 | The guard returns its input unchanged exactly when no two rows share a key tuple, or without keys when there is at most one row, and otherwise fails |
| Guard.GuardPassesIff | src/engine.rs:990-1014 | It passes exactly when no two rows agree on the value of every key expression, NULL being equal to NULL |
| Guard.GuardedJoinKeepsOuterRows | src/engine.rs:990-1014 | After a success a LEFT equi-join on the guarded keys extends each outer row exactly once |
| Guard.JoinSingleValuedIff | src/engine.rs:1282-1293 | For every outer schema: every outer row gives one row exactly when no two guarded rows share a key that an outer row can hold |
| Guard.DuplicatesMultiply | src/engine.rs:990-1014 | Duplicates of a key that an outer row can hold do multiply the outer row that holds it |
| Guard.NullDuplicatesAreRefused | src/engine.rs:990-1014 | Rows that share a key tuple with a NULL in it are refused although the join is single-valued |
| Guard.GuardAgreesIff | src/engine.rs:990-1014 | The guard passes exactly when the join above is single-valued, unless its only duplicates are keys that no outer row can hold |
| Partition.CtidRanges | core/src/partition.rs:11-28 | The loop ends, the ranges are nonempty and abutting from page 0 to the largest page number, and with p the effective partitions there are p to 2p-1 of them |
| Partition.RangesTile | core/src/partition.rs:11-28 | The ranges tile the page space for every page count and request, with saturating addition |
| Partition.RangeCount | core/src/partition.rs:11-28 | Ranges of the floored chunk number at least p and less than twice p |
| Partition.RangeCountIsExactIff | core/src/partition.rs:11-28 | There are as many ranges as effective partitions if and only if these divide the page count |
| Partition.PartitionsAreCapped | core/src/partition.rs:15 | A request gets the partitions it asks for, one when it asks for none, never more than the pages |
| Partition.RangesAreChunks | core/src/partition.rs:16-27 | Range `i` starts at page `i` times the floored quotient of pages by partitions |
| Partition.NoPartitionsIff | core/src/partition.rs:15 | The request for which the source divides by zero is exactly a positive multiple of 2^32 |
| Partition.RangeCountIsTight | core/src/partition.rs:11-28 | Both bounds are reached |
| Partition.ParallelScanIsSingleScan | src/connectors.rs:656-694 | Concatenating the range reads gives the filtered table in ctid order, no row lost or repeated, however stale the page count |
| Partition.SplitRange | src/connectors.rs:656-666 | Reading two abutting ranges is reading their union, in order |
| WorkerPool.ScheduleIndependent | src/connectors.rs:643-702 | Under every interleaving of workers and concurrent callers a caller's result is its partitions in range order, reconciled under the first one's schema, or the error of its lowest-indexed failing one |
| WorkerPool.NoDeadlock | src/connectors.rs:611-692 | While a caller waits, some step is enabled |
| WorkerPool.SchedulesTerminate | src/connectors.rs:626-692 | Every step uses up work, so every schedule is finite |
| WorkerPool.MaximalSchedulesFinish | src/connectors.rs:611-692 | A schedule that can go no further has given every caller its outcome |
| WorkerPool.StepKeeps | src/connectors.rs:626-639 | Every step keeps each job with its worker until answered, each reply at its place, and each cached connection on its own parameters |
| WorkerPool.AnsweredInOrder | src/connectors.rs:626-639 | Under every schedule each worker answers a waiting caller's jobs in the order they were sent |
| WorkerPool.ConnectionsStay | src/connectors.rs:633-639 | A worker keeps every connection it has and each one it opens, so it opens one at most once per datasource |
| WorkerPool.FinishedStay | src/connectors.rs:683-692 | A caller that has its result is never touched again |
| WorkerPool.GatherReplies | src/connectors.rs:683-701 | Receiving the pool's replies in range order, keeping the first schema, stopping at the first error and reconciling computes that result |
| ParallelRead.AnyScheduleReadsTheTableIff | src/connectors.rs:643-702 | Under every schedule of the pool that can go no further, a caller has its result: a backend's failure, the source's refusal, or a frame, which is the plain read of the table, row for row and type for type, if and only if the widest scales survive the split |
| ParallelRead.AnyScheduleReadsTheTable | src/connectors.rs:643-702 | Where the plain read keeps every value, every schedule ends with the plain read of the table or its refusal, unless a backend fails |
| ParallelRead.MarkedReadIsPlain | src/connectors.rs:643-702 | A read under an accepted `parallel` mark succeeds where the unmarked one does, with its rows |
| Decimals.MaxFractionalDigits | src/connectors.rs:515-527 | The widest number of digits after the point, capped at 37 |
| Decimals.LimitsInNumbers | src/connectors.rs:494-527 | Exactly the values of at most 38 digits fit, and at most 37 digits are kept after the point |
| Decimals.RoundsToNearest | src/connectors.rs:464-486 | A value cast to a narrower scale is rounded to the nearest, halves away from zero |
| Decimals.RebuildsIff | src/connectors.rs:464-486 | Columns are re-derived exactly where every batch has all the columns and, outside the re-derived ones, the types of the schema |
| Decimals.ReconcilesIff | src/connectors.rs:378-422 | Batches are reconciled exactly where they differ from the reported schema in decimal types only |
| Decimals.DerivedType | src/connectors.rs:530-550 | A re-derived column is a decimal of 38 digits at the widest scale of its values, at most 37, and no longer carries the driver's type name |
| Decimals.DecimalScales | src/connectors.rs:466-476 | Each column's scale is the widest over every batch |
| Decimals.RebuildDecimals | src/connectors.rs:464-486 | Every batch is rebuilt under the one derived schema, cell by cell through text, or refused |
| Decimals.CollectDecimalDisagreements | src/connectors.rs:397-422 | Exactly the columns on whose type a batch disagrees are recorded, and any but a decimal disagreement is refused |
| Decimals.ReconcileExecuted | src/connectors.rs:378-393 | The executed batches are returned unchanged when they agree, rebuilt when they disagree on decimals, and refused otherwise |
| DecimalProofs.RecastIsCast | src/connectors.rs:464-512 | Casting text to a partition's scale and then to a wider one is casting to the wider one, rounding and overflow included |
| DecimalProofs.NormalizesToItsScale | src/connectors.rs:440-460 | One read types its NUMERIC columns by its own widest scale, and reconciling it again changes nothing |
| DecimalConfluence.ConfluentIff | src/connectors.rs:683-701 | For every split, with empty, all-NULL or integral-only partitions: reconciling the normalized partitions equals normalizing all rows at once if and only if, in every column they differ on, the widest scale is carried by a value that fits at it |
| DecimalConfluence.FittingPartitionsAreConfluent | src/connectors.rs:683-701 | Values with at most 37 fractional digits that fit 38 digits at their column's scale are confluent for every split |
| DecimalConfluence.OverflowIsNotConfluent | src/connectors.rs:494-512 | A value past 38 digits that alone needs the widest scale makes the split show |
| DecimalConfluence.FittingCellsAreExact | src/connectors.rs:440-512 | A fitting numeral keeps its exact value at its column's scale, and NULL stays NULL |
| DecimalConfluence.ExecutedTypesAgree | src/connectors.rs:348-393 | Whatever types the driver delivers its batches at, the frame of one read has the types of its own schema in every batch |
| DecimalConfluence.ReconciledTypesAgree | src/connectors.rs:378-393 | After reconciliation every batch has the returned column types, and reconciling again changes nothing |
| DecimalConfluence.ReconciledCellsAreExact | src/connectors.rs:464-512 | A fitting decimal cell keeps its exact value at the widest scale observed |
| DecimalConfluence.AgreedColumnsAreUntouched | src/connectors.rs:378-422 | A column no batch disagrees on keeps its type and its cells |
| Sessions.RunTempJoins | src/connectors.rs:761-785 | Over any sequence of semi-joins on one connection and any failing statements, each result is its query's answer over exactly its own keys unless its own drop, ingest or query fails; without failures every result is that answer |
| Sessions.PgConnection.FetchTempJoin | src/connectors.rs:761-785 | Whatever an earlier call left behind, the result is the query's answer over exactly the given keys, or the failure of this call's own drop, ingest or query, never of the cleanup; no table but the key table is ever left behind, and none when the last statement succeeds |
| Sessions.FetchSeesLatest | src/connectors.rs:82-107 | A DuckDB path shows under each name exactly the latest relation shipped to it |
| Sessions.SamePathSameTables | src/connectors.rs:267-284 | Two datasource names with one path answer alike from a shipped table |
| Sessions.LoadTable | src/connectors.rs:82-136 | Filling a shipped table row by row, wherever it stops, ships exactly the relation or fails, and says whether the stored namesake is gone; the interpreter and the pinned connections both load through it |
| Sessions.DroppedIsRefused | src/connectors.rs:120-124 | A stored table dropped by a ship is refused under its plain name and the default schema's once nothing is pinned in its place |
| Sessions.PinnedConnections.ShipTable | src/connectors.rs:82-136 | A success ships exactly the relation and drops the stored namesake, if there is one, and no other table; a target other than DuckDB or an unsupported column type is refused; any other error is a failing request |
| Sessions.PinnedConnections.Fetch | src/connectors.rs:267-284 | A fetch answers, or is refused, over the tables shipped since the last clear and without the tables ever dropped, unless a request fails |
| Sessions.PinnedConnections.ClearShipments | src/connectors.rs:105-107 | Nothing stays pinned, whatever failed before, and no dropped table comes back |
| Sql.IdentRoundTrip | core/src/sql.rs:27-29 | A quoted name reads back as itself, with any quotes, dots or commas in it |
| Sql.RefRoundTrip | core/src/sql.rs:32-44 | Schema, table and alias are recovered from a table reference |
| Sql.ListRoundTrip | core/src/sql.rs:133-136 | The column list is recovered from the select list |
| Sql.ScanSql | core/src/sql.rs:58-110 | The rendered text of a scan, of a wrapped prerendered one, or the refusal of an incomplete one |
| Sql.TempJoinSql | core/src/sql.rs:140-181 | The rendered semi-join, which has neither DISTINCT nor LIMIT |
| Sql.ScanRoundTrip | core/src/sql.rs:73-110 | DISTINCT, columns, schema, table and alias are recovered from every structured scan, and LIMIT from one without a filter |
| Sql.TempJoinRoundTrip | core/src/sql.rs:140-181 | The columns, the table and the probe, key and temp-table names are recovered from the semi-join, whatever its static filter renders to; the filter stands before ` AND ` and the membership test |
| Sql.WrappedRoundTrip | core/src/sql.rs:112-121 | The prerendered text and its condition are recovered from a wrapped scan |
| Sql.ScanTextIsInjective | core/src/sql.rs:58-110 | Two unfiltered scans that render alike are the same scan |
| RenderedQueries.ScanTextIsQuery | core/src/sql.rs:73-110 | The text of a scan without a filter reads back as the query that the model answers: its table, columns, DISTINCT and LIMIT |
| RenderedQueries.TempJoinTextIsQuery | core/src/sql.rs:140-181 | The text of a semi-join without a static filter reads back as its query, with the membership test |
| RenderedQueries.FilteredTextIsQuery | core/src/sql.rs:73-110 | Whatever text a filter renders to, the text names the table, columns and DISTINCT of the query, and ends in its LIMIT; the query asks for the scan's own filter and the dynamic one |
| RenderedQueries.FilteredTempJoinTextIsQuery | core/src/sql.rs:140-181 | Whatever text its static filter renders to, the text of a semi-join names the table and columns of its query, which asks for that filter and for the membership that the text and's to it |
| RenderedQueries.WrappedTextIsQuery | core/src/sql.rs:112-159 | A prerendered scan is filtered as a derived table, and the membership test of its semi-join reads back as its query's |

## Left out

- The local relational engine: `World.eval` is one deterministic function of a fragment and its input relations. Expressions, aggregates, grouping sets, sorting, projection, limits and raw SQL over the inputs are not given a meaning of their own; the join kinds of `Joins` are, separately.
- That joins have one result independent of the algorithm is part of that assumption, so `Interpreter.Interpreter.RunRegion` says nothing of hash against sort-merge joins beyond which one is tried when.
- Interpreter.Execute: does not say that a plan succeeds, because drivers, the disk and the memory pool may fail at any step.
- Interpreter.Interpreter.SpillBinding: does not delete files when the last reader of a spilled relation is gone; the model's disk only grows, and unused file names stand for temporary files.
- Interpreter.BatchesBytes: sums bytes without a machine width, because only the volume of composed regions saturates in the source; nullability, field metadata and the schemas of single batches are left out with it.
- InjectionProofs.StrategySandwich: assumes a specification without DISTINCT and LIMIT (`ScanModifiers` treats those), not both raw SQL and a table, injected columns among the output columns, under the temp-table join a key session that shows the probe (`ScanModifiers.ShippedTableIff` says what else it needs) and a prerendered island that means the key-filtered probe, and a heap read in ctid order; on Postgres it assumes that nothing turns in the plain scan's answer (`ReducedReads.SandwichedReadsIff`), or, for the partitioned delivery, that no value that fits alone is lost; schemas are compared up to the scales of decimals, which do differ.
- ScanModifiers.ModifiersSurviveIff: assumes that the plain read keeps every value (`ReducedReads.HitReadsIff`), because it speaks of the plain read's rows.
- ReducedReads.HitReadsIff: takes rows as wide as their schema under distinct column names, and NUMERICs whose printed digits are their value.
- PlanRewrites.ReducedPlanIsPlainPlan: assumes that the evaluator's rows for a hash join depend on its inputs only through their schemas, up to decimal scales, and their join.
- StarPlans.StarPlanIsPlainPlan: assumes of the evaluator that a hash join gives the rows of its join, each projected, and has no other steps between; the probe is the left input of every link.
- PlanExactness.StarInjectionIsExact: has no right or full joins in the chain, which no probe row meets on its own.
- Partition.CtidRanges: excludes requests that are positive multiples of 2^32, for which the source divides by zero.
- Partition.ParallelScanIsSingleScan: takes one common snapshot for all partitions and page numbers below the largest 32-bit value.
- ParallelRead.AnyScheduleReadsTheTable: takes the same snapshot, and a backend that fails does so whatever the schedule.
- WorkerPool.ScheduleIndependent: takes one connection specification per datasource name; a worker thread that dies is not modelled.
- Decimals.MaxFractionalDigits: takes a numeral as an unscaled value with a digit count instead of its text; NaN and Infinity are left out.
- Typing.ReadIsRunQuery: takes a relation with at least one column; other sources than Postgres report their decimal types themselves.
- Sessions.PinnedConnections.ShipTable: drops a stored namesake of the default schema; what raw SQL or the catalog statistics make of a dropped table is left out, and so is a view of that name.
- RenderedQueries.FilteredTempJoinTextIsQuery: takes the rendered static filter as one conjunct; that the renderer parenthesizes a top-level OR is not part of this model.
- Sql.ScanRoundTrip: takes the filter as already rendered text; the expression renderer and the dialects are left out, so LIMIT is recovered only without a filter.
- The estimates behind the full-read decision are arbitrary; `selectivity_from_stats` and the catalog queries are not modelled.
- The Parquet directory cache, the index cache, registering a datasource again under a live name, the Python boundary, the Arrow stream boundary, profiling output, error texts and the benchmarks.
