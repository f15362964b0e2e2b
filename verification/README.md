# Verified model of the flow-log pipeline

The repository is a pipeline that enriches, tracks, aggregates and filters network flow logs. This project models its
stateful and algorithmic components in Dafny and proves what each promises over all inputs and whole runs. Each file is
one module. `dafny verify dfyconfig.toml` checks everything.

| component | files | main results |
|---|---|---|
| connection tracking | `ct_*.dfy`, `multi_ordered_map.dfy` | `Lifecycle`, `RecordsAlternate`, `Conservation`, `FinDeadlineStored`, `TrackedMeans`, `DirectionSums`, exact expiry and heartbeats of the store, `Extract` refines the tracker |
| query language | `dsl_*.dfy` | `ParseExact`, the table-driven driver `Parse`, `ParseQuery` |
| time-based rules | `tb_*.dfy` | `PruningInvisible`, `ResultsExact`, `ComputeK` |
| AS-number labels | `frr_*.dfy` | `InformerStore.Lookup`, `OrderIsIrrelevant` |
| Kubernetes metadata | `k8s_*.dfy` | `CurrentStands`, `AlwaysSound`, `LookupFindsStanding`, `SnapshotIsOneReplace` |
| flattening | `flattening.dfy` | `Distribute`, `EveryCombinationOnce` |
| timed cache, subnet labels, aggregates | `timed_cache.dfy`, `subnet_labels.dfy`, `agg_*.dfy`, `aggregate.dfy` | exact cleanup, memoised labels, `FedAt`, `GroupsAreLabelTuples`, `LivingGroupAddsUp` |

How the model is built:

- **Connection tracking.** `ct_spec.dfy` says what one batch does to a plain map from hash to connection and which events
  it causes; a history is a sequence of batches, and `Legal` leaves open only the order in which Go maps are traversed and
  ties are broken. The life cycle, conservation and bounds are proved of every legal history. `ct_store.dfy` and
  `ct_extract.dfy` are the imperative store and tracker; `Extract` is proved to perform one legal batch on the ghost
  history, so the results about histories hold of the object. `ct_view.dfy` holds the facts about the lists that nobody
  sorts: they stay sorted because timeouts are constant in a group and the clock does not run backwards.
- **Meaning of records.** `ct_flowlog.dfy`, `ct_fields.dfy` and `ct_stories.dfy` say what connections and records hold in
  terms of the configuration and the flow logs of a lifetime alone: neither aggregators nor directions nor the tracker's
  tests on flow logs occur there, so they are compared with it from outside. The same is done for the leaves of queries
  (`MeansEqual`), time-based records (`Tells`), objects of the FRR store (`Assigns`, `IsLive`), resources (`Stands`),
  flattened parts (`AreParts`), subnet labels (`IsLabel`) and aggregate records (`RecordTells`).
- **Query language.** `dsl_automaton.dfy` is the automaton on a stack of states and items, `dsl_tables.dfy` has the packed
  integer tables and proves that they encode that automaton, and `dsl_parser.dfy` is the goto-driven loop over the mutable
  stack. The reference is the set of layered trees of `dsl_grammar.dfy`. In these tables OR binds tighter than AND.
- **Time-based rules.** `tb_spec.dfy` defines runs with and without deletion of history, `tb_pruning.dfy` relates both to
  everything ever received, `tb_extract.dfy` and `tb_run.dfy` are the shared tables, the filters and the extractor.
- **Clock, libraries, map order.** The clock is a parameter that is constant during one call and does not run backwards.
  Conversions of values, hashing, prefix and address parsing and regular expressions are function-valued parameters.
  Loops over Go maps pick any remaining key, so every result holds for all traversal orders.
- **Numbers.** float64 values are reals. `float64.dfy` says which reals are finite doubles and proves that the bound used
  as initial minimum and maximum is the largest of them.

Where code and documentation differ, the model follows the code. The repository's `README.md` says that a flow log with
`FIN_ACK` ends a connection; the code tests the FIN bit alone (`pkg/pipeline/extract/conntrack/tcpflags.go`). The
documentation of the query language is silent on the relative priority of AND and OR; the tables fix it. The
`max` aggregate starts from 0, so it is a maximum only if some value is not negative (`MaximumExact`), and the running
average counts flow logs without a number (`AverageStepExact`). Labels that hold the separator `|` of the cache can merge
two groups (`SeparatorMerges`), and group-by fields named like an output field, or joining to its name, hide it
(`NumberReported`). The default expiry time of the aggregates configuration is documented and stored, but a rule without
one of its own always gets two minutes (`pkg/pipeline/extract/aggregate/aggregates.go:62-66`).

## Model

| member | source | states |
|---|---|---|
| `ConnTrackConfig.Validate` | pkg/api/conntrack.go:181-305 | accepts exactly the configurations that meet every requirement, and each rejection names a defect that is really there |
| `ConnTrackConfig.GetABFields` | pkg/api/conntrack.go:307-322 | returns the fields of the A and of the B group of the hash definition |
| `ConnTrackHash.ComputeHashFields` | pkg/pipeline/extract/conntrack/hash.go:75-93 | fails exactly when a field that is present cannot be encoded, else hashes the encodings in order |
| `ConnTrackHash.ComputeHash` | pkg/pipeline/extract/conntrack/hash.go:41-73 | the map-based computation yields the total hash that depends on no map order, with the smaller endpoint hash first |
| `ConnTrackHash.MirrorHash` | pkg/pipeline/extract/conntrack/hash.go:56-71 | a flow log and its mirror have the same total hash with endpoint hashes exchanged, and are rejected together |
| `ConnTrackHash.MirrorDirection` | pkg/pipeline/extract/conntrack/conntrack.go:214-226 | a flow log and its mirror update opposite directions if and only if the endpoint hashes differ; which is which is stated by `DirectionSums` and `OpeningSide` |
| `ConnTrackHash.SameConnection` | pkg/pipeline/extract/conntrack/hash.go:41-93 | unless the hash collides, two flow logs belong to one connection if and only if they agree on every group of the definition and have the same two ends in either order |
| `ConnTrackHash.SwapIsMirror` | pkg/pipeline/extract/conntrack/conn.go:197-226 | opening from a SYN_ACK flow log with swapped ends equals opening from the mirrored flow log: same keys, hash and later directions |
| `ConnTrackHash.OppositeInvolutive` | pkg/api/conntrack.go:270-304 | exchanging A and B fields twice is the identity and stays within the key fields, for every valid bidirectional configuration |
| `ConnTrackConn.UpdateAggregate` | pkg/pipeline/extract/conntrack/aggregator.go:144-199 | from fields that are ready each of the six aggregators updates its own field without reaching a panic |
| `ConnTrackConn.FirstNumberPrevails` | pkg/pipeline/extract/conntrack/aggregator.go:163-187 | whatever finite number comes first replaces the initial minimum or maximum |
| `ConnTrackConn.AllUpdatesKeepReady` | pkg/pipeline/extract/conntrack/conn.go:62-83 | after any prefix of the aggregator loop every aggregator still finds its fields, numeric ones numbers |
| `ConnTrackConn.InitFieldsReady` | pkg/pipeline/extract/conntrack/aggregator.go:135-142 | a new connection has exactly the fields of its aggregators, each with a value of the right type |
| `ConnTrackConn.ToGenericMap` | pkg/pipeline/extract/conntrack/conn.go:101-114 | exports aggregates with zeros dropped, then keys over them |
| `ConnTrackConn.IsMatchSelector` | pkg/pipeline/extract/conntrack/conn.go:127-178 | true exactly when every selector entry agrees with the key field |
| `ConnTrackConn.KeysFrom` | pkg/pipeline/extract/conntrack/conn.go:210-226 | collects all key fields and exchanges the endpoint fields when swapping, every index in range |
| `ConnTrackConn.BuildConnection` | pkg/pipeline/extract/conntrack/conn.go:197-237 | a new connection has the swapped or plain hash, the keys, and the initial aggregates |
| `ConnTrackConservation.AggregatorsSound` | pkg/api/conntrack.go:192-226 | for every accepted configuration aggregate fields never collide, only numbers are split, and only where directions exist |
| `MultiOrderedMaps.MultiOrderedMap.constructor` | pkg/pipeline/utils/multiorderedmap.go:48-58 | an empty map with the given empty orders |
| `MultiOrderedMaps.MultiOrderedMap.AddRecord` | pkg/pipeline/utils/multiorderedmap.go:65-77 | refuses a known key unchanged, else adds the record and appends the key to every order; orders stay permutations of the keys |
| `MultiOrderedMaps.MultiOrderedMap.GetRecord` | pkg/pipeline/utils/multiorderedmap.go:79-86 | finds a record if and only if its key is present |
| `MultiOrderedMaps.MultiOrderedMap.RemoveRecord` | pkg/pipeline/utils/multiorderedmap.go:88-99 | removes the record and exactly its key from every order; unknown keys change nothing |
| `MultiOrderedMaps.MultiOrderedMap.MoveToBack` | pkg/pipeline/utils/multiorderedmap.go:101-114 | moves the key to the back of one order only, with the errors for unknown keys and orders |
| `MultiOrderedMaps.MultiOrderedMap.MoveToFront` | pkg/pipeline/utils/multiorderedmap.go:116-129 | moves the key to the front of one order only, with the errors for unknown keys and orders |
| `ConnTrackStore.ConnectionStore.IndexedOnce` | pkg/pipeline/extract/conntrack/store.go:40-52 | a hash is indexed if and only if some map of a group holds it; that is the only one, in the group indexed |
| `ConnTrackStore.ConnectionStore.constructor` | pkg/pipeline/extract/conntrack/store.go:276-294 | an empty store with two separate maps for each scheduling group |
| `ConnTrackStore.ConnectionStore.GetGroupIdx` | pkg/pipeline/extract/conntrack/store.go:58-69 | the first group whose selector matches; the unmatched case cannot occur |
| `ConnTrackStore.ConnectionStore.AddConnection` | pkg/pipeline/extract/conntrack/store.go:71-84 | adds the connection as active to its group: one index entry and one map entry, refining the plain map |
| `ConnTrackStore.ConnectionStore.GetConnection` | pkg/pipeline/extract/conntrack/store.go:86-107 | finds exactly the tracked connections and tells active from terminating |
| `ConnTrackStore.ConnectionStore.SetConnectionTerminating` | pkg/pipeline/extract/conntrack/store.go:109-136 | moves an active connection to the terminating map with the terminating deadline; a terminating one is unchanged |
| `ConnTrackStore.ConnectionStore.UpdateConnectionExpiryTime` | pkg/pipeline/extract/conntrack/store.go:138-158 | renews the deadline of an active connection and moves it to the back; a terminating one is unchanged |
| `ConnTrackStore.ConnectionStore.UpdateNextHeartbeatTime` | pkg/pipeline/extract/conntrack/store.go:160-180 | sets the next heartbeat of an active connection and moves it to the back; a terminating one is unchanged |
| `ConnTrackStore.ConnectionStore.PopEndConnectionOfMap` | pkg/pipeline/extract/conntrack/store.go:182-211 | although it stops at the first live element, ends exactly the connections of one map whose deadline has passed, in deadline order |
| `ConnTrackStore.ConnectionStore.PopEndConnections` | pkg/pipeline/extract/conntrack/store.go:213-229 | ends exactly the expired connections of the whole store, each once, and removes nothing else |
| `ConnTrackStore.ConnectionStore.BeatGroup` | pkg/pipeline/extract/conntrack/store.go:231-251 | reports each due connection of a group once, in due order, although every report moves the current element to the back of the list being iterated; terminates and leaves the list sorted |
| `ConnTrackStore.ConnectionStore.PrepareHeartbeats` | pkg/pipeline/extract/conntrack/store.go:231-251 | reports exactly the due active connections of all groups and reschedules exactly those |
| `ConnTrackView.ScanExact` | pkg/pipeline/extract/conntrack/store.go:186-208 | in a sorted list the prefix before the first live element is exactly the expired part |
| `ConnTrackView.TurnsDone` | pkg/pipeline/extract/conntrack/store.go:234-249 | stopping at the first element that is not due, or after one full turn, misses no due element |
| `ConnTrackView.ExtendedOrdered` | pkg/pipeline/extract/conntrack/store.go:138-158 | renewing a deadline at a later or equal time keeps every expiry list sorted |
| `ConnTrackView.TerminatedOrdered` | pkg/pipeline/extract/conntrack/store.go:109-136 | a FIN keeps all lists of both maps sorted |
| `ConnTrackView.TouchedOrdered` | pkg/pipeline/extract/conntrack/conntrack.go:183-195 | a flow log, whichever of its effects applies, keeps all lists of all groups sorted and every deadline within reach of the clock |
| `ConnTrackView.OpenedOrdered` | pkg/pipeline/extract/conntrack/conntrack.go:91-110 | opening a connection keeps all lists sorted although its deadline is not yet set |
| `ConnTrackView.RescheduledStaysOrdered` | pkg/pipeline/extract/conntrack/store.go:160-180 | rescheduling a heartbeat keeps all lists sorted |
| `ConnTrackExtract.UpdateAggregates` | pkg/pipeline/extract/conntrack/conntrack.go:183-187 | the aggregator loop never panics and applies every aggregator in order |
| `ConnTrackExtract.ConnTrackImpl.UpdateConnection` | pkg/pipeline/extract/conntrack/conntrack.go:183-195 | aggregates, then either terminates the connection or renews its deadline; what the aggregates hold is stated by `TrackedMeans` |
| `ConnTrackExtract.ConnTrackImpl.OpenConnection` | pkg/pipeline/extract/conntrack/conntrack.go:91-110 | stores the new connection with its aggregates updated, scheduled in its group |
| `ConnTrackExtract.ConnTrackImpl.ReportConnection` | pkg/pipeline/extract/conntrack/conntrack.go:111-119 | exports the record with its type and first-record flag, then marks the connection reported |
| `ConnTrackExtract.ConnTrackImpl.AdmitFlow` | pkg/pipeline/extract/conntrack/conntrack.go:84-123 | known connections are updated, unknown ones opened while there is room; records only when enabled |
| `ConnTrackExtract.ConnTrackImpl.ExtractFlow` | pkg/pipeline/extract/conntrack/conntrack.go:71-136 | one flow log: filtered, rejected, duplicate, or admitted, with its flow-log record |
| `ConnTrackExtract.ConnTrackImpl.PopEndConnections` | pkg/pipeline/extract/conntrack/conntrack.go:145-162 | one endConnection record for each expired connection, if enabled; the connections are gone |
| `ConnTrackExtract.ConnTrackImpl.PrepareHeartbeatRecords` | pkg/pipeline/extract/conntrack/conntrack.go:164-181 | one heartbeat record for each due connection, which is then rescheduled and marked reported |
| `ConnTrackExtract.ConnTrackImpl.RunBatch` | pkg/pipeline/extract/conntrack/conntrack.go:67-143 | the imperative body performs one legal batch of the tracker: flow logs, expiry, heartbeats |
| `ConnTrackExtract.ConnTrackImpl.Extract` | pkg/pipeline/extract/conntrack/conntrack.go:67-143 | extends the history by one batch and outputs exactly the records of its events, so that what is proved about runs holds of the object |
| `ConnTrackExtract.ConnTrackImpl.HoldsItsFlows` | pkg/pipeline/extract/conntrack/conntrack.go:67-143 | the connections of every reachable tracker hold what the flow logs of their lifetimes say |
| `ConnTrackExtract.ConnTrackImpl.ReturnedMeans` | pkg/pipeline/extract/conntrack/conntrack.go:67-181 | every record a reachable tracker has returned is of an enabled type and shows what the flow logs of its lifetime so far say |
| `ConnTrackLifecycle.Lifecycle` | pkg/pipeline/extract/conntrack/conntrack.go:67-195 | in every run the events of every hash follow the protocol, and the phase and deadlines they imply are those stored |
| `ConnTrackFlowLogs.TransportOnly` | pkg/pipeline/extract/conntrack/conntrack.go:295-319 | a flow log is taken only from TCP, UDP or SCTP, unless it is marked as duplicate, and a new connection only below a positive maximum |
| `ConnTrackFlowLogs.FlagsAgree` | pkg/pipeline/extract/conntrack/conntrack.go:197-212 | the lowest flag bit ends a connection and the ninth exchanges its ends, when the configuration says so |
| `ConnTrackFlowLogs.FirstMatchIsFirst` | pkg/pipeline/extract/conntrack/store.go:58-69 | the scheduling group is the first whose selector matches the keys |
| `ConnTrackFields.AllStep` | pkg/pipeline/extract/conntrack/aggregator.go:144-199 | one flow log keeps every output field of the configuration what its operation says of the flow logs received: sum, count, minimum, maximum, first or last value, in each direction |
| `ConnTrackFields.OnlyOwn` | pkg/pipeline/extract/conntrack/conn.go:62-83 | only its own aggregator changes an output field |
| `ConnTrackStories.StoryOfRun` | pkg/pipeline/extract/conntrack/conntrack.go:67-226 | in every run the events of every hash tell its lifetimes, and the state holds what the flow logs of each lifetime brought |
| `ConnTrackStories.TrackedMeans` | pkg/pipeline/extract/conntrack/conntrack.go:183-226 | a tracked connection has its endpoints, keys, scheduling group and every aggregate field as the flow logs of its lifetime say, without reference to directions or aggregators |
| `ConnTrackStories.RecordsMean` | pkg/pipeline/extract/conntrack/conntrack.go:67-181 | every flow log received belongs to its connection, and every newConnection, heartbeat and endConnection record shows the keys and fields that the flow logs of the lifetime so far say, of an enabled record type |
| `ConnTrackStories.DirectionSums` | pkg/pipeline/extract/conntrack/conntrack.go:214-226 | conservation per direction: _AB is the sum over the flow logs sent by the end that opened the connection, _BA the sum over all others |
| `ConnTrackStories.OpeningSide` | pkg/pipeline/extract/conntrack/conntrack.go:102-108 | the opening flow log counts as sent by the opening end and its mirror as sent by the other, exchanged when the opening flow log is a SYN_ACK and swapping is on |
| `ConnTrackStories.EveryAccepted` | pkg/pipeline/extract/conntrack/conntrack.go:71-124 | the flow logs that connections receive are exactly the accepted ones, in order |
| `ConnTrackStories.EveryLogged` | pkg/pipeline/extract/conntrack/conntrack.go:127-133 | when enabled, every flow log of a transport protocol that has a hash leaves one flowLog record, duplicates included |
| `ConnTrackLifecycle.RecordsAlternate` | pkg/pipeline/extract/conntrack/conntrack.go:67-181 | with all record types enabled, newConnection and endConnection records of a hash strictly alternate, heartbeats lie strictly between, and the hash is tracked exactly while open |
| `ConnTrackLifecycle.NoHeartbeatAfterFin` | pkg/pipeline/extract/conntrack/store.go:231-251 | no heartbeat follows a FIN within a lifetime |
| `ConnTrackLifecycle.FinDeadlineStored` | pkg/pipeline/extract/conntrack/store.go:109-158 | while a connection stays tracked after the first FIN of its lifetime, the store holds it as terminating, with FIN time plus terminating timeout as its deadline |
| `ConnTrackLifecycle.FinFixesDeadline` | pkg/pipeline/extract/conntrack/store.go:109-158 | after the first FIN of its lifetime a connection is closed only past FIN time plus terminating timeout |
| `ConnTrackLifecycle.FinFlag` | pkg/pipeline/extract/conntrack/store.go:109-136 | a connection is terminating exactly when a FIN of its current lifetime was seen |
| `ConnTrackLifecycle.IsFirstIsFirst` | pkg/pipeline/extract/conntrack/conn.go:120-125 | whatever record types are enabled, the first-record flag is true on exactly the first emitted connection record of each lifetime |
| `ConnTrackLifecycle.CaughtUp` | pkg/pipeline/extract/conntrack/conntrack.go:138-142 | after every batch nothing is past its deadline, and no active connection is past its heartbeat time when heartbeats are enabled |
| `ConnTrackLifecycle.Capacity` | pkg/pipeline/extract/conntrack/conntrack.go:87-101 | a positive maximum bounds the number of tracked connections in every run |
| `ConnTrackConservation.AllUpdatedAmount` | pkg/pipeline/extract/conntrack/aggregator.go:144-154 | one flow log changes the amount of a sum field, both directions together, by exactly its contribution |
| `ConnTrackConservation.Conservation` | pkg/pipeline/extract/conntrack/conntrack.go:67-195 | in every run the sum field over tracked connections plus the final records of ended ones equals the input over all accepted flow logs, those received while terminating included |
| `ConnTrackBalance.RecordsBalance` | pkg/pipeline/extract/conntrack/conntrack.go:130-134 | with endConnection records enabled, in every run these records and the tracked connections together hold the accepted input of each sum field |
| `ConnTrackExtract.ConnTrackImpl.Balance` | pkg/pipeline/extract/conntrack/conntrack.go:67-143 | the same of every reachable tracker, over all records it has returned |
| `DslTables.ShiftAgrees` | pkg/dsl/expr.y.go:78-90 | in every state and for every token the packed tables shift exactly where the automaton does |
| `DslTables.GotoAgrees` | pkg/dsl/expr.y.go:92-99 | the packed goto table leads to the automaton's state after every reduction |
| `DslTables.DefaultAgrees` | pkg/dsl/expr.y.go:101-118 | the default reductions, their lengths and left-hand sides are those of the automaton |
| `DslTables.NeverShifted` | pkg/dsl/expr.y.go:390-430 | neither the end marker nor the error token is shifted in any state |
| `DslAutomaton.ReducedShrinks` | pkg/dsl/expr.y.go:440-466 | every reduction lowers the stack or ends in the root state, so the parser terminates on every input |
| `DslSoundness.StepGood` | pkg/dsl/expr.y.go:337-466 | each shift and reduction keeps stack and remaining input together the same token list, and every stack cell in its layer |
| `DslSoundness.ParseSound` | pkg/dsl/expr.y.go:295-569 | accepted tokens are the yield of the tree returned, in which OR chains lie below AND chains and both group to the left |
| `DslCompleteness.ParseComplete` | pkg/dsl/expr.y.go:295-569 | parsing the printed form of any such tree returns that tree |
| `DslCompleteness.ParseExact` | pkg/dsl/expr.y.go:295-569 | a parse yields a tree if and only if the tree is layered and prints to the tokens; the reading is unique |
| `DslParser.Lex` | pkg/dsl/expr.y.go:255-293 | reads the next token or the end marker and translates it through the token tables |
| `DslParser.NewState` | pkg/dsl/expr.y.go:337-359 | shifts exactly when the tables say so, reading a token only when the state needs one |
| `DslParser.Exception` | pkg/dsl/expr.y.go:361-387 | state 1 accepts on the end marker and fails on anything else |
| `DslParser.Recover` | pkg/dsl/expr.y.go:388-430 | error recovery finds no state to resume in |
| `DslParser.Reduce` | pkg/dsl/expr.y.go:440-566 | pops the right-hand side, runs the action of the rule and consults the goto table |
| `DslParser.Drive` | pkg/dsl/expr.y.go:295-569 | the table-driven loop over the mutable stack returns what the automaton decides |
| `DslParser.Parse` | pkg/dsl/expr.y.go:295-569 | returns 0 with the unique layered reading when there is one, otherwise 1 with one reported error |
| `DslEval.TreeMeaning` | pkg/dsl/lexer.go:148-161 | a tree is built exactly when all regular expressions compile, and applying it is the boolean meaning of the expression, stated on the texts and numbers of the fields |
| `DslEval.ApplyJoin` | pkg/dsl/eval.go:14-33 | a node with two children evaluates to the conjunction or disjunction of both despite the early return |
| `DslEval.ParseQuery` | pkg/dsl/lexer.go:223-236 | a predicate results exactly when the tokens parse and all regular expressions compile; it then has the meaning of the one reading: = holds of exactly the text, != and !~ are negations that hold of missing fields, numbers and patterns only of fields present |
| `DslEval.OrBindsTighter` | pkg/dsl/expr.y.go:78-118 | without parentheses OR binds tighter than AND on either side |
| `TimebasedHeap.RootIsLeast` | pkg/pipeline/extract/timebased/heap.go:38-44 | the root of a heap ranks no higher than any element |
| `TimebasedHeap.RiseStep` | pkg/pipeline/extract/timebased/heap.go:78-78 | one step of sifting up moves the only possible violation to the parent |
| `TimebasedHeap.SinkStep` | pkg/pipeline/extract/timebased/heap.go:80-80 | one step of sifting down to the lesser child moves the only possible violation down |
| `TimebasedHeap.BoundedHeap.Push` | pkg/pipeline/extract/timebased/heap.go:50-52 | keeps the heap and adds exactly one item |
| `TimebasedHeap.BoundedHeap.Pop` | pkg/pipeline/extract/timebased/heap.go:54-60 | removes and returns an item of least rank, keeping the heap |
| `TimebasedHeap.ReplaceRetains` | pkg/pipeline/extract/timebased/heap.go:78-82 | pushing over a full heap and dropping the least keeps exactly the k best seen so far |
| `TimebasedHeap.SkipRetains` | pkg/pipeline/extract/timebased/heap.go:71-73 | skipping what ranks below the last dropped item loses nothing |
| `TimebasedHeap.Drain` | pkg/pipeline/extract/timebased/heap.go:86-93 | empties the heap into a list ordered from best to worst, with multiplicity |
| `TimebasedHeap.ComputeK` | pkg/pipeline/extract/timebased/heap.go:62-157 | for every traversal order of finite results: the k best of distinct keys, best first, and nothing left out ranks above one taken; bottom-K in reverse. Infinite losing values are skipped |
| `TimebasedHeap.FiniteAdmitted` | pkg/pipeline/extract/timebased/heap.go:62-66 | every finite double passes the initial bound |
| `TimebasedHeap.TighterHoldsBack` | pkg/pipeline/extract/timebased/heap.go:62-66 | any tighter initial bound would hold a finite double back |
| `Float64.LargestFiniteDouble` | pkg/pipeline/extract/timebased/filters.go:113-124 | the constant is a finite double and no finite double is larger in magnitude |
| `Float64.MaxFloat64IsScaled` | pkg/pipeline/extract/timebased/filters.go:121-124 | the constant is the largest significand scaled by the largest exponent |
| `TimebasedSpec.SplitJoin` | pkg/pipeline/extract/timebased/timebased.go:65-67 | splitting a joined index key gives its fields back when none holds a comma |
| `TimebasedExtract.IndexValueOf` | pkg/pipeline/extract/timebased/tables.go:34-53 | an entry is indexed if and only if every index field has a text, under the joined texts |
| `TimebasedSpec.IndexMeans` | pkg/pipeline/extract/timebased/tables.go:34-53 | an entry is indexed if and only if every index field is present with a text, under these texts joined by commas |
| `TimebasedExtract.GroupsAreIndexValues` | pkg/pipeline/extract/timebased/tables.go:34-53 | entries share a group exactly when their index fields agree, when no text holds a comma |
| `TimebasedExtract.IndexKeyTable.AddEntry` | pkg/pipeline/extract/timebased/tables.go:51-65 | appends the entry to the list of its index value and changes no other list |
| `TimebasedExtract.AddEntryToTables` | pkg/pipeline/extract/timebased/tables.go:32-67 | enters the entry into every table, in any order of the tables |
| `TimebasedExtract.DeleteFromFront` | pkg/pipeline/extract/timebased/tables.go:78-89 | deletes from the front up to the first entry that is not too old |
| `TimebasedExtract.IndexKeyTable.DeleteOldEntries` | pkg/pipeline/extract/timebased/tables.go:75-91 | prunes every list of a table by its largest window |
| `TimebasedExtract.DeleteOldEntriesFromTables` | pkg/pipeline/extract/timebased/tables.go:74-93 | prunes every table by its own largest window |
| `TimebasedExtract.FilterStruct.CalculateValue` | pkg/pipeline/extract/timebased/filters.go:78-111 | sum, mean, count, maximum or minimum of the convertible values inside the window, with the initial value when there is none |
| `TimebasedExtract.FilterStruct.Difference` | pkg/pipeline/extract/timebased/filters.go:49-66 | newest value minus the first convertible one inside the window, 0 when either is missing |
| `TimebasedExtract.FilterStruct.Evaluate` | pkg/pipeline/extract/timebased/filters.go:36-69 | one evaluation of a rule on one list; nothing when the original continues |
| `TimebasedExtract.FilterStruct.CalculateResults` | pkg/pipeline/extract/timebased/filters.go:32-76 | re-evaluates every list of the shared table and keeps the other results, in any order of the map |
| `TimebasedExtract.FilterStruct.ComputeTopkBotk` | pkg/pipeline/extract/timebased/filters.go:131-149 | outputs a valid selection of the results: the k best, or each result once |
| `TimebasedExtract.FilterStruct.CreateGenericMap` | pkg/pipeline/extract/timebased/filters.go:151-176 | one record for each output result, in order, and what each tells of its result |
| `TimebasedExtract.RecordTells` | pkg/pipeline/extract/timebased/filters.go:153-172 | a record carries the result under the operation key if and only if that is not a written index field, the parts of the index value under the index fields, and name, index key and operation unless one of these takes the field |
| `TimebasedExtract.RecordNamesGroup` | pkg/pipeline/extract/timebased/filters.go:163-169 | the record of a group carries the index fields of every entry of that group, when no text holds a comma |
| `TimebasedSpec.GreatestIsMaximum` | pkg/pipeline/extract/timebased/filters.go:96-97 | the running maximum is an upper bound that is reached |
| `TimebasedSpec.SmallestIsMinimum` | pkg/pipeline/extract/timebased/filters.go:98-99 | the running minimum is a lower bound that is reached |
| `TimebasedSpec.WindowExtremes` | pkg/pipeline/extract/timebased/filters.go:78-111 | the maximum and minimum of a window of finite numbers are among them and bound them, so the initial values never show |
| `TimebasedSpec.MeanIsBetween` | pkg/pipeline/extract/timebased/filters.go:104-106 | the mean lies between any bounds of the values |
| `TimebasedRun.CreateIndexKeysAndFilters` | pkg/pipeline/extract/timebased/timebased.go:60-109 | one shared empty table for each index key in use, with its largest window, and one filter for each usable rule, in order |
| `TimebasedRun.FiltersOfRules` | pkg/pipeline/extract/timebased/timebased.go:63-107 | there is one filter for each rule that names an index and a known operation, with its index key and fields completed and all else as configured |
| `TimebasedRun.HistoryIsLargestWindow` | pkg/pipeline/extract/timebased/timebased.go:75-85 | the history kept covers the window of every rule on the key and is the window of one of them |
| `TimebasedRun.UsableCovered` | pkg/pipeline/extract/timebased/timebased.go:86-106 | every filter finds a table whose history covers its window |
| `TimebasedRun.Timebased.constructor` | pkg/pipeline/extract/extract_timebased.go:62-75 | starts in a reachable state with an empty history |
| `TimebasedRun.Timebased.Extract` | pkg/pipeline/extract/extract_timebased.go:35-59 | add, calculate, prune: tables and results stay those of the run, and the output is the records of admissible selections, rule by rule, each telling its result: of finite results the k best of all |
| `TimebasedPruning.PruningInvisible` | pkg/pipeline/extract/extract_timebased.go:35-59 | in every run at non-decreasing times each rule has the results of a run that never deletes, although tables are shared and pruned by the largest window |
| `TimebasedPruning.TableExact` | pkg/pipeline/extract/timebased/tables.go:74-93 | after every batch a pruned list holds exactly what was received under its index value within the largest window |
| `TimebasedPruning.ResultsExact` | pkg/pipeline/extract/timebased/filters.go:32-76 | a result is the operation over everything ever received in the window, and only index values ever seen have one |
| `TimebasedPruning.DropOldIsRecent` | pkg/pipeline/extract/timebased/tables.go:78-89 | in a chronological list deleting from the front removes exactly the old entries |
| `TimebasedRun.Timebased.ReportsAsIfNothingWereDeleted` | pkg/pipeline/extract/extract_timebased.go:35-59 | the same, of every filter of every reachable extractor |
| `TimebasedRun.Timebased.OutputsExact` | pkg/pipeline/extract/extract_timebased.go:35-59 | every result put out for a batch is the operation over everything ever received under its index value inside the window |
| `TimebasedRun.Timebased.TablesHoldTheLargestWindow` | pkg/pipeline/extract/timebased/timebased.go:75-85 | the tables of every reachable extractor hold exactly the largest window |
| `FrrLpm.Lookup` | pkg/pipeline/transform/frr/lpm.go:66-77 | the first matching entry answers longest prefix, then lowest AS number, for every set of claims the table represents |
| `FrrLpm.ContainsIsBitwise` | pkg/pipeline/transform/frr/lpm.go:66-77 | a network contains the addresses of its family that agree in every bit of its mask |
| `FrrLpm.LookupString` | pkg/pipeline/transform/frr/lpm.go:79-82 | a text that is no address finds nothing, others are looked up |
| `FrrLpm.BuildASNTable` | pkg/pipeline/transform/frr/lpm.go:28-64 | for every map order the table lists each claimed network once with its lowest AS number, longest first; 0 and invalid texts are skipped |
| `FrrLpm.AnswerIsUnique` | pkg/pipeline/transform/frr/lpm.go:66-77 | the longest-match rule of section 5.1 of RFC 4632 with lowest AS number has exactly one answer |
| `FrrStore.ExtractASNMappings` | pkg/pipeline/transform/frr/extract.go:18-61 | extracts exactly what the object assigns, each prefix to the number of its last owner, or fails exactly when a list it must read is malformed |
| `FrrStore.LastOwnerWins` | pkg/pipeline/transform/frr/extract.go:32-60 | a prefix is mapped exactly when a labelling router owns it, to the AS number of the last such router |
| `FrrStore.OwnedListed` | pkg/pipeline/transform/frr/extract.go:50-100 | a router owns the non-empty texts of its prefix list, and those its neighbours are allowed as texts or as prefixes of structures |
| `FrrStore.MappingsAreAssigned` | pkg/pipeline/transform/frr/extract.go:18-122 | the mappings of an object are exactly its assignments, read off the lists: the AS number reduced to 32 bits and not zero, of the last router that owns the prefix |
| `FrrStore.ClaimsAreLive` | pkg/pipeline/transform/frr/store.go:139-227 | the claims are those of the objects, by namespace and name, whose latest event stored them |
| `FrrStore.Merge` | pkg/pipeline/transform/frr/store.go:182-194 | for every map order the merged map names each claimed network with its lowest AS number |
| `FrrStore.MergedRepresents` | pkg/pipeline/transform/frr/store.go:182-196 | the table built from the merged map represents the claims of all objects |
| `FrrStore.InformerStore.constructor` | pkg/pipeline/transform/frr/store.go:58-68 | starts with an empty table |
| `FrrStore.InformerStore.Upsert` | pkg/pipeline/transform/frr/store.go:139-160 | replaces the object, or deletes it when it cannot be read, and rebuilds the table for all current objects |
| `FrrStore.InformerStore.Remove` | pkg/pipeline/transform/frr/store.go:162-180 | deletes the object, also behind a tombstone, and rebuilds the table |
| `FrrStore.InformerStore.Lookup` | pkg/pipeline/transform/frr/store.go:70-72 | after any sequence of events: the longest matching prefix that a live object assigns, the lowest AS number on it, or none |
| `FrrStore.OrderIsIrrelevant` | pkg/pipeline/transform/frr/store.go:139-196 | event sequences that leave the same objects give the same answer for every address |
| `KubernetesStores.KubernetesStore.RemoveFromIndexes` | pkg/pipeline/transform/kubernetes/datasource/kubernetesstore.go:41-66 | removes exactly the listed entries that carry the UID of the resource |
| `KubernetesStores.KubernetesStore.AddToIndexes` | pkg/pipeline/transform/kubernetes/datasource/kubernetesstore.go:68-87 | first match wins for IPs, the latest for node names and secondary keys |
| `KubernetesStores.KubernetesStore.ReplaceAll` | pkg/pipeline/transform/kubernetes/datasource/kubernetesstore.go:89-108 | the four maps are those of the given entries alone |
| `KubernetesStores.KubernetesStore.AddOrUpdateAll` | pkg/pipeline/transform/kubernetes/datasource/kubernetesstore.go:110-126 | entry by entry, the old indexes removed before the new ones are added |
| `KubernetesStores.KubernetesStore.DeleteAll` | pkg/pipeline/transform/kubernetes/datasource/kubernetesstore.go:128-144 | entry by entry, known resources leave the store and its indexes |
| `KubernetesStores.KubernetesStore.IndexLookup` | pkg/pipeline/transform/kubernetes/datasource/kubernetesstore.go:146-167 | while the indexes are sound and complete: the linear search, secondary keys first |
| `KubernetesStores.KubernetesStore.GetNodeByName` | pkg/pipeline/transform/kubernetes/datasource/kubernetesstore.go:169-178 | while the indexes are sound and complete: the node of that name, or none exists |
| `KubernetesStores.AlwaysSound` | pkg/pipeline/transform/kubernetes/datasource/kubernetesstore.go:44-144 | in every run whose snapshots are indexed soundly each index entry points to a current resource that lists it |
| `KubernetesStores.LoadedSound` | pkg/pipeline/transform/kubernetes/datasource/kubernetesstore.go:89-108 | a replacement is indexed soundly if and only if, for every listed key, the entry that wins it is the last one under its store key |
| `KubernetesStores.DistinctStay` | pkg/pipeline/transform/kubernetes/datasource/kubernetesstore.go:89-108 | entries with distinct keys meet that condition |
| `KubernetesStores.RepeatedKeys` | pkg/pipeline/transform/kubernetes/datasource/kubernetesstore.go:91-108 | a repeated entry meets it, while a renewed one with another IP leaves an index entry for a resource no longer stored |
| `KubernetesStores.SoundRunsLoadSoundly` | pkg/pipeline/transform/kubernetes/datasource/kubernetesstore.go:89-108 | a run that is sound after a snapshot had a snapshot that met the condition |
| `KubernetesStores.LoadedComplete` | pkg/pipeline/transform/kubernetes/datasource/kubernetesstore.go:89-108 | any replacement indexes every listed key |
| `KubernetesStores.DropKeepsComplete` | pkg/pipeline/transform/kubernetes/datasource/kubernetesstore.go:44-66 | a removal keeps every listed key of an index if and only if no other resource shares a key whose entry carries the removed UID |
| `KubernetesStores.AlwaysComplete` | pkg/pipeline/transform/kubernetes/datasource/kubernetesstore.go:44-144 | while resources are disjoint for an index after every single step of a change, every key listed for it has an entry |
| `KubernetesStores.LookupIsSearch` | pkg/pipeline/transform/kubernetes/datasource/kubernetesstore.go:150-167 | the index lookup is the linear search through the resources |
| `KubernetesStores.AlwaysFound` | pkg/pipeline/transform/kubernetes/datasource/kubernetesstore.go:150-167 | in every run whose changes keep IPs and secondary keys disjoint the index lookup is the linear search |
| `KubernetesIdentity.OnePlace` | pkg/pipeline/transform/kubernetes/datasource/kubernetesstore.go:11-13 | two resources occupy one place in the store if and only if kind, namespace and name agree, for kinds and namespaces without a slash |
| `KubernetesIdentity.CurrentStands` | pkg/pipeline/transform/kubernetes/datasource/kubernetesstore.go:89-144 | over every run a resource is held if and only if the latest replacement, update or deletion about its kind, namespace and name listed it last as it is and was no deletion |
| `KubernetesIdentity.LookupFindsStanding` | pkg/pipeline/transform/kubernetes/datasource/kubernetesstore.go:150-167 | in every run whose changes keep IPs and secondary keys disjoint, a lookup is the linear search through exactly these resources |
| `KubernetesIdentity.TriplesDiffer` | pkg/pipeline/transform/kubernetes/datasource/kubernetesstore.go:11-13 | store keys are distinct if and only if the triples are |
| `KubernetesStores.FoundIsUnique` | pkg/pipeline/transform/kubernetes/datasource/kubernetesstore.go:150-167 | among resources with disjoint IPs and secondary keys the search has one answer |
| `KubernetesStores.PutIsDropThenAdd` | pkg/pipeline/transform/kubernetes/datasource/kubernetesstore.go:115-125 | an update is a removal followed by an addition under a new key |
| `KubernetesSync.MetaRoundTrip` | pkg/pipeline/transform/kubernetes/k8scache/converter.go:9-84 | a resource survives both conversions if and only if its creation time is the zero time or a whole number of seconds other than the epoch |
| `KubernetesSync.EntryRoundTrip` | pkg/pipeline/transform/kubernetes/k8scache/converter.go:9-84 | a message survives the way back if and only if it does not spell out the zero time in seconds |
| `KubernetesSync.Client.SendBatched` | pkg/pipeline/transform/kubernetes/k8scache/client.go:414-453 | consecutive versions carry all entries in order, none marked as snapshot; nothing is sent for an empty list |
| `KubernetesSync.Client.SendSnapshot` | pkg/pipeline/transform/kubernetes/k8scache/client.go:455-501 | consecutive versions carry all entries in order, exactly the first marked as snapshot; an empty list is one empty snapshot |
| `KubernetesSync.Client.NextUpdate` | pkg/pipeline/transform/kubernetes/k8scache/client.go:503-514 | every update takes the next version |
| `KubernetesSync.Server.ProcessUpdate` | pkg/pipeline/transform/kubernetes/k8scache/server.go:134-164 | applies the call the update stands for, or rejects it without effect |
| `KubernetesSync.Server.StreamUpdates` | pkg/pipeline/transform/kubernetes/k8scache/server.go:72-131 | applies the delivered updates in order; a rejected one changes neither store nor version |
| `KubernetesSync.Server.Connect` | pkg/pipeline/transform/kubernetes/k8scache/server.go:40-57 | a new stream starts from version 0 |
| `KubernetesSync.SnapshotIsOneReplace` | pkg/pipeline/transform/kubernetes/k8scache/client.go:455-501 | whatever the server held, a batched snapshot leaves exactly the four maps of one replacement and the last version, if no resource after the first batch repeats the key of an earlier one |
| `KubernetesSync.CutsMatter` | pkg/pipeline/transform/kubernetes/k8scache/client.go:455-501 | without that condition the index of IPs depends on where the batches are cut: a resource listed twice that loses an IP in between |
| `KubernetesStores.LoadThenPut` | pkg/pipeline/transform/kubernetes/datasource/kubernetesstore.go:89-126 | adding entries with fresh keys after a replacement is the same as replacing with all of them |
| `KubernetesSync.IncrementalIsOneCall` | pkg/pipeline/transform/kubernetes/k8scache/client.go:414-453 | a batched change acts as one call with all its entries |
| `KubernetesSync.DeliveredUnchanged` | pkg/pipeline/transform/kubernetes/k8scache/converter.go:43-98 | resources with transmissible creation times arrive unchanged |
| `KubernetesSync.Synchronise` | pkg/pipeline/transform/kubernetes/k8scache/server.go:39-131 | a whole synchronisation through both converters ends with the client's resources, soundly and completely indexed, exactly these when their creation times can be transmitted, and the client's version |
| `Flattening.Distribute` | pkg/pipeline/encode/metrics/flattening.go:48-80 | entry c is the ordered merge of the elements at the mixed-radix digits of c, and there are as many as combinations |
| `Flattening.Combine` | pkg/pipeline/encode/metrics/flattening.go:61-78 | one pass merges the chosen elements and counts the index array up in place, every index in range |
| `Flattening.IncrementedDigits` | pkg/pipeline/encode/metrics/flattening.go:63-77 | counting the digits up with a carry is adding one to the number |
| `Flattening.EveryCombinationOnce` | pkg/pipeline/encode/metrics/flattening.go:48-80 | every choice of one element from each list appears exactly once |
| `Flattening.LastPartWins` | pkg/pipeline/encode/metrics/flattening.go:66-68 | a field of a merged entry is that of the last chosen element that has it |
| `Flattening.NestedFields` | pkg/pipeline/encode/metrics/flattening.go:82-88 | nested fields appear under the prefixed name, one for each |
| `Flattening.PartsAreAlternatives` | pkg/pipeline/encode/metrics/flattening.go:18-40 | an element that is a map contributes its entries under prefixed names, any other element itself under the name of the field |
| `Flattening.GenerateFlatParts` | pkg/pipeline/encode/metrics/flattening.go:7-46 | the product of the non-empty label lists, each list holding one alternative for each element of its field: nothing without labels, one empty entry when no label holds a list |
| `TimedCaches.ComputeHash` | pkg/pipeline/utils/timed_cache.go:54-65 | the hash of the keys, each fed with a separator after it |
| `TimedCaches.TextsDiffer` | pkg/pipeline/utils/timed_cache.go:54-65 | tuples without the separator feed the same text only if they are equal |
| `TimedCaches.SeparatorCollides` | pkg/pipeline/utils/timed_cache.go:54-65 | with the separator in a key different tuples collide under every hash |
| `TimedCaches.TimedCache.UpdateCacheEntry` | pkg/pipeline/utils/timed_cache.go:88-120 | a known key is refreshed and keeps its content, a new one is added unless the cache is full; map and list stay in bijection, sorted by last update |
| `TimedCaches.TimedCache.GetCacheEntry` | pkg/pipeline/utils/timed_cache.go:77-86 | finds exactly the entries on the list, by the hash of their keys |
| `TimedCaches.TimedCache.CleanupExpiredEntries` | pkg/pipeline/utils/timed_cache.go:139-174 | removes exactly the entries not updated after now minus expiry, with one callback for each, oldest first |
| `TimedCaches.TimedCache.Clear` | pkg/pipeline/utils/timed_cache.go:67-75 | empties the cache |
| `TimedCaches.EvictionEnds` | pkg/pipeline/utils/timed_cache.go:151-173 | stopping at the first recently used entry misses no expired one |
| `TimedCaches.MovedConsistent` | pkg/pipeline/utils/timed_cache.go:97-114 | moving a refreshed key to the back keeps the list sorted |
| `SubnetLabels.ApplySubnetLabel` | pkg/pipeline/transform/transform_network.go:170-182 | the name of the first category with a prefix that contains the address, empty otherwise |
| `SubnetLabels.LabelIsFirst` | pkg/pipeline/transform/transform_network.go:170-182 | the label is the name of the first category one of whose prefixes agrees with the address in every bit it keeps, empty when there is none |
| `SubnetLabels.ParseSubnets` | pkg/pipeline/transform/transform_network.go:184-200 | all categories that have prefixes, in order, or nothing when one prefix is invalid |
| `SubnetLabels.NetworkTransform.AddSubnetLabel` | pkg/pipeline/transform/transform_network.go:131-148 | whatever the cache holds, the entry gets the label, under the current subnets, of the address that owns the cached hash: its own, unless two addresses looked up in the run collide; no other field changes |
| `SubnetLabels.NetworkTransform.LookupLabel` | pkg/pipeline/transform/transform_network.go:138-143 | across any mix of lookups, cleanups and updates the label is exactly that of the address served, its own if the addresses looked up do not collide |
| `SubnetLabels.NetworkTransform.ServedIsOwn` | pkg/pipeline/transform/transform_network.go:138-143 | an address is served its own label unless another one that was looked up has the same hash |
| `SubnetLabels.NetworkTransform.Update` | pkg/pipeline/transform/transform_network.go:203-228 | a valid configuration replaces the subnets and empties the cache, an invalid one changes nothing |
| `SubnetLabels.NetworkTransform.Cleanup` | pkg/pipeline/utils/timed_cache.go:186-203 | expiry keeps the cache right |
| `AggregateLabels.SortedIsUnique` | pkg/pipeline/extract/aggregate/aggregate.go:80-94 | the sorted keys do not depend on the order in which the map of labels is traversed |
| `AggregateLabels.IdentityMeans` | pkg/pipeline/extract/aggregate/aggregate.go:65-104 | a flow log is grouped if and only if it has all the group-by fields, under their texts in the bytewise order of the keys |
| `AggregateLabels.LabelsFromEntry` | pkg/pipeline/extract/aggregate/aggregate.go:65-78 | the texts of all group-by fields, and whether all of them are present |
| `AggregateLabels.GetNormalizedValues` | pkg/pipeline/extract/aggregate/aggregate.go:80-94 | the label values in the sorted order of their keys, whatever the order of the map |
| `AggregateLabels.FilterEntry` | pkg/pipeline/extract/aggregate/aggregate.go:96-104 | labels and ordered values of a flow log, or nothing when a group-by key is missing |
| `Aggregation.Update` | pkg/pipeline/extract/aggregate/aggregate.go:143-180 | one flow log moves total, recent and raw values together |
| `Aggregation.Report` | pkg/pipeline/extract/aggregate/aggregate.go:211-237 | returns the whole record of a group and resets its recent fields |
| `Aggregation.NumberReported` | pkg/pipeline/extract/aggregate/aggregate.go:214-230 | a numeric field of the record is the one of the group if and only if neither a group-by key nor their join has its name |
| `Aggregation.RecordIsTold` | pkg/pipeline/extract/aggregate/aggregate.go:211-231 | the record tells the totals over everything the group received and the recent values over what it received since the last report, under their names unless a label or the joined keys takes them |
| `Aggregation.Aggregate.constructor` | pkg/pipeline/extract/aggregate/aggregates.go:62-76 | an empty unlimited cache; no configured expiry time means two minutes |
| `Aggregation.Aggregate.UpdateByEntry` | pkg/pipeline/extract/aggregate/aggregate.go:121-183 | the flow log reaches the group of its hash, which begins with it if new and is now the last updated; no other group changes |
| `Aggregation.Aggregate.Evaluate` | pkg/pipeline/extract/aggregate/aggregate.go:185-202 | every flow log with all the group-by keys is entered into the group of its hash, in order; others are ignored |
| `Aggregation.Aggregate.GetMetrics` | pkg/pipeline/extract/aggregate/aggregate.go:204-241 | the records of all groups, each once, in any order, and what each tells; every period is closed |
| `Aggregation.Aggregate.Expire` | pkg/pipeline/extract/aggregate/aggregates.go:91-97 | expiry removes exactly the groups that received no flow log after now minus the expiry time, and changes no other |
| `Aggregation.TouchedAt` | pkg/pipeline/extract/aggregate/aggregate.go:138-140 | a group was last updated when it last received a flow log |
| `Aggregation.FedAt` | pkg/pipeline/extract/aggregate/aggregate.go:185-202 | a group receives exactly the flow logs of its hash, in order, and keeps the labels of the first |
| `Aggregation.TotalOfFlowLogs` | pkg/pipeline/extract/aggregate/aggregate.go:121-183 | the total of a group is the count, sum, maximum from zero or minimum over the numbers that parse in the flow logs of its hash |
| `Aggregation.SharedGroup` | pkg/pipeline/extract/aggregate/aggregate.go:121-140 | two flow logs share a group if and only if the hashes of their label values agree |
| `Aggregation.GroupsAreLabelTuples` | pkg/pipeline/extract/aggregate/aggregate.go:121-140 | every group is that of one tuple of label values if and only if no two different tuples in the input have the same hash |
| `Aggregation.PlainLabels` | pkg/pipeline/utils/timed_cache.go:56-65 | when no label value holds the separator, that is so if and only if the hash has no collision on the texts fed to it |
| `Aggregation.SeparatorMerges` | pkg/pipeline/utils/timed_cache.go:54-65 | with the separator in a label two different label tuples share one group, whatever the hash function |
| `Aggregation.Aggregate.LivingGroupAddsUp` | pkg/pipeline/extract/aggregate/aggregate.go:204-241 | while a group lives, for sum and count the recent values of all metrics returned of it plus the pending one add up to its total |
| `Aggregation.Aggregate.LivingGroupKeepsValues` | pkg/pipeline/extract/aggregate/aggregate.go:204-241 | while a group lives, the raw values of all metrics returned of it followed by the pending ones are the parsed values of all flow logs it received, in order |
| `AggregateValues.ReportsAddUp` | pkg/pipeline/extract/aggregate/aggregate.go:204-241 | for sum and count the reported recent values plus the pending one add up to the total |
| `AggregateValues.ValueMeaning` | pkg/pipeline/extract/aggregate/aggregate.go:143-176 | the running value is the sum, count, maximum from zero or minimum of the numbers; the raw values kept are the numbers |
| `AggregateValues.MinimumExact` | pkg/pipeline/extract/aggregate/aggregate.go:106-119 | the reported minimum of finite numbers is their minimum |
| `AggregateValues.RawReportsConcatenate` | pkg/pipeline/extract/aggregate/aggregate.go:171-172 | the reported raw values followed by the pending ones are all parsed values in order |
| `AggregateValues.AverageExact` | pkg/pipeline/extract/aggregate/aggregate.go:168-170 | when every flow log carries a number the running average is the exact mean |
| `AggregateValues.AverageStepExact` | pkg/pipeline/extract/aggregate/aggregate.go:168-180 | an exact average stays exact if and only if every flow log so far carried a number, or the new number equals it |
| `AggregateValues.MaximumExact` | pkg/pipeline/extract/aggregate/aggregate.go:106-119 | the reported maximum is the maximum of the numbers if and only if one of them is not negative |

## Left out

- All ingest, write and transport stages (Kafka, IPFIX, gRPC, TLS, S3, Loki, OTLP, Prometheus registry reload), Kubernetes informers and leader election: I/O and foreign libraries.
- Operational metrics and logging inside the modelled functions: they do not influence results.
- Locks, tickers and goroutines: operations are modelled as sequential calls; reconnection and concurrent broadcasts of the k8s cache client are not part of this model, only the delivered sequence of updates is.
- Connections as shared pointers: a connection is a value in its map and every change made through its pointer is written back (`SetRecord`, `SetConnection`), so aliasing of one connection from two places is not modelled. The same holds for the aggregation groups.
- container/list: a list is the sequence of its keys, each of which occurs once; the saved next pointer of an iteration is the key after the current one.
- `IterateFrontToBack` with a callback: its loop is written out in its two users, `PopEndConnectionOfMap` and `BeatGroup`.
- The output fields `_HashId`, `_RecordType` and `_IsFirst`: separate components of a record instead of map entries.
- Negative timeouts and heartbeat intervals of connection tracking: with a negative interval the original heartbeat loop does not end once a group has two or more due connections; with one it ends, because the next element is saved before the callback runs.
- NaN, infinite values and floating-point rounding: arithmetic is on reals.
- Lexing of query texts and `$(var)` injection into filter values: the parser is fed tokens and regular expressions are parameters of the evaluation.
- Growth of the parser stack by doubling: the stack is a sequence. The verbose error text is one reported error.
- IPv4-mapped IPv6 prefixes and addresses: two separate address families.
- sort.SliceStable: a stable insertion by the same comparison.
- `LoadConfigs` of the FRR store: a helper of its tests.
- An aggregate of an unknown operation: the original panics when its first group begins; the model has the six operations.
- The loop over several aggregates, and the clean-up ticker: one aggregate is one object with its own cache.
- KubernetesSync.Synchronise: stated for resources with distinct store keys, as an informer lists them; `SnapshotIsOneReplace` has the weaker condition.
- The other rules of the network transform (subnet, location, services, direction, TCP flags, Kubernetes fields): each computes output fields from other fields of the same flow log by a lookup in a table or library, and keeps no state.
- `ApplyFilters` for one key with several filters, and the sampling round trip of IPFIX: their results depend on map order and on floating-point truncation.
- KubernetesSync.Client.SendBatched: requires a positive batch size for a list that is not empty, because the original indexes out of range for a negative configured one; `SendSnapshot` replaces such a size by the default and needs no condition.
- SubnetLabels.NetworkTransform.LookupLabel: gives an address the label of the one that owns its cached hash; that this is its own label is stated for runs in which the addresses looked up do not collide, because the original cannot tell colliding ones apart.
- FrrStore.ClaimsAreLive and the results about kinds and namespaces: stated for namespaces (and kinds) without a slash, which Kubernetes never has; with one, two objects can share a key.
- FrrLpm.BuildASNTable: assumes of package net that the printed form of a parsed prefix parses to the same prefix.
