# Verification of the graph, construction, credential and storage cores

This project models the parts of the Open Component Model Go bindings whose correctness is hard to see
from the code, and proves what they promise. `dafny verify dfyconfig.toml` checks all of it.

- `Graphs`, `Orders`, `TopoOrder`, `GraphState`: paths, cycles and reachability; sorted iteration; the
  depth-first finish order; and what the operations of the mutable graph do to its value.
- `Dag`: the mutable directed acyclic graph as a class, with the incremental cycle check that registers
  an edge, searches and rolls back, the recursive cycle detector, the sort and the reversal; `Searches`
  is what its searches report as functions of the vertex and edge sets.
- `Process`, `ProcessOutcome`: the parallel form of Kahn's algorithm. Coordinator, workers, channel,
  errgroup and contexts are a step relation; the theorems range over all interleavings, failures and
  cancellations.
- `Discover`, `DiscoverOutcome`, `DiscoverHalting`: concurrent recursive discovery with one owner per key,
  again over all interleavings, with its invariant, what its runs guarantee, and that an error halts it.
- `Construct`, `ConstructDigests`, `ConstructOutcome`, `ConstructTarget`, `ConstructRuns`, `ConstructExactly`:
  both drivers composed with the steps of the component constructor's workers, the stored descriptors, the digest
  cache and the target repository; which digests are recorded; what all runs guarantee; what is in the
  target; how a run is steered; and exactly when every run records the right digests.
- `Credentials`, `CredentialRuns`, `CredentialAliases`, `Ingest`: the credential graph on top of `Dag`,
  resolution with stored results, lookups at the same time, requests that print like a vertex, and the
  first phase of reading a configuration.
- `Escape`, `Identities`, `DigestPins`: the text formats that must be read back; `PathPatterns`: what the glob
  made from a path prefix matches; `IdentityHashes`: the hash that is used in place of a printed identity.
- `ReplayBody`, `VerifiedReader`, `BlobStore`: the replayable request body, the verifying reader and
  concurrent saves into a content-addressed directory.
- `OciArtifacts`, `OciPins`, `OciAdding`: reading component versions from OCI artifacts by digest, through
  pins while tags move, and adding them.

A lock section, a channel operation or one call into the outside is one step. Code that changes things in
place is modelled by classes and methods whose contracts give the new value as a function of the old one;
what is promised is then proved of that function. Where the concurrent code is modelled by a step
relation, `Next` is the code and `IsRun` quantifies over every interleaving.

Results that differ from what one might expect of the code:

- A reference digest can be cached, and recorded, for the wrong component version. Descriptors are loaded
  under what the identities of references print to, so that of two that print alike the later one overwrites
  the earlier (`bindings/go/constructor/processor.go:104-122`). The duplicate check compares a hash of the
  identities instead (`bindings/go/descriptor/runtime/validate.go:38-42`), and only after all references were
  processed (`bindings/go/constructor/construct.go:239-245`). `ConstructExactly.CacheExactly` says exactly for
  which files a cache entry can be wrong, and `ConstructExactly.TargetExactly` for which a wrong digest can be
  added: by the component itself, if its references print alike but pass the check
  (`ConstructExactly.MisprintedFails`), or by a component built at the same time, which takes it from the cache
  even where the check fails (`ConstructExactly.TwiceNamedFails`).
- A credential request that reaches a vertex by a wildcard match can change its result after the
  vertex itself was resolved. `Credentials.WildcardExactly` says at which vertices it cannot, whatever the
  plugins answer; `Credentials.SameAnswersAgree` names plugins with which it never does, and
  `Credentials.WildcardSeesStored` is a graph in which it does.
- A credential request that prints like a vertex without being its identity, as a path `p,port=443` does
  like a path `p` with the port `443`, hits that vertex exactly, since vertices are found and results stored
  by what identities print to (`bindings/go/credentials/synced_dag.go:79-96`,
  `bindings/go/credentials/resolve_direct.go:71`). What the plugins answer to it is stored for the vertex,
  which gets it from then on: `CredentialAliases.LookalikeChangesConsumer`. `Credentials.AliasExactly` and
  `CredentialRuns.RunsAgreeExactly` say exactly where that cannot happen, and with well formed
  identities it never does: `CredentialAliases.WellFormedHarmless`.
- A digest pin binds the component version read if and only if the pinned document cannot be read both as
  an index and as a manifest of the version asked for, since the kind is taken from what the store reports,
  not from the verified bytes (`bindings/go/oci/repository.go:1143-1167`): `OciPins.PinBindsExactly`, with a
  document that can in `OciPins.KindDecides`. Two reads of one digest agree exactly if the reported
  kinds do: `OciArtifacts.SameReadExactly`.
- `ParseIdentity` is said to parse all identities `String` returns (`bindings/go/runtime/identity.go:83-84`);
  it does exactly for the well formed ones: `Identities.RoundTripExactly`.
- `DeleteVertex` leaves dangling edges exactly if the vertex has predecessors.

## Model

| member | source | states |
|---|---|---|
| `Dag.Vertex.constructor` | bindings/go/dag/dag.go:84-101 | a new vertex has no edges and no degrees |
| `Dag.DirectedAcyclicGraph.constructor` | bindings/go/dag/dag.go:69-73 | an empty graph is valid: closed, acyclic, exact counters |
| `Dag.DirectedAcyclicGraph.AddVertex` | bindings/go/dag/dag.go:84-101 | fails exactly on a known ID; otherwise adds one vertex without edges whose attributes are those of the maps given, of several that have a key the last one's, changes nothing else and keeps the graph valid |
| `Dag.DirectedAcyclicGraph.DeleteEdge` | bindings/go/dag/dag.go:103-124 | the three error cases in their order; otherwise just that edge is gone, all attributes stay and both counters are exact |
| `Dag.DirectedAcyclicGraph.DeleteVertex` | bindings/go/dag/dag.go:127-141 | removes the vertex and its outgoing edges; the graph stays closed and valid if and only if the in-degree was zero |
| `Dag.DirectedAcyclicGraph.AddEdge` | bindings/go/dag/dag.go:160-204 | succeeds exactly if both ends exist, differ, and the edge exists already or its end does not reach its start; then a key is in the attributes of the edge if and only if it was before or some map given has it, with the value of the last map that has it, else the old one, and all other edges and attributes are as before; on rejection the graph is as before and the error names a genuine cycle through the edge, the same one whenever the graph and the edge are the same |
| `Dag.DirectedAcyclicGraph.TryEdge` | bindings/go/dag/dag.go:173-197 | register, search, roll back: the state afterwards is the old one exactly if a path closes the cycle |
| `Dag.DirectedAcyclicGraph.FindPath` | bindings/go/dag/dag.go:358-377 | the iterative search finds a path with at least one edge exactly if there is one |
| `Dag.DirectedAcyclicGraph.FindSortedPath` | bindings/go/dag/dag.go:383-411 | the search in key order too; the walk over the parents ends, and the path is a function of the vertex and edge sets alone |
| `Dag.LookAtEdges` | bindings/go/dag/dag.go:391-408 | the inner loop keeps the visited set, the stack and the tree of parents consistent, and goes on exactly as the specified search does |
| `Dag.WalkParents` | bindings/go/dag/dag.go:392-402 | following the parents from the last vertex terminates at the start and is the path by which that vertex was first met |
| `Dag.DirectedAcyclicGraph.HasCycle` | bindings/go/dag/dag.go:305-352 | true exactly if the closed graph has a directed cycle; the sequence returned is one, and the same for every call on the same vertices and edges |
| `Dag.DirectedAcyclicGraph.CycleSearch` | bindings/go/dag/dag.go:310-332 | the recursion-stack search: without a find everything below is finished, children first; with one the path closes on itself; both as the specified search has it |
| `Dag.TrimToCycle` | bindings/go/dag/dag.go:337-347 | the path from the first occurrence of the repeated vertex on is a cycle |
| `Dag.DirectedAcyclicGraph.TopologicalSort` | bindings/go/dag/dag.go:216-256 | an error exactly if there is a cycle, naming the one HasCycle reports; otherwise every vertex once, after all its out-neighbours, in an order that depends on the vertex and edge sets alone |
| `Dag.DirectedAcyclicGraph.SortAll` | bindings/go/dag/dag.go:248-255 | the loops compute the finish order of the search |
| `Dag.DirectedAcyclicGraph.SortBelow` | bindings/go/dag/dag.go:229-246 | one visit of the recursive sort equals the visit of the specification |
| `Dag.DirectedAcyclicGraph.Reverse` | bindings/go/dag/dag.go:420-440 | never fails on a valid graph; gives a fresh valid graph with the same vertices and attributes, an edge exactly where the graph has it the other way round, with its attributes, and the degrees swapped |
| `Dag.DirectedAcyclicGraph.AddReversed` | bindings/go/dag/dag.go:430-437 | the loops over all edges end with exactly the reversal and without an error |
| `Dag.DirectedAcyclicGraph.ValidStores` | bindings/go/dag/dag.go:216-270 | every valid graph can be searched for cycles and sorted |
| `GraphState.AddedEdgeGood` | bindings/go/dag/dag.go:160-204 | between different vertices the graph with the edge is valid if and only if AddEdge admits it |
| `GraphState.ApplyKeepsGood` | bindings/go/dag/dag.go:84-204 | every AddVertex, AddEdge and DeleteEdge, rejected or not, keeps the graph closed, acyclic and exactly counted |
| `GraphState.RunStaysGood` | bindings/go/dag/dag.go:84-204 | so does every run of them from the empty graph |
| `GraphState.AppliedIs` | bindings/go/dag/dag.go:84-204 | what AddVertex, AddEdge and DeleteEdge make of the graph, told by its vertices, edges and attributes: what is added or removed, which attribute map wins, and that all else stays |
| `GraphState.MergedLaterWins` | bindings/go/dag/dag.go:199-201 | of several attribute maps the last one that has a key decides |
| `GraphState.RemovedVertexGood` | bindings/go/dag/dag.go:127-141 | a vertex without outgoing edges can be removed without dangling edges if and only if its in-degree is zero |
| `GraphState.TurningStep` | bindings/go/dag/dag.go:430-437 | adding one turned edge to a partial reversal is always admitted and keeps it a partial reversal |
| `GraphState.AllTurned` | bindings/go/dag/dag.go:420-440 | when all edges are turned the state is the reversal |
| `TopoOrder.FinishOrderIsTopological` | bindings/go/dag/dag.go:216-256 | on an acyclic graph the finish order lists every vertex once and children first |
| `TopoOrder.AcyclicIffTopological` | bindings/go/dag/dag.go:216-256 | a closed graph is acyclic if and only if it has a topological order |
| `TopoOrder.VisitSound` | bindings/go/dag/dag.go:229-246 | a visit from a grey path finishes exactly white vertices and keeps children first |
| `Orders.SortedUnique` | bindings/go/dag/dag.go:258-270 | a set has one ascending list, so sorted iteration is deterministic |
| `Orders.SortedKeys` | bindings/go/dag/dag.go:258-270 | sorting the keys gives that list |
| `Graphs.EdgeKeepsAcyclic` | bindings/go/dag/dag.go:160-204 | an edge keeps an acyclic graph acyclic if and only if its end does not reach its start |
| `Graphs.SearchDecides` | bindings/go/dag/dag.go:175-197 | a search in the graph with the edge decides reachability in the graph without it |
| `Graphs.StuckFromCycle` | bindings/go/dag/sync/process.go:106-111 | a set of vertices that all wait for members of the set is downstream of a cycle |
| `Graphs.ConverseAcyclic` | bindings/go/dag/dag.go:420-440 | the converse of an acyclic graph is acyclic |
| `Process.InvStep` | bindings/go/dag/sync/process.go:60-138 | every step of coordinator and workers keeps the whole invariant, in every interleaving |
| `ProcessOutcome.ProcessSafety` | bindings/go/dag/sync/process.go:60-138 | in every run, whatever fails or is cancelled: a vertex starts at most once and only after all predecessors succeeded and reported; the limit holds; a report never finds the channel full; inDegree counts the predecessors not taken |
| `ProcessOutcome.NothingStartsLater` | bindings/go/dag/sync/process.go:86-100 | once the group context has ended, by a failure or a cancellation, at most the one vertex is started whose start the coordinator already waits for; the context stays ended and the first error the first |
| `ProcessOutcome.Halts` | bindings/go/dag/sync/process.go:60-138 | every failure and every cancellation ends the group context, and the first failure is the one recorded |
| `ProcessOutcome.OutcomeMeaningful` | bindings/go/dag/sync/process.go:104-138 | nil only if every vertex succeeded on an acyclic graph; a stall only on a cyclic one and exactly when all vertices not downstream of a cycle are finished; an error names the first vertex that failed; a cancellation is reported only if none failed and not all were through; and with either no worker is left running |
| `ProcessOutcome.UndisturbedOutcome` | bindings/go/dag/sync/process.go:104-138 | without failure or cancellation the result is nil exactly on acyclic graphs and a stall exactly on cyclic ones |
| `ProcessOutcome.StallMeaningful` | bindings/go/dag/sync/process.go:106-111 | the stall report and cycles: taken are exactly the vertices that are not reachable from a cycle |
| `ProcessOutcome.MeasureDecreases` | bindings/go/dag/sync/process.go:89-138 | every step decreases a natural measure |
| `ProcessOutcome.Progress` | bindings/go/dag/sync/process.go:89-138 | until it returned some step other than a cancellation is possible |
| `ProcessOutcome.Starts` | bindings/go/dag/sync/process.go:60-89 | every graph has a first state, so with Progress a complete run |
| `ProcessOutcome.ProcessTerminates` | bindings/go/dag/sync/process.go:60-138 | no run is longer than the measure of its first state |
| `Discover.SectionIsAddEdge` | bindings/go/dag/sync/discover.go:252-266 | the section that registers a neighbour has exactly the effect of AddVertex and AddEdge |
| `Discover.ActionSteps` | bindings/go/dag/sync/discover.go:169-294 | each action of a call moves that call only, keeps done entries and edges, and resolves at most its own key |
| `DiscoverOutcome.InvStep` | bindings/go/dag/sync/discover.go:143-294 | every action keeps the whole invariant: one owner for each key, edges before calls, acyclic graph, states that follow the owner |
| `DiscoverOutcome.RunInv` | bindings/go/dag/sync/discover.go:143-294 | so it holds in every state of every interleaving |
| `DiscoverOutcome.DiscoverySafety` | bindings/go/dag/sync/discover.go:143-294 | each key is resolved at most once, its state only moves forward, the graph stays acyclic |
| `DiscoverHalting.NothingEntersLater` | bindings/go/dag/sync/discover.go:143-294 | an error halts discovery: once a call of a group has failed or its context has ended, no call of the group that has not entered by then ever claims, resolves or adds anything |
| `DiscoverHalting.NothingLeftRunning` | bindings/go/dag/sync/discover.go:143-294 | a call returns nil only when the owner of its key is through, an owner is through only when its calls are back, and once Discover has returned, with or without an error, no call is left running |
| `DiscoverOutcome.StateMovesForward` | bindings/go/dag/sync/discover.go:117-138 | Unknown, Discovering, Discovered, then Completed, or Error from Discovering or Discovered |
| `DiscoverOutcome.DiscoveryComplete` | bindings/go/dag/sync/discover.go:143-294 | if Discover returns nil the vertices are exactly the keys reachable from the roots, the edges exactly the neighbours, all Completed and resolved, no call failed, and no cycle is reachable |
| `DiscoverOutcome.NilMeansWell` | bindings/go/dag/sync/discover.go:187-193 | although a waiter returns nil when the owner failed, nil from Discover means that no call failed |
| `DiscoverOutcome.CompleteHasNoCycle` | bindings/go/dag/sync/discover.go:243-276 | a completed graph admits no cycle of neighbours |
| `DiscoverOutcome.NoDeadlock` | bindings/go/dag/sync/discover.go:180-194 | in every reachable state before the return some action other than a cancellation is possible |
| `DiscoverOutcome.NextAdmitted` | bindings/go/dag/sync/discover.go:252-266 | where no cycle can be reached no edge is rejected |
| `DiscoverOutcome.UndisturbedOutcome` | bindings/go/dag/sync/discover.go:143-165 | without failures and cancellation an error is returned exactly if there is no root or a cycle can be reached |
| `DiscoverOutcome.Starts` | bindings/go/dag/sync/discover.go:143-165 | discovery can start from any roots |
| `DiscoverOutcome.DiscoveryTerminates` | bindings/go/dag/sync/discover.go:143-294 | with finitely many reachable keys the calls of a run take boundedly many actions |
| `Construct.ReversedIsReversal` | bindings/go/constructor/construct.go:142-154 | what Process runs on is the converse of the discovered graph, valid, and its in-degree counters are the numbers of predecessors |
| `ConstructOutcome.DiscoveredByDiscover` | bindings/go/constructor/construct.go:133-174 | a run of Discover that returned nil leaves a graph that construction can start from |
| `ConstructOutcome.Starts` | bindings/go/constructor/construct.go:142-174 | construction can start from any discovered graph |
| `Construct.RefsStored` | bindings/go/constructor/processor.go:103-122 | when a component has been started all it refers to has been stored |
| `Construct.LoadFinds` | bindings/go/constructor/processor.go:103-121 | the load of a reference never misses |
| `Construct.StoreSucceeds` | bindings/go/constructor/processor.go:62-83 | the store of a descriptor finds its own vertex, empty |
| `Construct.InvStep` | bindings/go/constructor/processor.go:87-192 | every step of every worker keeps order and single writes |
| `ConstructOutcome.ConstructionSafety` | bindings/go/constructor/construct.go:142-174 | in every run: "missing dependency" and "already processed" never happen; each descriptor is stored once under its vertex, each component added at most once and only after all it refers to was stored; no stall; nil means that every vertex has its descriptor |
| `ConstructTarget.TargetWhole` | bindings/go/constructor/processor.go:103-192 | in every state of every run: an external version with its descriptor is in the target exactly if external versions are not skipped, a constructed one is unless existing ones are kept, what is in the target is the stored descriptor, skipped external versions never get there; with nil all this holds of every vertex |
| `ConstructTarget.FailedForGood` | bindings/go/constructor/processor.go:103-192 | once a step of a component has failed it is never stored, is not added afterwards, and processing does not end with nil |
| `ConstructTarget.KeptForGood` | bindings/go/constructor/construct.go:209-258 | a version that is kept is stored as it was found and never added |
| `ConstructOutcome.RemainingDecreases` | bindings/go/constructor/processor.go:87-192 | every step of the coordinator or a worker leaves fewer steps possible |
| `ConstructOutcome.ConstructionProgress` | bindings/go/constructor/construct.go:142-174 | until processing has returned some step other than a cancellation is possible: neither a load nor the digest cache blocks for good |
| `ConstructOutcome.ConstructionTerminates` | bindings/go/constructor/construct.go:142-174 | no run of the whole construction takes more steps than a number fixed by the graph and the references |
| `ConstructDigests.FoundExactly` | bindings/go/constructor/processor.go:104-122 | every reference finds the descriptor of the component version it names if and only if no two references whose identities print alike name different ones |
| `ConstructDigests.CoherentStep` | bindings/go/constructor/construct.go:343-449 | every step keeps what is known of cache, target and workers, whatever the references look like |
| `ConstructExactly.CacheExactly` | bindings/go/constructor/construct.go:694-767 | in every run every cached digest is the fresh one if no component that can be started has a reference without a pin whose identity prints like that of a later reference to another component version and which nothing that has to be built before looks up; if and only if, where the policy keeps existing versions, or pins are compared with external components only and can be met together |
| `ConstructExactly.TargetExactly` | bindings/go/constructor/construct.go:209-258 | in every run every constructed component in the target records for each reference its verified pin or the digest of what it names if no component that can be constructed has such a reference, a pin compared with another component version than it names, or a reference without a pin to what such a reference of an unrelated component names; if and only if, where the policy keeps existing versions, or pins are compared with external components only and can be met together |
| `ConstructRuns.Led` | bindings/go/dag/sync/process.go:60-138 | any component that can be started can be brought to its references without a failure, while nothing is looked up that what it waits for does not look up, and components unrelated to it stay at theirs |
| `ConstructExactly.MisprintedFails` | bindings/go/constructor/processor.go:104-122 | a file with two references of different identities that print alike: under every policy both properties fail, and the component itself can be added |
| `ConstructExactly.TwiceNamedFails` | bindings/go/constructor/construct.go:694-767 | a file with two references of one identity: under every policy both properties fail, although the component itself cannot be added |
| `IdentityHashes.CanonicalHashV1` | bindings/go/runtime/identity.go:63-70 | the 64-bit FNV-1 hash of keys and values in the order of the keys |
| `IdentityHashes.AlikeButApart` | bindings/go/runtime/identity.go:59-81 | two identities that print alike and have different hashes |
| `Credentials.SyncedDag.constructor` | bindings/go/credentials/synced_dag.go:23-32 | an empty graph is valid |
| `Credentials.SyncedDag.SetCredentials` | bindings/go/credentials/synced_dag.go:59-67 | stores at an existing vertex only and changes nothing else |
| `Credentials.SyncedDag.GetCredentials` | bindings/go/credentials/synced_dag.go:50-57 | what is stored; a stored nil counts as nothing |
| `Credentials.SyncedDag.GetIdentity` | bindings/go/credentials/synced_dag.go:41-48 | the identity of a vertex |
| `Credentials.SyncedDag.AddEdge` | bindings/go/credentials/synced_dag.go:69-73 | as AddEdge of the graph, with the same account of attributes, so that an edge added as resolution-relevant is followed even if it was cyclic-only; every vertex keeps an identity that prints to its ID |
| `Credentials.RelevantIsFollowed` | bindings/go/credentials/ingest.go:142-144 | that: after such an addition resolution does not skip the edge |
| `Credentials.SyncedDag.AddIdentity` | bindings/go/credentials/synced_dag.go:100-137 | adds the vertex and exactly the edges for the matches in both directions; credentials and other edges stay; a known identity changes nothing |
| `Credentials.SyncedDag.MatchAnyNode` | bindings/go/credentials/synced_dag.go:79-96 | the exact vertex if there is one, else a match, else none matches |
| `Credentials.SyncedDag.ResolveFromGraph` | bindings/go/credentials/resolve_direct.go:15-74 | terminates, and gives what a resolution without stored results gives in the graph it started from, or is cut short because its context has ended; what it stores for others is justified, and its own result is what the vertex it prints to holds afterwards, justified there if it is that vertex's identity |
| `Credentials.SyncedDag.ResolveEdges` | bindings/go/credentials/resolve_direct.go:36-63 | the loop over the edges collects what the specification gathers and fails where it fails, unless the context ends |
| `Credentials.SyncedDag.ResolveChild` | bindings/go/credentials/resolve_direct.go:42-49 | a child hits its vertex exactly and gives what it would have given at the start |
| `Credentials.MergeTyped` | bindings/go/credentials/resolve_direct.go:82-128 | none, the only one, or for several a direct credential that has a field exactly if one of them has it, with the value of the last that does; the errors for a missing scheme and unconvertible credentials |
| `Credentials.LastFieldWins` | bindings/go/credentials/resolve_direct.go:76-122 | each field comes from the last credential that has it |
| `Credentials.LookupMerges` | bindings/go/credentials/resolve_direct.go:28-74 | what a lookup gives: what is stored, or else the merge of what the plugins of the followed edges answer in the order of the listing, or the first error among them |
| `Credentials.DownstreamShrinks` | bindings/go/credentials/resolve_direct.go:36-49 | along an edge less of the acyclic graph is downstream |
| `Credentials.Transparent` | bindings/go/credentials/resolve_direct.go:28-32 | stored results change no lookup of a vertex by its own identity |
| `Credentials.FilledTrans` | bindings/go/credentials/resolve_direct.go:65-73 | justified stores add up over any number of lookups |
| `Credentials.LaterLookupsAgree` | bindings/go/credentials/resolve_direct.go:15-74 | after any number of lookups that store justified results an exact lookup gives what it gave at first |
| `Credentials.WildcardExactly` | bindings/go/credentials/resolve_direct.go:28-63 | whatever the plugins answer, stored results never change what a wildcard request gets at a vertex if and only if the vertex holds credentials or has no edge that is followed |
| `Credentials.AliasExactly` | bindings/go/credentials/resolve_direct.go:15-74 | a request that prints like a vertex without being its identity hits it exactly; whatever the plugins answer, storing its result there changes no lookup by the vertex's own identity if and only if the vertex holds credentials or has no edge that is followed |
| `CredentialAliases.LookalikeChangesConsumer` | bindings/go/credentials/synced_dag.go:79-96 | a consumer, and a request that prints like it, after which the consumer gets what the plugins answered to the request |
| `CredentialAliases.WellFormedHarmless` | bindings/go/runtime/identity.go:75-100 | well formed requests never do that to well formed identities |
| `Credentials.SameAnswersAgree` | bindings/go/credentials/resolve_direct.go:28-49 | it never changes if the plugins asked at the vertex answer both identities alike |
| `Credentials.WildcardSeesStored` | bindings/go/credentials/resolve_direct.go:28-32 | a graph in which that happens |
| `CredentialRuns.RunFilled` | bindings/go/credentials/resolve_direct.go:15-74 | whatever lookups run at the same time, in any interleaving, all they store are the results of exact lookups in the first graph, if no request prints like an unsettled vertex without being its identity |
| `CredentialRuns.InterleavedLookups` | bindings/go/credentials/resolve_direct.go:15-74 | under that condition an exact lookup gives what it would have given alone; a wildcard lookup that, or the result of the vertex itself if that was stored meanwhile |
| `CredentialRuns.RunsAgreeExactly` | bindings/go/credentials/resolve_direct.go:15-74 | the condition is exact: whatever the plugins answer, in every interleaving of lookups of the requests all exact lookups give what they would have given alone if and only if it holds |
| `CredentialRuns.FirstGets` | bindings/go/credentials/resolve_direct.go:15-74 | the interleaved form of a lookup, run before anything is stored, can end with the result of resolution |
| `Ingest.ExtractResolvable` | bindings/go/credentials/ingest.go:179-248 | fails exactly on a faulty credential; else gives the first typed one, or without any the direct properties of all, each from the last that has it, and the rest in order |
| `Ingest.NothingLost` | bindings/go/credentials/ingest.go:179-248 | every other credential but direct ones is contributed or reaches the plugins |
| `Ingest.ProcessDirectCredentials` | bindings/go/credentials/ingest.go:45-101 | each node gets the typed credential of the last consumer of it that has one, else the direct properties of all its consumers, each from the last that gives it, else nothing; left for the plugins, in order, are the consumers with something left and just that; objects in memory are not shared between nodes |
| `Ingest.Accumulate` | bindings/go/credentials/ingest.go:62-71 | merging into one node changes no other node |
| `Ingest.LastTypedWins` | bindings/go/credentials/ingest.go:72-75 | the typed credential is that of the last consumer naming the node with one |
| `Ingest.LastPropertyWins` | bindings/go/credentials/ingest.go:62-71 | each direct property is that of the last consumer contributing it |
| `Escape.Escape` | bindings/go/cel/jsonschema/escape.go:41-77 | the code with its fast path computes the escape of the specification |
| `Escape.SkipRegexCheck` | bindings/go/cel/jsonschema/escape.go:92-114 | invalid only if replacing would fail, skippable only if replacing would change nothing |
| `Escape.NewCharacterFilter` | bindings/go/cel/jsonschema/escape.go:116-131 | the table is true exactly at the given characters |
| `Escape.ReplaceAll` | bindings/go/cel/jsonschema/escape.go:57-76 | replacing match by match is the specified replacement |
| `Escape.DecodesReplaced` | bindings/go/cel/jsonschema/escape.go:41-77 | reading escapes from left to right undoes the replacement |
| `Escape.RoundTrip` | bindings/go/cel/jsonschema/escape.go:41-77 | every accepted identifier, reserved words included, is read back from its escape |
| `Escape.Injective` | bindings/go/cel/jsonschema/escape.go:41-77 | no two identifiers have the same escape |
| `Escape.GivesIdentifier` | bindings/go/cel/jsonschema/escape.go:30-77 | escaping succeeds exactly on the accepted form and gives a CEL identifier that is no reserved word |
| `Escape.EscapeRules` | bindings/go/cel/jsonschema/escape.go:30-77 | the escape spelled out: a reserved word between double underscores, else each special character and double underscore by its name |
| `Escape.ReservedApart` | bindings/go/cel/jsonschema/escape.go:45-47 | the escape of a reserved word is never the escape of anything else |
| `Identities.String` | bindings/go/runtime/identity.go:75-81 | prints the entries in key order, separated by commas |
| `Identities.ParseIdentity` | bindings/go/runtime/identity.go:83-100 | the parse of the specification, errors included |
| `Identities.RoundTripExactly` | bindings/go/runtime/identity.go:75-100 | parsing what String prints gives the identity back if and only if it is not empty and keys and values are trimmed, not empty and free of the separators |
| `Identities.PrintedInjective` | bindings/go/runtime/identity.go:75-81 | well formed identities print differently |
| `Identities.PrintedIs` | bindings/go/runtime/identity.go:75-81 | what is printed is, for an ascending list of all keys, key, equals sign and value of each, joined by commas |
| `Identities.ParsedIs` | bindings/go/runtime/identity.go:85-100 | a text parses if and only if every part between its commas has an equals sign with something other than white space on both sides of the first one; the value of a key is that of the last part with the key, both without white space around them |
| `Identities.PartsWellFormed` | bindings/go/runtime/identity.go:85-100 | whatever parses is well formed |
| `Identities.EscapeGlob` | bindings/go/credentials/pathprefix.go:54-66 | escapes exactly the metacharacters |
| `Identities.GlobRoundTrip` | bindings/go/credentials/pathprefix.go:54-66 | the escape can be undone |
| `Identities.GlobEscapedInjective` | bindings/go/credentials/pathprefix.go:54-66 | no two texts have the same escape |
| `Identities.NegateClassesAsGlob` | bindings/go/runtime/identity_match.go:52-68 | the index loop computes the rewriting |
| `Identities.NegatedIs` | bindings/go/runtime/identity_match.go:52-68 | of a pattern only the circumflexes behind an unquoted opening bracket change, into exclamation marks |
| `Identities.PrefixPatternStays` | bindings/go/credentials/pathprefix.go:43-51 | the rewriting leaves the whole pattern made from a prefix alone |
| `PathPatterns.PrefixMatches` | bindings/go/credentials/pathprefix.go:16-51 | the pattern made from a path prefix, whatever metacharacters it has, matches the prefix and every path below it and nothing else |
| `Identities.PathPrefixToPath` | bindings/go/credentials/pathprefix.go:24-52 | drops the prefix; a set path wins; a non-empty prefix becomes its pattern; all else stays |
| `ReplayBody.RewindableBody.constructor` | bindings/go/http/replayable_body_transport.go:53-53 | nothing read, nothing closed |
| `ReplayBody.RewindableBody.FirstAttempt` | bindings/go/http/replayable_body_transport.go:120-122 | the attempt of the first generation |
| `ReplayBody.RewindableBody.NextAttempt` | bindings/go/http/replayable_body_transport.go:124-136 | refused once released; else rewinds and supersedes the previous attempt |
| `ReplayBody.RewindableBody.RoundTripDone` | bindings/go/http/replayable_body_transport.go:138-147 | marks the return, ends the latest attempt on an error, and releases if due |
| `ReplayBody.RewindableBody.ReleaseLocked` | bindings/go/http/replayable_body_transport.go:149-155 | closes the owner once both conditions hold, and once only |
| `ReplayBody.BodyAttempt.Read` | bindings/go/http/replayable_body_transport.go:162-169 | only the latest attempt reads, and only before the release |
| `ReplayBody.BodyAttempt.Close` | bindings/go/http/replayable_body_transport.go:171-180 | closing the latest attempt may release; closing another does nothing |
| `ReplayBody.RunInv` | bindings/go/http/replayable_body_transport.go:107-180 | in every interleaving the latest attempt has read a prefix of the body from the start |
| `ReplayBody.SupersededIsInert` | bindings/go/http/replayable_body_transport.go:162-180 | a superseded attempt never moves the cursor |
| `ReplayBody.LatestReads` | bindings/go/http/replayable_body_transport.go:162-169 | a read of the latest attempt before the release gives the next bytes, all that are asked for or left |
| `ReplayBody.NextStartsOver` | bindings/go/http/replayable_body_transport.go:124-136 | a new attempt has a new generation and the whole body before it; a failing seek changes nothing |
| `ReplayBody.SupersededForGood` | bindings/go/http/replayable_body_transport.go:124-180 | an attempt from before a new one reads nothing and ends nothing, whatever happens after |
| `ReplayBody.ReleasedIsFinal` | bindings/go/http/replayable_body_transport.go:124-180 | nothing is read or handed out after the release |
| `ReplayBody.OwnerClosed` | bindings/go/http/replayable_body_transport.go:138-155 | the owner is closed at most once, after the return; at once on an error; on success exactly when the latest attempt is closed |
| `VerifiedReader.Reader.constructor` | bindings/go/blob/verified/blob.go:88-94 | nothing read yet |
| `VerifiedReader.Reader.ResolveSize` | bindings/go/blob/verified/blob.go:191-196 | the size of the source is asked once |
| `VerifiedReader.Reader.Verify` | bindings/go/blob/verified/blob.go:178-189 | the verdict of the specification |
| `VerifiedReader.Reader.Read` | bindings/go/blob/verified/blob.go:140-169 | the new state and report of the specification |
| `VerifiedReader.Reader.Close` | bindings/go/blob/verified/blob.go:171-173 | verifies in any case |
| `VerifiedReader.AcceptedExactly` | bindings/go/blob/verified/blob.go:171-189 | Close accepts if and only if what was read is as described, and complete where the size is unknown |
| `VerifiedReader.ReadVerifies` | bindings/go/blob/verified/blob.go:140-169 | a read that reports the end, or completes the size without an error, has verified everything |
| `VerifiedReader.ReportedExactly` | bindings/go/blob/verified/blob.go:140-169 | a read reports what the source reports, the end included, unless there is a mismatch in too much, in a completed size or at the end |
| `VerifiedReader.MismatchIs` | bindings/go/blob/verified/blob.go:178-189 | which of the three mismatches it is |
| `VerifiedReader.MismatchIsFinal` | bindings/go/blob/verified/blob.go:140-189 | once a read reported a mismatch, Close reports one too |
| `VerifiedReader.GenuineNeverWrong` | bindings/go/blob/verified/blob.go:140-189 | content that is as described is never refused |
| `BlobStore.NameRoundTrip` | bindings/go/ctf/filesystem_ctf.go:392-404 | the file name of a valid digest is its algorithm and digits with a dot in between, visible, and leads back to the digest |
| `BlobStore.ReplacedBack` | bindings/go/ctf/filesystem_ctf.go:392-404 | replacing back works exactly for text without a dot of its own |
| `BlobStore.InvStep` | bindings/go/ctf/filesystem_ctf.go:196-212 | every step of every concurrent save keeps the directory faithful |
| `BlobStore.ListedIsFaithful` | bindings/go/ctf/filesystem_ctf.go:255-275 | in every state each listed digest is that of the content of its file |
| `BlobStore.NeverReplaced` | bindings/go/ctf/filesystem_ctf.go:360-378 | a published file is never replaced or changed |
| `BlobStore.SaveEnds` | bindings/go/ctf/filesystem_ctf.go:279-286 | a finished save leaves no staged file unless removing it failed, and success means the blob is there or was deleted since |
| `BlobStore.SucceedsExactly` | bindings/go/ctf/filesystem_ctf.go:279-378 | a save succeeds if and only if none of its own steps failed; that the blob is there already is no failure |
| `BlobStore.ExistingIsEnough` | bindings/go/ctf/filesystem_ctf.go:360-378 | a save that finds its blob there only removes its staged file from then on, and succeeds unless that fails |
| `BlobStore.DeletedIsGone` | bindings/go/ctf/filesystem_ctf.go:215-229 | a deleted blob is gone until another save of it publishes its file |
| `DigestPins.FormatParsed` | bindings/go/repository/pin.go:79-110 | formatting a parsed pin gives its canonical spelling, which parses to the same digest |
| `DigestPins.PartsExactly` | bindings/go/repository/pin.go:61-79 | a text has a normalisation, hash and hexadecimal part exactly if it is put together from them and each has its form |
| `DigestPins.ParsesExactly` | bindings/go/repository/pin.go:68-101 | exactly which digest a pin gives: only SHA-256 and SHA-512 with their number of digits, in any case; slashes for the dots of the normalisation, digits in lower case |
| `DigestPins.OciDigestPin` | bindings/go/repository/pin.go:79-110 | an OCI digest that parses has no normalisation and formats to itself |
| `DigestPins.OciDigestParses` | bindings/go/repository/pin.go:79-94 | an OCI digest parses exactly if its hash is not SHA-384 |
| `OciArtifacts.SameRead` | bindings/go/oci/store_descriptor.go:204-265 | two successful reads from one digest and kind agree, however the store changed |
| `OciArtifacts.SameReadExactly` | bindings/go/oci/repository.go:1125-1170 | two successful reads of one digest agree if and only if the same kind was reported |
| `OciArtifacts.AgreeExactly` | bindings/go/oci/repository.go:1125-1170 | all successful reads of one digest agree, whatever store reports what, if and only if its document cannot be read both as an index and as a manifest |
| `OciArtifacts.ReadHolds` | bindings/go/oci/store_descriptor.go:204-265 | what a read gives is what some document with the digest holds |
| `OciPins.PinnedRead` | bindings/go/oci/pin.go:70-102 | a read through a pinned view is one of the pinned artifact, of the component and version asked for |
| `OciPins.ReadsExactly` | bindings/go/oci/pin.go:70-102 | a read gives a component version if and only if the tag, or for the pinned component the pin, leads to it and it is what was pinned and asked for |
| `OciPins.PinnedExactly` | bindings/go/repository/pin.go:125-170 | exactly what is returned for no pin, an OCI digest pin and a normalised pin: the last only if the version is named and the component version matches |
| `OciPins.ByArtifactExactly` | bindings/go/repository/pin.go:196-236 | exactly when a component version is returned by artifact, and with which pin |
| `OciPins.ReturnsArtifactRead` | bindings/go/repository/pin.go:196-236 | the pin returned names the artifact that holds the descriptor returned, the view is pinned to it, and a tag is resolved only once |
| `OciPins.LaterReadsAgree` | bindings/go/repository/pin.go:196-236 | every later read through the view gives the same component version, wherever the tags moved, unless the pinned document can be read as both kinds |
| `OciPins.PinBindsExactly` | bindings/go/repository/pin.go:196-236 | and that condition is exact: all reads through pins of one artifact agree if and only if its document cannot be read as both kinds with the name and version asked for |
| `OciPins.KindDecides` | bindings/go/oci/repository.go:1143-1167 | a repository, a pin and a later read through it that gives another component version |
| `OciAdding.ReadBack` | bindings/go/oci/store_descriptor.go:44-237 | reading the documents that were added gives the descriptor back, as a manifest and as an index |
| `OciAdding.AddedReadsBack` | bindings/go/oci/repository.go:115-185 | once the tag resolves to what was added it yields the descriptor, and a local blob is found by its reference if and only if that is a digest |
| `OciAdding.Target.AddComponentVersion` | bindings/go/oci/repository.go:115-164 | on every success the tag resolves to the root that was added and reading it gives the added descriptor back; on failure no tag changes; a tag that moved away from the pin is not overwritten |
| `OciAdding.Target.AddDescriptorToStore` | bindings/go/oci/store_descriptor.go:44-199 | pushes layer, config, manifest and, with further manifests, the index, and returns the root |
| `OciAdding.Target.IdentifyLocalBlobs` | bindings/go/oci/repository.go:466-527 | every blob resolved, in order, split into manifests and layers; fails if one is missing |
| `OciAdding.Target.TagIdempotent` | bindings/go/oci/repository.go:174-185 | success exactly if the tag ends up at the digest |
| `OciAdding.Target.CheckPinnedTag` | bindings/go/oci/pin.go:142-159 | refuses exactly a pinned component whose existing tag is elsewhere |
| `OciAdding.Target.Push` | bindings/go/oci/store_descriptor.go:93-99 | a push fails, or stores the bytes under the digest and the store knows the descriptor by it |
| `OciAdding.Target.Tag` | bindings/go/oci/repository.go:174-178 | tagging fails or moves the tag |
| `OciAdding.FirstWith` | bindings/go/oci/repository.go:1182-1194 | a descriptor with the digest, none exactly if there is none |
| `OciAdding.FoundFirst` | bindings/go/oci/repository.go:1182-1194 | it is the first one |
| `OciAdding.BlobDescsExactly` | bindings/go/oci/repository.go:486-513 | all local blobs must resolve, by digest or by tag; each descriptor has the digest and size resolved and the media type of the blob, or without one that resolved |
| `OciAdding.ChosenAre` | bindings/go/oci/repository.go:514-527 | the manifests and the layers are, in order, all descriptors of a manifest type and all others |
| `OciAdding.BlobDescsCover` | bindings/go/oci/repository.go:486-513 | every local blob named by a digest has a descriptor with that digest |

## Left out

- I/O, logging, callbacks, ownership referrers and option plumbing; what they can do to the modelled code is an action or a parameter that may succeed or fail.
- `Clone`, `Roots`, `GetEdges` and string rendering in `dag.go`: copies and listings without an invariant of their own.
- The order index on discovered edges and `CurrentEdges`: with repeated neighbours its slice positions need not fit, so only the edge set is modelled.
- The recovery from panics in `Discover`.
- Resolver, discoverer, processor and plugins are functions or free choices of their results; that a resolved key always has the same neighbours when it succeeds is assumed.
- Contexts: the end of a context reaches the groups below it in a step of its own; deadlines are not modelled.
- Vertices that are neither constructor nor external components, and validation in the constructor other than that of the references' identities: one failing outcome stands for all of it.
- A policy that replaces a component version already in the target goes on as if there were none, and one that refuses it fails; which versions are there, and with what content, is free.
- ConstructExactly.CacheExactly: where existing versions are replaced or refused and a pin names a component that the same run constructs, the condition is sufficient only, since which descriptors can meet the pin depends on what was recorded before.
- ConstructExactly.TargetExactly: likewise.
- ConstructOutcome.ConstructionSafety: repositories are taken to return the component version they were asked for, so that a descriptor's identity is its vertex.
- PathPatterns.PrefixMatches: globs with character classes or nested alternatives are not read; what the glob library makes of the rest is taken from `bindings/go/runtime/identity_match.go:27-38`.
- Digest calculation, normalisation, JSON and descriptor encodings: abstract functions; injectivity or a decoder is required where a theorem needs it.
- `IdentityMatchesURL` and `Match` themselves: matching is an abstract relation for the credential graph.
- Credentials.LaterLookupsAgree: lookups that follow each other; `CredentialRuns` has those at the same time, with reading and storing credentials as one step each, although `getCredentials` and `getIdentity` read a vertex's attribute map without the lock under which `setCredentials` writes it (`bindings/go/credentials/synced_dag.go:34-67`).
- A credential type scheme that itself registers the direct credentials type: `Ingest` takes the two to be apart.
- `resolve_indirect.go`: the outcome is a race between plugins.
- Ingest.ProcessDirectCredentials: whether an identity can be added to the graph is a parameter, and the plugin phase is covered only by the order in which consumers reach it.
- BlobStore.NeverReplaced: the hard-link path of publishing only; the rename fallback may replace a file that is published at the same time and is serialized by its callers.
- OciAdding.Target.AddDescriptorToStore: the pushes of layer and config, concurrent in the code, happen one after the other; they write under the digests of their own bytes.
- OciAdding.Target.AddComponentVersion: versions that make no valid tag; `VersionToOCITag` and reference parsing are left out, and tags are a given function of component and version.
- OciAdding.Target.IdentifyLocalBlobs: a failure to adopt a blob's annotations; only its media type is adopted.
- Maps that Go iterates in random order are iterated in an arbitrary order; `Credentials` fixes the order of a vertex's edges, since merged results depend on it.
- ReplayBody.BodyAttempt.Read: the source does not fail midway, and a failing seek leaves its cursor where it was.
