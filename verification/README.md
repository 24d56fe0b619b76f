# Decision gateway: verified model

The decision gateway is an HTTP reverse proxy. It picks a backend by longest
path prefix, stamps the chosen route on a stack of response writers so that the
access log, the metrics and the trace span can report it, gives every request a
correlation ID, and can swap its whole route table while requests are in
flight. This project models that behaviour in Dafny 4.11 and proves what the
code and its design records promise. `dafny verify dfyconfig.toml` checks it.

## How the model is laid out

| file | what it models |
|---|---|
| `Routing.dfy` | which route lists are accepted, the fault reported, the stored order, and which route a path selects |
| `Router.dfy` | the Router object: validation with the `seen` map, the copy, the stable sort in place, `Match`, `Routes` |
| `WriterStack.dfy` | the meaning of a stack of response writers of any depth and order |
| `ResponseWriters.dfy` | the same writers as linked objects that update their own fields |
| `Proxy.dfy` | the Handler with its prefix-to-proxy map, and the Holder |
| `RoutesAdmin.dfy` | `GET` and `POST /admin/routes` |
| `CorrelationId.dfy` | the UUID text, bit by bit, and the choice of one ID per request |
| `RouteFlags.dfy` | the `--route=PREFIX=>BACKEND` flag |
| `LogLines.dfy` | reading a log sink back line by line |
| `Gateway.dfy` | the running process as a step machine: any number of requests, each lock, copy, swap, stamp, write, log byte and counter update its own step |
| `GatewayInvariant.dfy` | the invariant of that machine and the proof that every step keeps it |
| `GatewayRuns.dfy` | the theorems about all runs and all reachable states |
| `GatewayTraces.dfy` | what a run's steps come to: a backend's writes on the wire and in the log, every request's outcome path by path, the log and the counters step by step |
| `Middleware.dfy` | one request through the objects `run` composes, from the correlation ID down to the server's writer |
| `Wrappers.dfy` | `Option` and `Result` |

Two readings of the code meet in the middle. The sequential reading follows the
Go objects: classes with the same fields, methods proved against specification
functions (`Scan`, `StableSort`, `ProxyMap`, `Do`, `PlanPost`, `Posted`, `Resolve`). The
concurrent reading is the step machine, whose steps use those very functions.
`GatewayTraces.ActsOnOneTable` and `Middleware.Chain.Serve` tie both to
`Gateway.HandlerCalls`: whatever the interleaving, a finished request did to its
writer what its handler does alone over the one table it copied and with what
its backend wrote. What that is, path by path and down to prefixes, schemes,
hosts, statuses and header values, is spelled out by `Gateway.HandledByPath`,
which names none of the functions the code is written with to choose a route,
accept a body or pick a handler.

Representation choices:

- A Go string is a sequence of bytes; one `char` stands for one byte, and `p <= s`
  is `strings.HasPrefix(s, p)`: a literal byte prefix, no path segments.
- `http.ResponseWriter` is a choice among the four writer classes
  (`ResponseWriter` in `ResponseWriters.dfy`) whose links are fixed at
  construction. The theorems about stacks hold for every depth and order.
- The RWMutex and the mutex are modelled by what they exclude: a lock step is
  possible when no conflicting holder exists. That admits every schedule of the
  real locks.
- `Config` carries the three switches that matter: metrics, tracing and
  `--routes-admin`. Without the last, no step installs a table.
- `url.Parse`, `URL.String` and the JSON texts are arbitrary functions in
  `Codec`; a request body arrives decoded, `None` when it does not decode. Only
  the theorems about posting a listing back assume anything about them: that
  parsing the printed form of a listed backend gives that backend back
  (`PrintsBack`).
- A response header map lists values by name, names in canonical form;
  `Header().Set` and `Header().Add` are calls like `WriteHeader` and `Write`, and
  the server's writer copies the map when it commits the status.
- The random source is a value: 16 bytes, or a failure.
- A log line is any text with one line feed, at its end, which is what the JSON
  encoder writes; its bytes go out one step at a time.

Where the code and its comments part ways, the model follows the code:

- The tracing writer neither ignores a second `WriteHeader` nor forwards a route
  stamp (`internal/observability/otel/middleware.go:87-94`), unlike the other two.
  `WriterStack.StatusAgreement` gives the exact condition under which statuses
  agree nevertheless; the access log's writer on top makes it hold in all four
  compositions.
- Boot flags must start with `/` (`cmd/decision-gateway/routes.go:48`), posted
  tables need not. `GatewayRuns.SlashedIffPostsAre` says exactly when every table
  that served has the slash throughout, `GatewayRuns.SlashCanBeLost` that it can
  be lost, and `Routing.SlashlessIsDead` what such a route then does: nothing.
- A successful POST shows the table it reads back (`internal/httpapi/routes_admin.go:75`).
  `GatewayRuns.ReplyIsOwnTable` says exactly when that is its own table, and
  `GatewayRuns.ReplyCanBeLater` schedules two POSTs so that it is not.
- A backend's reply may carry a correlation ID of its own; `GatewayRuns.ResponseCarriesID`
  says which value comes first.
- "In sync by construction" (`docs/architecture/decisions/0007-prometheus-metrics-endpoint.md:33`)
  holds of the labels of each request, and of the totals once nothing is in
  flight; in between they differ by exactly the requests on their way.
- `Handler.ServeHTTP` sets the correlation header on the inbound request's
  own header map, which the access log's request shares; the model has one
  header object for both.

## Model

| member | source | states |
|---|---|---|
| Routing.ValidateReportsFirstFault | internal/gateway/router.go:50-66 | validation passes exactly on non-empty lists of non-empty, distinct prefixes with backends; otherwise it returns a fault exactly when that fault names the least faulty entry, with its kind, and for a duplicate the only earlier entry with the prefix |
| Routing.FaultIsDetermined | internal/gateway/router.go:55-65 | no list has two reportable faults, and an acceptable list has none |
| Routing.FaultFreeIsDistinct | internal/gateway/router.go:54-66 | the entries already passed have pairwise distinct, sound prefixes |
| Routing.StableSortCorrect | internal/gateway/router.go:68-73 | the stored table is length-descending, a permutation of the input, and keeps input order within each length |
| Routing.DescendingDetermined | internal/gateway/router.go:70-73 | a descending order and the order within each length leave only one sequence |
| Routing.StableSortDetermined | internal/gateway/router.go:70-73 | a sequence is a stable length-descending sort of the input exactly when it is the stored table, so the sorting algorithm cannot be observed |
| Routing.StoredInInputOrder | internal/gateway/router.go:71 | two routes with prefixes of one length are stored in the order they came |
| Routing.SortedIsFixed | internal/gateway/router.go:68-95 | sorting changes a table exactly when it was not descending; sorting twice is sorting once |
| Routing.DistinctIsNoClash | internal/gateway/router.go:62-64 | distinctness of prefixes is a property of the multiset of routes alone |
| Routing.AcceptanceIgnoresOrder | internal/gateway/router.go:50-66 | two permutations of a list are both accepted or both rejected |
| Routing.WinnerUnique | internal/gateway/router.go:15-18 | with distinct prefixes a path has at most one longest matching route: two prefixes of one path that have equal length are equal |
| Routing.ScanWins | internal/gateway/router.go:79-86 | the first hit in a descending table is a longest match, and no hit means no configured prefix matches |
| Routing.WinnerIgnoresOrder | internal/gateway/router.go:15-18 | the declarative longest match depends on the set of routes only |
| Routing.FirstMatchIsLongestPrefix | internal/gateway/router.go:50-86 | on the stored table, `Match` returns a result exactly when that result is the longest configured prefix of the path, or nothing when none matches |
| Routing.LongestPrefixWins | internal/gateway/router.go:79-86 | spelled out on the accepted list: the path misses exactly when it starts with no listed prefix, and selects a route exactly when its prefix starts the path and is no shorter than any other that does |
| Routing.StoredTableSelects | internal/gateway/router.go:79-86 | the same of any descending table with distinct prefixes |
| Routing.OrderIndependence | internal/gateway/router.go:50-86 | permuting an accepted list changes the route of no path |
| Routing.AddedRouteLocality | internal/gateway/router.go:50-86 | adding a route with a new prefix anywhere changes a path's route exactly when the prefix matches it and the old winner was absent or shorter, and then to the new route |
| Routing.LongerPathLongerPrefix | internal/gateway/router.go:79-86 | extending a path never loses its route, and the new winner's prefix extends the old one |
| Routing.SlashlessIsDead | internal/gateway/router.go:79-86 | in any table, leaving out every route without a leading slash changes the route of no path that starts with one, and none of them ever wins it |
| Router.SortStable | internal/gateway/router.go:68-73 | the in-place sort leaves the array holding the stable length-descending sort of what it held |
| Router.SiftLeft | internal/gateway/router.go:70-73 | one entry moves left over strictly shorter prefixes only, and the rest of the array is untouched |
| Router.InsertAt | internal/gateway/router.go:70-73 | the new entry lands after everything at least as long and before everything shorter |
| Router.Router.Sorted | internal/gateway/router.go:68-74 | the router owns a fresh array holding the sorted copy, again an acceptable table |
| Router.NewRouter | internal/gateway/router.go:50-75 | success exactly on a non-empty list with non-empty, pairwise different prefixes and no nil backend, with a fresh router over the stable sort; otherwise the first fault, found through the `seen` map; the caller's slice is not written |
| Router.Router.Match | internal/gateway/router.go:79-86 | none exactly when the path starts with no listed prefix; otherwise a listed route whose prefix starts the path and is the longest of those that do |
| Router.Router.Routes | internal/gateway/router.go:91-95 | a fresh copy of the stored table, so the caller cannot change the router |
| Proxy.TwoIndexesAgree | internal/proxy/proxy.go:83-87 | the map's keys are exactly the table's prefixes, and every entry targets its route's backend exactly when no prefix is listed with two backends |
| Proxy.LastRouteWins | internal/proxy/proxy.go:84-87 | the fill loop leaves for a prefix the backend of the last route that has it |
| Proxy.LookupFollowsMatch | internal/proxy/proxy.go:101-117 | after a successful match the map lookup is present and targets the matched route's backend |
| Proxy.StoredIsWellFormed | internal/gateway/router.go:54-74 | the table of an accepted list is itself acceptable, descending and backed throughout, and its backends have scheme and host exactly when the list's have |
| Proxy.New | internal/proxy/proxy.go:79-94 | fails exactly without a router; otherwise the handler keeps that router and the map built from its table |
| Proxy.Handler.ServeHTTP | internal/proxy/proxy.go:100-118 | on a hit stamps the winning prefix, sets the correlation header from the context, and dispatches to that route's backend; on a miss writes the 404 and touches no header |
| Proxy.NotFound | internal/proxy/proxy.go:209-213 | the JSON content type, then the 404, then the fixed body, through any stack of writers |
| Proxy.NotFoundCalls | internal/proxy/proxy.go:209-213 | whatever the header map held, the wire gets status 404, that map with the JSON content type, the fixed body, and no route stamp |
| Proxy.Holder.ServeHTTP | internal/proxy/holder.go:43-48 | serves from the handler current at the call and leaves it in place |
| Proxy.Holder.Replace | internal/proxy/holder.go:53-62 | fails exactly without a router and then keeps the old handler; otherwise a fresh handler over the router's table is current |
| Proxy.Holder.Routes | internal/proxy/holder.go:66-71 | a fresh copy of the current table |
| Proxy.NewHolder | internal/proxy/holder.go:34-40 | fails exactly without a router; otherwise holds the handler built from it |
| RoutesAdmin.ToRoutesMeaning | internal/httpapi/routes_admin.go:57-65 | the loop yields a route list exactly when that list has the posted prefixes in order and every backend parses with a scheme and a host |
| RoutesAdmin.InstallsExactlyValidBodies | internal/httpapi/routes_admin.go:47-70 | a POST installs a list exactly when the body decodes, is not empty, denotes that list and its prefixes are non-empty and distinct |
| RoutesAdmin.InstalledIffValid | internal/httpapi/routes_admin.go:47-70 | a body is installed exactly when it has an entry, its prefixes are non-empty and pairwise different, and every backend parses to a URL with a non-empty scheme and a non-empty host; the table is the stable sort of what it lists |
| RoutesAdmin.RefusedBackend | internal/httpapi/routes_admin.go:57-62 | a backend is refused exactly when it is the first that does not parse, or has no scheme, or has no host |
| RoutesAdmin.ToRoutesRefusal | internal/httpapi/routes_admin.go:57-64 | the loop fails with a text exactly when that text is the backend of the least entry that does not parse or lacks a scheme or a host |
| RoutesAdmin.RefusesExactly | internal/httpapi/routes_admin.go:48-70 | a POST is refused for a reason exactly when that reason applies: the body does not decode, is empty, has that first unusable backend, or denotes a list whose first fault is the one reported |
| RoutesAdmin.InstalledIsStored | internal/httpapi/routes_admin.go:57-74 | what a POST installs is a well-formed table with an agreeing map, every backend with a scheme and a host |
| RoutesAdmin.RepostIsIdentity | internal/httpapi/routes_admin.go:57-75 | posting back the listing of any handler in service is accepted and builds the identical sequence and map |
| RoutesAdmin.RepostKeeps | internal/httpapi/routes_admin.go:47-76 | such a POST leaves what the gateway serves as it was |
| RoutesAdmin.PostedIsStored | internal/httpapi/routes_admin.go:47-76 | whatever is posted, a sound handler in service is followed by a sound one |
| RoutesAdmin.SlashFollowsBody | internal/httpapi/routes_admin.go:57-70 | for every installed body, the table has the leading slash throughout exactly when the body has |
| RoutesAdmin.SlashIsNotEnforced | internal/httpapi/routes_admin.go:57-70 | a body that breaks the slash rule of the boot flags and is installed all the same |
| RoutesAdmin.CollectRoutes | internal/httpapi/routes_admin.go:57-65 | the loop returns every route in order, each denoting its entry, or the text of the first unusable backend |
| RoutesAdmin.DecodeRouter | internal/httpapi/routes_admin.go:48-70 | the validation pipeline fails with a reason that applies to the body, or builds a fresh router over the planned table |
| RoutesAdmin.SwapAndReply | internal/httpapi/routes_admin.go:71-75 | the 500 branch cannot be reached; the new table is current and the reply lists it |
| RoutesAdmin.PostRoutes | internal/httpapi/routes_admin.go:47-76 | a body valid in that sense is installed and listed; any other leaves the very same handler in place and is answered 400; what serves afterwards is a valid handler either way |
| RoutesAdmin.WriteRoutes | internal/httpapi/routes_admin.go:78-85 | the reply is the JSON content type and one body listing every route of the table in order, backends printed, with no explicit status |
| RoutesAdmin.WriteError | internal/httpapi/routes_admin.go:87-91 | an error reply is the JSON content type, the status, then one body |
| RoutesAdmin.ErrorCalls | internal/httpapi/routes_admin.go:87-91 | whatever the header map held, the wire gets the given status, that map with the JSON content type, and the error text |
| RoutesAdmin.TableCalls | internal/httpapi/routes_admin.go:78-85 | a listing goes out with the implicit 200, the JSON content type and the text of the whole table |
| RoutesAdmin.NotAllowedCalls | internal/httpapi/routes_admin.go:31-34 | the refusal of another method goes out as 405 with the allowed methods and the JSON content type |
| RoutesAdmin.ServeAdmin | internal/httpapi/routes_admin.go:25-35 | only a valid POST changes the handler; GET lists, other methods get 405 with the Allow field |
| WriterStack.StatusAgreement | internal/observability/otel/middleware.go:87-90 | for every stack and call sequence the server commits the first status, and all recorders agree with it exactly when the top layer guards `WriteHeader`, there is no layer, or the last header code equals the one sent |
| WriterStack.UnguardedDisagrees | internal/observability/otel/middleware.go:87-90 | two header writes on the tracing writer alone leave it with a status the wire does not have |
| WriterStack.GuardedRun | internal/middleware/accesslog.go:118-138 | under a guarding top layer at most one header gets through, and every layer ends with the status on the wire |
| WriterStack.BaseCommitsFirst | internal/middleware/accesslog.go:99-103 | the server's writer commits exactly one status: the first code or body write that reaches it, 200 if none does, never changed afterwards |
| WriterStack.UnguardedRun | internal/observability/otel/middleware.go:81-94 | the tracing writer ends with the last header code and hands everything but stamps down |
| WriterStack.BodyReachesServer | internal/middleware/accesslog.go:132-138 | body bytes reach the server unchanged and in order through any stack |
| WriterStack.FieldsReachServer | internal/middleware/correlationid.go:57-59 | through any stack, the header map on the wire is the map as edited up to the first header or body write; later edits are lost |
| WriterStack.FirstValue | internal/middleware/correlationid.go:57 | the first value of a field present at the start is the one last Set before the commit; added values follow it |
| WriterStack.SentValues | internal/middleware/correlationid.go:57 | what goes out under a name is the value last Set, followed by every value added since, in order |
| WriterStack.FirstStatusMeaning | internal/middleware/accesslog.go:100-104 | the status of a call sequence is the code of its first header or body write if that is a header, and 200 otherwise |
| WriterStack.LastHeaderMeaning | internal/observability/otel/middleware.go:87-90 | the tracing writer's status is the last header code, 200 without one |
| WriterStack.LastStampMeaning | internal/middleware/accesslog.go:111-116 | the recorded route is the last one stamped, empty without one |
| WriterStack.BodiesConcatenate | internal/middleware/accesslog.go:132-138 | the body of two call sequences in a row is the two bodies in a row |
| WriterStack.ReachMeaning | docs/architecture/decisions/0009-route-stamp-chain.md:23-26 | a layer is within reach of a stamp exactly when every layer above it forwards |
| WriterStack.StampReach | internal/middleware/accesslog.go:111-116 | one stamp sets exactly the layers down to and including the first that does not forward, and changes no status |
| WriterStack.RunRoute | internal/observability/metrics/metrics.go:100-105 | after any call sequence a layer within reach carries the last stamp, any other layer none |
| WriterStack.CompositionsAgree | cmd/decision-gateway/main.go:157-164 | in all four compositions and after any calls, the log, the metric and the span hold the status and the route that the wire and the last stamp have, and fields and body arrive |
| ResponseWriters.ResponseWriter.WriteHeader | internal/middleware/accesslog.go:118-125 | through the interface, any stack of objects changes as the stack semantics says |
| ResponseWriters.ResponseWriter.Write | internal/middleware/accesslog.go:132-138 | the same for body writes; the tracing writer's is the promoted one |
| ResponseWriters.ResponseWriter.SetMatchedRoute | internal/middleware/accesslog.go:23-25 | the same for stamps, on the writers that implement the interface |
| ResponseWriters.ResponseWriter.SetField | internal/middleware/correlationid.go:57 | every wrapper promotes the embedded writer's header map: a Set reaches the server's |
| ResponseWriters.ResponseWriter.AddField | internal/middleware/accesslog.go:104-109 | and so does an Add, as the reverse proxy uses it for a backend's fields |
| ResponseWriters.StatusRecorder.SetMatchedRoute | internal/middleware/accesslog.go:111-116 | records the stamp and forwards it when the writer below can take it |
| ResponseWriters.StatusRecorder.WriteHeader | internal/middleware/accesslog.go:118-125 | keeps the first code and ignores later ones, all the way down |
| ResponseWriters.StatusRecorder.Write | internal/middleware/accesslog.go:132-138 | a write closes the header and passes the bytes on |
| ResponseWriters.MetricsWriter.WriteHeader | internal/observability/metrics/metrics.go:80-87 | keeps the first code and ignores later ones |
| ResponseWriters.MetricsWriter.Write | internal/observability/metrics/metrics.go:89-94 | a write closes the header and passes the bytes on |
| ResponseWriters.MetricsWriter.SetMatchedRoute | internal/observability/metrics/metrics.go:100-105 | records the stamp and forwards it |
| ResponseWriters.SpanWriter.WriteHeader | internal/observability/otel/middleware.go:87-90 | overwrites the recorded code every time and forwards it |
| ResponseWriters.SpanWriter.SetMatchedRoute | internal/observability/otel/middleware.go:92-94 | records the stamp and stops it; no other object changes |
| CorrelationId.HexRoundTrip | internal/middleware/correlationid.go:92-100 | hexadecimal text decodes to the bytes it encodes |
| CorrelationId.MaskVersion | internal/middleware/correlationid.go:89 | the bit masks put version 4 over the four free low bits |
| CorrelationId.MaskVariant | internal/middleware/correlationid.go:90 | the bit masks put the RFC 4122 variant over the six free low bits |
| CorrelationId.HexEncode | internal/middleware/correlationid.go:92-100 | encoding a group writes its digits at its place in the buffer and nothing else |
| CorrelationId.Format | internal/middleware/correlationid.go:91-101 | the five groups and four hyphens written in place make the 8-4-4-4-12 text of the bytes |
| CorrelationId.NewUUID | internal/middleware/correlationid.go:78-102 | the sentinel when the random source fails; otherwise a lowercase version 4 UUID that decodes to the drawn bytes at every position but 6 and 8 |
| CorrelationId.TextDecodes | internal/middleware/correlationid.go:91-101 | the text form loses nothing: it decodes to all 16 bytes |
| CorrelationId.TextAt | internal/middleware/correlationid.go:91-101 | every byte is shown at its own place in the 8-4-4-4-12 text, high digit first |
| CorrelationId.DigitTable | internal/middleware/correlationid.go:92-100 | digits are those of `0123456789abcdef`, in that order |
| CorrelationId.MintedKeepsBytes | internal/middleware/correlationid.go:89-101 | a minted text decodes to the drawn bytes, except that bytes 6 and 8 carry version and variant over their free bits |
| CorrelationId.MintedIsVersion4 | internal/middleware/correlationid.go:89-101 | every minted text has the version 4 shape of RFC 4122 and decodes to the masked bytes |
| CorrelationId.CollisionsAreFreeBitCollisions | internal/middleware/correlationid.go:89-101 | two draws give one text exactly when they agree on the 122 free bits |
| CorrelationId.SentinelIsZeroDraw | internal/middleware/correlationid.go:80-88 | the failure sentinel is the text of the all-zero draw, itself a version 4 UUID |
| CorrelationId.ResolvedIsNotBlank | internal/middleware/correlationid.go:53-56 | the resolved ID is never blank: the inbound value as it came, or a version 4 UUID |
| RouteFlags.SplitIsUniqueJoin | cmd/decision-gateway/routes.go:69-75 | a spec splits into a pair exactly when it is their join and the first part holds no arrow, even if it ends in `=`; it fails to split exactly when it has no arrow |
| RouteFlags.ParseRouteFlags | cmd/decision-gateway/routes.go:35-64 | success exactly on a non-empty list of specs that split at their first arrow into a prefix with a leading slash and a text that parses to a URL with scheme and host; otherwise the error names what is wrong with the first bad spec |
| RouteFlags.SpecIsJudged | cmd/decision-gateway/routes.go:41-61 | a spec is accepted exactly when it is good, and refused with an error exactly when that is its fault: no arrow, empty prefix, no slash, no URL, no scheme, no host, in that order |
| RouteFlags.FailsExactly | cmd/decision-gateway/routes.go:35-64 | parsing fails with an error exactly when there are no specs, or that is the fault of a spec that only good ones precede |
| RouteFlags.ArrowMeans | cmd/decision-gateway/routes.go:69-75 | a text holds an arrow exactly when it is two texts joined by one |
| RouteFlags.ParsesDetermined | cmd/decision-gateway/routes.go:35-64 | the outcome of parsing is unique |
| RouteFlags.ParsedRoutes | cmd/decision-gateway/routes.go:35-64 | each route reads back as its spec, starts with a slash, and its backend has a scheme and a host, so the router can only refuse the list for a duplicate prefix |
| RouteFlags.RouteFlagList.Set | cmd/decision-gateway/routes.go:24-27 | appends the value |
| LogLines.LinesReadBack | internal/middleware/accesslog.go:74-76 | whole lines followed by a partial one split back into exactly those |
| GatewayInvariant.InitialInv | cmd/decision-gateway/main.go:117-132 | the invariant holds when the process starts serving |
| GatewayInvariant.InvStep | internal/proxy/holder.go:43-71 | every step of every request keeps the whole invariant: history, routing, locks, log, labels and ledger |
| GatewayInvariant.LocalStable | internal/proxy/holder.go:53-62 | installing another table falsifies nothing a request in flight relies on |
| GatewayInvariant.LocalStep | internal/proxy/proxy.go:100-118 | a request's own step keeps it on the one table it copied and on the ID it arrived with |
| GatewayInvariant.ExclusiveStep | internal/proxy/holder.go:44-60 | a writer stays alone in the holder's lock and a log writer in the mutex |
| GatewayInvariant.UntornStep | internal/middleware/accesslog.go:74-76 | the sink stays whole lines followed by the lock holder's partial line |
| GatewayInvariant.LedgerStep | internal/observability/metrics/metrics.go:58-71 | the per-label balance of log, counter and histogram survives every step |
| GatewayInvariant.LabelledStep | internal/observability/metrics/metrics.go:52-57 | every recorded route stays empty or a prefix of some installed table |
| GatewayInvariant.LabelsAgree | docs/architecture/decisions/0007-prometheus-metrics-endpoint.md:33 | the metrics layer's own label equals that of the log entry |
| GatewayRuns.BootIsInitial | cmd/decision-gateway/main.go:75-132 | flags that parse, with no prefix given twice, boot into an initial state |
| GatewayRuns.RunInv | internal/proxy/holder.go:43-71 | the invariant holds in every state of every run |
| GatewayRuns.WasCurrent | internal/proxy/holder.go:53-62 | a table whose version lies between those of two states was current at a state between them |
| GatewayRuns.LinearizableDispatch | internal/proxy/holder.go:43-48 | in every interleaving a dispatched request goes to the backend of a listed route whose prefix starts its path and is the longest that does, in one table that was current between its arrival and its dispatch, with its resolved ID as header |
| GatewayRuns.LinearizableMiss | internal/proxy/proxy.go:101-105 | every 404 miss is justified by a table in force after arrival none of whose prefixes starts the path, and is logged as 404 with no route |
| GatewayRuns.LinearizableListing | internal/httpapi/routes_admin.go:27-28 | a GET lists a table that was in force at a state between its arrival and its reply |
| GatewayRuns.SnapshotAfterReplace | internal/proxy/holder.go:53-71 | a copy taken after a swap is of that table or a later one |
| GatewayRuns.NonOverlappingInOrder | internal/proxy/holder.go:43-71 | a request that arrives after another copied its table never copies an older one |
| GatewayRuns.LastSwapWins | internal/proxy/holder.go:58-60 | the table in force is that of the last swap, whenever it was built |
| GatewayRuns.OnlySwapChangesTable | internal/proxy/holder.go:58-60 | no other step changes the table or the history |
| GatewayRuns.SwapsAreValidPosts | internal/httpapi/routes_admin.go:47-71 | only a POST to the mounted endpoint with a fully valid body ever swaps, and it installs the stable sort of what it lists |
| GatewayRuns.FixedWithoutAdmin | cmd/decision-gateway/main.go:117-132 | without `--routes-admin` the boot table serves in every state of every run |
| GatewayRuns.PostOutcome | internal/httpapi/routes_admin.go:47-76 | a finished POST answered 200 exactly when its body was valid, installed it, and showed a table at or after its own swap; otherwise it answered 400 for a reason that applies to the body, and installed nothing; never 500 |
| GatewayRuns.ReplyIsOwnTable | internal/httpapi/routes_admin.go:71-75 | a POST's reply shows its own table exactly when no other POST swapped between its swap and the copy it replies from |
| GatewayRuns.ReplyCanBeLater | internal/httpapi/routes_admin.go:71-75 | wherever no lock is held, two valid POSTs can be scheduled so that the first replies with the second's table |
| GatewayRuns.RepostChangesNothing | internal/httpapi/routes_admin.go:57-75 | in every reachable state, the swap of a POST of the listing in force leaves the handler identical |
| GatewayRuns.RepostIsAccepted | internal/httpapi/routes_admin.go:57-70 | in every reachable state, the listing in force is a valid body and builds the handler in force |
| GatewayRuns.SlashedIffPostsAre | cmd/decision-gateway/routes.go:48-50 | from a boot by flags, every table that ever served starts all its prefixes with a slash exactly when every body swapped in so far does |
| GatewayRuns.SlashCanBeLost | internal/httpapi/routes_admin.go:57-71 | wherever no lock is held, one valid POST without the slash can put such a table in service |
| GatewayRuns.ServedTablesAreSound | internal/proxy/proxy.go:79-118 | every table that ever served is non-empty, length-descending, free of empty and repeated prefixes, and each backend has a scheme and a host and is what the map holds for its prefix; a stamped request can always be dispatched |
| GatewayRuns.SwapIsAlone | internal/proxy/holder.go:44-60 | no request may read or swap the handler while another may swap it |
| GatewayRuns.LogWriterIsAlone | internal/middleware/accesslog.go:74-76 | only one request at a time may write log bytes |
| GatewayRuns.EverythingAgrees | internal/middleware/accesslog.go:47-54 | the entry has the request's method and path; entry, every writer layer, metric label and wire agree on status and route; entry, context and outbound header on the non-blank ID; fields and body of the wire are those of the calls made |
| GatewayRuns.ResponseCarriesID | internal/middleware/correlationid.go:45-47 | the first X-Correlation-Id on the response is the logged ID unless a backend or probe Sets that field; the gateway's own replies carry exactly that ID, the JSON content type, and on a 405 the methods |
| GatewayRuns.RouteLoggedIffDispatched | internal/observability/metrics/metrics.go:52-57 | a logged route is non-empty exactly when the request went to a backend |
| GatewayRuns.Conservation | internal/observability/metrics/metrics.go:63-69 | in every reachable state, per label: entries = counter + logged but uncounted, counter = observations + counted but unobserved; one entry per recorded request; log and counter agree on a label exactly when nothing waits to be counted; every label's route is empty or was configured |
| GatewayRuns.LogLeadsMetrics | internal/observability/metrics/metrics.go:62-69 | from every reachable state in which an entry is complete, the next one has the log ahead of the counter for its label |
| GatewayRuns.QuietAgreement | docs/architecture/decisions/0007-prometheus-metrics-endpoint.md:33 | when nothing is in flight, log, counter and histogram agree per label and the sink reads back as one line per finished request |
| GatewayRuns.LogNeverTears | internal/middleware/accesslog.go:34-37 | in every reachable state the complete lines in the sink are the logged entries, plus at most the lock holder's finished line |
| GatewayRuns.AbortLeavesNoTrace | internal/middleware/accesslog.go:43-50 | in every run, a request that aborted never had an entry nor installed a table, no step of its ever changed sink, log, metrics or table, and after the abort it makes no step and stays as it is |
| GatewayRuns.NoDeadlock | internal/proxy/holder.go:43-62 | while a request is unfinished, some request can make a step |
| GatewayTraces.BackendReachesClient | internal/proxy/proxy.go:117 | over every run: what a dispatched request's backend emitted is what the client gets, status, fields and body, and the log entry has that status and the route dispatched on |
| GatewayTraces.ProbeReachesClient | cmd/decision-gateway/main.go:141-145 | over every run: `/healthz`, `/readyz`, and `/metrics` with metrics on, answer with what they emitted, read no table and reach no backend |
| GatewayTraces.ActsOnOneTable | internal/proxy/holder.go:43-48 | over every run: a finished request did to its writer what its handler does alone over the one table it copied with exactly what was emitted for it, and reached that table's backend; without a copy it depends on no table |
| GatewayTraces.FinishedByPath | cmd/decision-gateway/main.go:140-149 | over every run, path by path: probes answer for themselves; the mounted endpoint lists, refuses for a reason that applies, or answers 405; any other path gets the 404 or the stamp and backend of the longest configured prefix, from a table in force between arrival and end |
| GatewayTraces.OtherMethodsRefused | internal/httpapi/routes_admin.go:31-34 | any other method on the mounted endpoint gets 405, the Allow and content-type fields and the error text, and swaps nothing |
| GatewayTraces.LogFollowsSteps | internal/middleware/accesslog.go:47-76 | the log grows by exactly one entry when a request gives the mutex back and at no other step: its own method, path, status, route and ID, with the line it encoded |
| GatewayTraces.CounterFollowsSteps | internal/observability/metrics/metrics.go:63-68 | the counter of the request's method, route and status grows by one at its own step, and nothing else ever changes a counter |
| GatewayTraces.DurationsFollowSteps | internal/observability/metrics/metrics.go:63-69 | the same of the histogram count |
| GatewayTraces.OutsideIsFree | internal/proxy/proxy.go:117 | a request may arrive at any time; a backend may write anything but a stamp, return, or abort |
| GatewayTraces.LocksExclude | internal/proxy/holder.go:44-60 | readers share the holder's lock and wait for a writer only, a writer waits for everybody, the log's mutex has one owner |
| Middleware.ChainAgrees | cmd/decision-gateway/main.go:151-164 | what each middleware reads off its own wrapper is the one status and route of the response, in all four compositions |
| Middleware.AloneByPath | cmd/decision-gateway/main.go:140-149 | what a request that runs alone gets and leaves behind, path by path, over any table in service |
| Gateway.HandledIsByPath | cmd/decision-gateway/main.go:140-149 | what the chosen handler does is what the path calls for: probe, admin endpoint, or the longest configured prefix |
| Gateway.InstallsMeans | internal/httpapi/routes_admin.go:47-71 | a request installs a table exactly when it is a POST to the mounted endpoint with a valid body, and then the stable sort of what the body lists |
| Middleware.Chain.Proxied | internal/proxy/holder.go:43-48 | a proxied request writes the stamp and then the backend's calls, or the 404 |
| Middleware.Chain.Mux | cmd/decision-gateway/main.go:140-149 | `/healthz`, `/readyz`, and `/metrics` exactly with metrics on, get their own answer and no backend; `/admin/routes` gets the endpoint exactly when mounted; every other path is matched against the table; only a valid POST changes it |
| Middleware.Chain.AccessLogged | internal/middleware/accesslog.go:43-77 | exactly one entry is appended, read off the log's own wrapper after the handler |
| Middleware.Chain.Measured | internal/observability/metrics/metrics.go:58-71 | counter and histogram each move by one, for the label on the metrics wrapper |
| Middleware.Chain.Traced | internal/observability/otel/middleware.go:41-72 | the span's status, route and error mark are read off the tracing wrapper after the inner chain returned |
| Middleware.Chain.Correlate | internal/middleware/correlationid.go:51-61 | the non-blank ID, inbound or minted, goes to the context and onto the response header |
| Middleware.Chain.Respond | cmd/decision-gateway/main.go:157-164 | below CorrelationID: one log entry, one count, one span and one response with one status and route |
| Middleware.Chain.Serve | cmd/decision-gateway/main.go:151-164 | one request end to end, and ready for the next: log entry, metric label, span, status, fields and body, backend and outbound header all follow from the calls made over the table it met, with one ID and one status; only a valid POST puts another handler in service, and the holder stays valid; the span is failed exactly from status 500 on and has the route exactly when there is one; calls and target are those of the path |

## Left out

- ResponseWriters.ResponseWriter.WriteHeader: final statuses 200 to 999 only; informational 1xx headers, and net/http's body restrictions for HEAD, 204 and 304, are not modelled.
- Middleware.Chain.Correlate: the context is the ID handed on, not a Go context chain.
- CorrelationId.NewUUID: a short read that reports no error is not modelled; the random source delivers 16 bytes or fails.
- Middleware.Chain.Serve: the durations, the span's identifiers, timing and events, and the trace IDs on the log entry are not modelled.
- RouteFlags.RouteFlagList.Set: `String`, the join with commas, is left out.
- WriterStack.FieldsReachServer: fields that net/http adds itself (Date, Content-Length, a sniffed Content-Type) and trailers are not modelled.
- RoutesAdmin.DecodeRouter: error texts are told apart by their reason, not spelled out.
- The nil-holder branch of `RoutesAdmin`: `run` only mounts the endpoint with a holder.
- JSON encoding and decoding, `url.Parse` and `URL.String`: library code, taken as functions.
- `httputil.ReverseProxy`, the transports, timeouts and pool settings: a proxy is represented by the backend it targets, and what a backend answers is any sequence of writes.
- The mutation of a shared `*url.URL`: nothing in the repository writes through it, so backends are immutable values.
- Prometheus registries, buckets and text format: counter and histogram are maps from labels to counts.
- OpenTelemetry start-up, propagation and the instrumented transport.
- ServeMux path cleaning, redirects and method handling beyond exact paths before the `/` fallback.
- `Healthz`, `Readyz` and the readiness flag: their replies are arbitrary writes here.
- The boot event, the listener, signal handling and shutdown.
- Fairness and writer preference of the RWMutex: every schedule that excludes conflicting holders is covered, so no bound on waiting is claimed.
- Without `--routes-admin` the code has no Holder; the machine still takes the uncontended lock steps around a handler that never changes.
