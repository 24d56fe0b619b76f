/**
 The running gateway as a step machine. Any number of requests are in flight;
 each lock, copy, unlock, build, swap, match, stamp, dispatch, write, log byte
 and counter update is a step of its own, and steps interleave freely.

 A request passes the middleware chain of `cmd/decision-gateway/main.go`:
 correlation ID, tracing and metrics when enabled, access log, then the mux.
 */
module Gateway {
  import opened Wrappers
  import opened Routing
  import opened WriterStack
  import opened Proxy
  import opened RoutesAdmin
  import opened CorrelationId
  import opened LogLines

  // ---------- State ----------

  // `admin` is the `--routes-admin` flag; without it no table can be posted.
  datatype Config = Config(layers: Layers, admin: bool, codec: Codec)

  // `random` is what the random source delivers if an ID must be minted;
  // `body` is the decoded body of a POST.
  datatype Inbound = Inbound(verb: string, path: string, correlation: string,
                             random: Option<Sixteen>, body: Option<seq<RouteSpec>>)

  datatype Entry = Entry(verb: string, path: string, status: Status, route: string, id: string, line: string)

  datatype Label = Label(verb: string, route: string, status: Status)

  // A request handed to the reverse proxy of `target` with `header` as its
  // correlation header, while the table of index `version` was current.
  datatype Sent = Sent(route: Route, target: Url, header: string, version: nat)

  datatype Phase =
    | Arrived
    // POST /admin/routes, up to the end of Replace
    | Prepared
    | WriteLocked
    | Swapped
    | Replaced
    // the snapshot under the read lock
    | ReadLocked
    | Copied(cur: Built)
    | Snapped(cur: Built)
    // Handler.ServeHTTP
    | Matched(cur: Built, route: Route)
    | Stamped(cur: Built, route: Route)
    // a handler body: arbitrary writes, or a fixed reply
    | Serving
    | Replying(rest: seq<Call>)
    // AccessLog and metrics after the handler returned
    | Returned(entry: Entry)
    | Logging(entry: Entry, written: nat)
    | Logged(entry: Entry)
    | Counted(entry: Entry)
    | Done(entry: Entry)
    | Aborted

  // `born`, `seen` and `installed` are indexes into the history of installed
  // tables: the one current at arrival, the one copied, the one swapped in.
  datatype Thread = Thread(
    req: Inbound, role: Role, id: string, phase: Phase,
    born: nat, seen: Option<nat>, installed: Option<nat>, sent: Option<Sent>,
    calls: seq<Call>, w: Stack)

  type Tid = nat

  datatype State = State(
    cfg: Config,
    current: Built, history: seq<Built>,
    sink: string, log: seq<Entry>,
    counter: map<Label, nat>, durations: map<Label, nat>,
    threads: map<Tid, Thread>)

  datatype Act =
    | Arrive(req: Inbound)
    | Prepare | Refuse
    | LockWrite | Swap | UnlockWrite
    | LockRead | Copy | UnlockRead
    | List
    | Match | StampRoute | Dispatch
    | Answer
    | Emit(call: Call) | EmitNext
    | Return(line: string) | Abort
    | LockLog | PutByte | UnlockLog
    | Count | Observe

  // ---------- The mux ----------

  // What the mux and the endpoint behind it will do with a request: list the
  // table, build and install `next`, answer an admin error, answer a probe, or
  // proxy.
  datatype Role = Lister | Installer(next: Built) | Refused(reply: seq<Call>) | Probe | Proxied

  // Exact paths win over the "/" fallback.
  function RoleOf(c: Config, req: Inbound): Role {
    if c.admin && req.path == "/admin/routes" then
      if req.verb == "GET" then Lister
      else if req.verb == "POST" && Installed(c.codec, req.body).Some?
      then Installer(Installed(c.codec, req.body).value)
      else Refused(AdminReply(c.codec, req.verb, req.body, []))
    else if req.path == "/healthz" || req.path == "/readyz" || (req.path == "/metrics" && c.layers.metrics) then Probe
    else Proxied
  }

  // What the handler behind the mux does to its writer when the table it copies
  // is `now`; `upstream` are the writes of a backend or a probe.
  function HandlerCalls(c: Config, req: Inbound, upstream: seq<Call>, now: seq<Route>): seq<Call> {
    match RoleOf(c, req)
    case Lister => TableCalls(c.codec, now)
    case Installer(_) => TableCalls(c.codec, now)
    case Refused(reply) => reply
    case Probe => upstream
    case Proxied =>
      match Scan(now, req.path)
      case None => NotFoundCalls()
      case Some(route) => [Stamp(route.prefix)] + upstream
  }

  // The backend whose proxy the request reaches.
  function Target(c: Config, req: Inbound, now: seq<Route>): Option<Url> {
    if RoleOf(c, req).Proxied? then
      match Scan(now, req.path)
      case None => None
      case Some(route) => route.backend
    else None
  }

  // ---------- The mux, by path ----------

  predicate IsProbePath(c: Config, path: string) {
    path == "/healthz" || path == "/readyz" || (path == "/metrics" && c.layers.metrics)
  }

  predicate IsAdminPath(c: Config, path: string) {
    c.admin && path == "/admin/routes"
  }

  // The request is a POST to the mounted endpoint whose whole body is valid.
  ghost predicate Installs(c: Config, req: Inbound) {
    IsAdminPath(c, req.path) && req.verb == "POST" && IsValidBody(c.codec, req.body)
  }

  // What a request gets, path by path: a probe its own answer; the endpoint a
  // listing, a refusal for a reason that applies, or a 405; and any other path
  // the 404 when it starts with no configured prefix, else the stamp and the
  // backend of the longest one.
  ghost predicate HandledByPath(c: Config, req: Inbound, upstream: seq<Call>, now: seq<Route>,
                                calls: seq<Call>, target: Option<Url>)
  {
    if IsProbePath(c, req.path) then calls == upstream && target == None
    else if IsAdminPath(c, req.path) then
      && target == None
      && (req.verb == "GET" || Installs(c, req) ==> calls == TableCalls(c.codec, now))
      && (req.verb == "POST" && !Installs(c, req) ==>
            exists reason :: Rejects(c.codec, req.body, reason) && calls == ErrorCalls(c.codec, 400, reason))
      && (req.verb != "GET" && req.verb != "POST" ==> calls == NotAllowedCalls(c.codec))
    else
      && ((forall r :: r in now ==> !(r.prefix <= req.path)) ==> calls == NotFoundCalls() && target == None)
      && (forall w :: && w in now && w.prefix <= req.path
                      && (forall r :: r in now && r.prefix <= req.path ==> |r.prefix| <= |w.prefix|) ==>
            calls == [Stamp(w.prefix)] + upstream && target == w.backend)
  }

  lemma InstallsMeans(c: Config, req: Inbound)
    ensures RoleOf(c, req).Installer? <==> Installs(c, req)
    ensures Installs(c, req) ==> RoleOf(c, req).next.table == StableSort(Listed(c.codec, req.body.value))
  {
    InstalledIffValid(c.codec, req.body);
  }

  lemma HandledIsByPath(c: Config, req: Inbound, upstream: seq<Call>, now: seq<Route>)
    requires Descending(now) && Distinct(now)
    ensures HandledByPath(c, req, upstream, now, HandlerCalls(c, req, upstream, now), Target(c, req, now))
  {
    if IsAdminPath(c, req.path) {
      AdminIsByPath(c, req, upstream, now);
    } else if !IsProbePath(c, req.path) {
      ProxiedIsByPath(c, req, upstream, now);
    }
  }

  lemma AdminIsByPath(c: Config, req: Inbound, upstream: seq<Call>, now: seq<Route>)
    requires IsAdminPath(c, req.path)
    ensures HandledByPath(c, req, upstream, now, HandlerCalls(c, req, upstream, now), Target(c, req, now))
  {
    InstallsMeans(c, req);
    var plan := PlanPost(c.codec, req.body);
    RefusesExactly(c.codec, req.body, if plan.Refuse? then plan.reason else MalformedBody);
  }

  lemma ProxiedIsByPath(c: Config, req: Inbound, upstream: seq<Call>, now: seq<Route>)
    requires !IsAdminPath(c, req.path) && !IsProbePath(c, req.path) && Descending(now) && Distinct(now)
    ensures HandledByPath(c, req, upstream, now, HandlerCalls(c, req, upstream, now), Target(c, req, now))
  {
    StoredTableSelects(now, req.path);
  }

  // The response header map as the correlation middleware hands it on.
  function Tagged(id: string): Fields {
    map[CORRELATION_HEADER := [id]]
  }

  // ---------- One request's own moves ----------

  predicate CanMove(c: Config, th: Thread, act: Act) {
    var ph := th.phase;
    match act
    case Arrive(_) => false
    case Prepare => ph.Arrived? && th.role.Installer?
    case Refuse => ph.Arrived? && th.role.Refused?
    case LockWrite => ph.Prepared?
    case Swap => ph.WriteLocked? && th.role.Installer?
    case UnlockWrite => ph.Swapped?
    case LockRead => ph.Replaced? || (ph.Arrived? && (th.role.Lister? || th.role.Proxied?))
    case Copy => ph.ReadLocked?
    case UnlockRead => ph.Copied?
    case List => ph.Snapped? && (th.role.Lister? || th.role.Installer?)
    case Match => ph.Snapped? && th.role.Proxied?
    case StampRoute => ph.Matched?
    case Dispatch => ph.Stamped? && ph.route.prefix in ph.cur.proxies
    case Answer => ph.Arrived? && th.role.Probe?
    case Emit(call) => ph.Serving? && !call.Stamp?
    case EmitNext => ph.Replying? && ph.rest != []
    case Return(line) => (ph.Serving? || (ph.Replying? && ph.rest == [])) && th.w.Layer? && IsLine(line)
    case Abort => ph.Serving?
    case LockLog => ph.Returned?
    case PutByte => ph.Logging? && ph.written < |ph.entry.line|
    case UnlockLog => ph.Logging? && ph.written == |ph.entry.line|
    case Count => ph.Logged?
    case Observe => ph.Counted?
  }

  function Written(th: Thread, call: Call): Thread {
    th.(calls := th.calls + [call], w := Do(th.w, call))
  }

  // `cur` and `version` are the current handler and its index.
  function Move(c: Config, cur: Built, version: nat, th: Thread, act: Act): Thread
    requires CanMove(c, th, act)
  {
    var ph := th.phase;
    match act
    case Prepare => th.(phase := Prepared)
    case Refuse => th.(phase := Replying(th.role.reply))
    case LockWrite => th.(phase := WriteLocked)
    case Swap => th.(phase := Swapped, installed := Some(version + 1))
    case UnlockWrite => th.(phase := Replaced)
    case LockRead => th.(phase := ReadLocked)
    case Copy => th.(phase := Copied(cur), seen := Some(version))
    case UnlockRead => th.(phase := Snapped(ph.cur))
    case List => th.(phase := Replying(TableCalls(c.codec, ph.cur.table)))
    case Match => (
      match Scan(ph.cur.table, th.req.path)
      case None => th.(phase := Replying(NotFoundCalls()))
      case Some(route) => th.(phase := Matched(ph.cur, route)))
    case StampRoute => Written(th, Stamp(ph.route.prefix)).(phase := Stamped(ph.cur, ph.route))
    case Dispatch =>
      var header := if th.id != "" then th.id else th.req.correlation;
      th.(phase := Serving, sent := Some(Sent(ph.route, ph.cur.proxies[ph.route.prefix], header, version)))
    case Answer => th.(phase := Serving)
    case Emit(call) => Written(th, call)
    case EmitNext => Written(th, ph.rest[0]).(phase := Replying(ph.rest[1..]))
    case Return(line) =>
      th.(phase := Returned(Entry(th.req.verb, th.req.path, th.w.status, th.w.route, th.id, line)))
    case Abort => th.(phase := Aborted)
    case LockLog => th.(phase := Logging(ph.entry, 0))
    case PutByte => th.(phase := Logging(ph.entry, ph.written + 1))
    case UnlockLog => th.(phase := if c.layers.metrics then Logged(ph.entry) else Done(ph.entry))
    case Count => th.(phase := Counted(ph.entry))
    case Observe => th.(phase := Done(ph.entry))
  }

  // ---------- Shared state ----------

  // Inside the holder's read lock, its write lock, and the log's mutex.
  predicate Reading(ph: Phase) { ph.ReadLocked? || ph.Copied? }

  predicate Writing(ph: Phase) { ph.WriteLocked? || ph.Swapped? }

  // A lock can be taken when those it excludes are not held: the read lock
  // excludes a writer, the write lock everybody, the mutex another log writer.
  predicate Free(s: State, act: Act) {
    match act
    case LockRead => forall t :: t in s.threads ==> !Writing(s.threads[t].phase)
    case LockWrite => forall t :: t in s.threads ==> !Writing(s.threads[t].phase) && !Reading(s.threads[t].phase)
    case LockLog => forall t :: t in s.threads ==> !s.threads[t].phase.Logging?
    case _ => true
  }

  // The metrics middleware reads its own writer, one layer below the access log's.
  function MetricLabel(th: Thread): Label {
    if th.w.Layer? && th.w.below.Layer?
    then Label(th.req.verb, th.w.below.route, th.w.below.status)
    else Label(th.req.verb, "", 200)
  }

  function Get(m: map<Label, nat>, l: Label): nat {
    if l in m then m[l] else 0
  }

  function Bump(m: map<Label, nat>, l: Label): map<Label, nat> {
    m[l := Get(m, l) + 1]
  }

  predicate Can(s: State, t: Tid, act: Act) {
    if act.Arrive? then t !in s.threads
    else t in s.threads && CanMove(s.cfg, s.threads[t], act) && Free(s, act)
  }

  // The index of the current table in the history.
  function Version(s: State): nat {
    if s.history == [] then 0 else |s.history| - 1
  }

  function Stepped(s: State, t: Tid, act: Act): Thread
    requires Can(s, t, act)
  {
    match act
    case Arrive(req) =>
      Thread(req, RoleOf(s.cfg, req), Resolve(req.correlation, req.random), Arrived,
             Version(s), None, None, None, [], Composed(s.cfg.layers, Tagged(Resolve(req.correlation, req.random))))
    case _ => Move(s.cfg, s.current, Version(s), s.threads[t], act)
  }

  // The shared state after a step of the request that was in state `th`.
  function Shared(s: State, th: Thread, act: Act): State
    requires CanMove(s.cfg, th, act)
  {
    match act
    case Swap => s.(current := th.role.next, history := s.history + [th.role.next])
    case PutByte => s.(sink := s.sink + [th.phase.entry.line[th.phase.written]])
    case UnlockLog => s.(log := s.log + [th.phase.entry])
    case Count => s.(counter := Bump(s.counter, MetricLabel(th)))
    case Observe => s.(durations := Bump(s.durations, MetricLabel(th)))
    case _ => s
  }

  function Next(s: State, t: Tid, act: Act): State
    requires Can(s, t, act)
  {
    var shared := if act.Arrive? then s else Shared(s, s.threads[t], act);
    shared.(threads := s.threads[t := Stepped(s, t, act)])
  }

  // At boot the holder carries the handler built from the `--route` flags.
  ghost predicate Initial(s: State) {
    && IsStored(s.current)
    && s.history == [s.current]
    && s.sink == "" && s.log == []
    && s.counter == map[] && s.durations == map[] && s.threads == map[]
  }
}
