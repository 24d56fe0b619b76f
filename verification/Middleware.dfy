/**
 One request through the objects that `cmd/decision-gateway/main.go` composes:
 each middleware wraps the writer it is given, calls the next frame, and reads
 its own wrapper when that frame has returned.
 */
module Middleware {
  import opened Wrappers
  import opened Routing
  import opened WriterStack
  import opened ResponseWriters
  import opened Proxy
  import opened RoutesAdmin
  import opened CorrelationId
  import opened Gateway
  import opened GatewayInvariant

  datatype SpanRecord = SpanRecord(status: Status, route: Option<string>, failed: bool)

  // A request, its header map, the ID in its context, and what the far side
  // will do: the calls a backend or probe makes, and the line the encoder makes.
  datatype Job = Job(req: Inbound, header: Headers, id: string, upstream: seq<Call>, line: string)

  // What a request that runs alone does to its writer: a POST reads back the
  // table it has just installed.
  function Alone(c: Config, table: seq<Route>, job: Job): seq<Call> {
    var role := RoleOf(c, job.req);
    HandlerCalls(c, job.req, job.upstream, if role.Installer? then role.next.table else table)
  }

  // The handler in service after a request that met `was`: only a valid POST
  // to the mounted endpoint puts another in place.
  function After(c: Config, req: Inbound, was: Built): Built {
    var role := RoleOf(c, req);
    if role.Installer? then role.next else was
  }

  // Both, by path: over a table in service, and over what a POST puts there.
  lemma AloneByPath(c: Config, was: Built, job: Job)
    requires WellFormed(was.table)
    ensures HandledByPath(c, job.req, job.upstream, After(c, job.req, was).table,
                          Alone(c, was.table, job), Target(c, job.req, was.table))
    ensures Installs(c, job.req) ==> After(c, job.req, was).table == StableSort(Listed(c.codec, job.req.body.value))
    ensures !Installs(c, job.req) ==> After(c, job.req, was) == was
    ensures Installs(c, job.req) <==> RoleOf(c, job.req).Installer?
  {
    InstallsMeans(c, job.req);
    if Installs(c, job.req) {
      InstalledIsStored(c.codec, job.req.body);
    }
    HandledIsByPath(c, job.req, job.upstream, After(c, job.req, was).table);
  }

  // A writer as its middleware makes it.
  function Over(kind: Kind, below: Stack): Stack {
    Layer(kind, 200, false, "", below)
  }

  // The access log's wrapper after the handler ran over the writer `below`.
  function Observed(below: Stack, calls: seq<Call>): (s: Stack)
    ensures s.Layer?
  {
    KeepsLayer(Over(AccessLog, below), calls);
    Run(Over(AccessLog, below), calls)
  }

  lemma {:induction false} KeepsLayer(s: Stack, calls: seq<Call>)
    requires s.Layer?
    ensures Run(s, calls).Layer?
    decreases |calls|
  {
    if calls != [] {
      KeepsLayer(Do(s, calls[0]), calls[1..]);
    }
  }

  function EntryFrom(job: Job, s: Stack): Entry
    requires s.Layer?
  {
    Entry(job.req.verb, job.req.path, s.status, s.route, job.id, job.line)
  }

  class Chain {
    const cfg: Config
    const holder: Holder
    var log: seq<Entry>
    var counter: map<Label, nat>
    var durations: map<Label, nat>

    constructor (cfg: Config, holder: Holder)
      ensures this.cfg == cfg && this.holder == holder
      ensures log == [] && counter == map[] && durations == map[]
    {
      this.cfg, this.holder := cfg, holder;
      log, counter, durations := [], map[], map[];
    }

    ghost function Table(): seq<Route>
      reads holder, holder.current.router.routes
    {
      holder.current.View().table
    }

    ghost predicate Ready(w: ResponseWriter, job: Job)
      reads holder, holder.current.router.routes
    {
      && holder.Valid() && w.Valid()
      && this !in w.Footprint() && holder !in w.Footprint() && job.header !in w.Footprint()
      && holder.current.router.routes !in w.Footprint()
    }

    // A handler body: the calls a backend or a probe makes.
    method Replay(w: ResponseWriter, calls: seq<Call>)
      requires w.Valid() && Unstamped(calls)
      modifies w.Footprint()
      ensures w.View() == Run(old(w.View()), calls)
    {
      for k := 0 to |calls|
        invariant Run(old(w.View()), calls) == Run(w.View(), calls[k..])
      {
        match calls[k] {
          case Header(code) => w.WriteHeader(code);
          case Body(bytes) => w.Write(bytes);
          case Stamp(_) => assert false;
          case Set(name, value) => w.SetField(name, value);
          case Add(name, value) => w.AddField(name, value);
        }
        assert calls[k..][1..] == calls[k + 1..];
      }
      assert calls[|calls|..] == [];
    }

    method Proxied(w: ResponseWriter, job: Job) returns (target: Option<Url>)
      requires Ready(w, job) && Unstamped(job.upstream)
      modifies job.header, w.Footprint()
      ensures holder.Valid() && Table() == old(Table())
      ensures match Scan(old(Table()), job.req.path)
              case None => target.None? && w.View() == Run(old(w.View()), NotFoundCalls())
              case Some(route) =>
                && target.Some? && target == route.backend
                && w.View() == Run(old(w.View()), [Stamp(route.prefix)] + job.upstream)
                && (job.id != "" ==> job.header.correlation == job.id)
    {
      ghost var was, table := w.View(), Table();
      target := holder.ServeHTTP(w, Request(job.req.verb, job.req.path, job.id, job.header));
      if target.Some? {
        ghost var stamp := Stamp(Scan(table, job.req.path).value.prefix);
        Replay(w, job.upstream);
        assert ([stamp] + job.upstream)[1..] == job.upstream;
        assert Run(was, [stamp] + job.upstream) == Run(Do(was, stamp), job.upstream);
      }
    }

    // The admin endpoint, mounted on its path.
    method Administer(w: ResponseWriter, job: Job)
      requires Ready(w, job) && IsAdminPath(cfg, job.req.path)
      modifies holder, w.Footprint()
      ensures w.View() == Run(old(w.View()), Alone(cfg, old(Table()), job))
      ensures holder.Valid() && holder.current.View() == After(cfg, job.req, old(holder.current.View()))
      ensures !RoleOf(cfg, job.req).Installer? ==> holder.current == old(holder.current)
      ensures Target(cfg, job.req, old(Table())) == None
      ensures w.View() == Run(old(w.View()),
                AdminReply(cfg.codec, job.req.verb, job.req.body, holder.current.View().table))
    {
      InstalledIffValid(cfg.codec, job.req.body);
      ServeAdmin(cfg.codec, w, job.req.verb, job.req.body, holder);
    }

    // The mux and the endpoints behind it.
    method Mux(w: ResponseWriter, job: Job) returns (target: Option<Url>)
      requires Ready(w, job) && Unstamped(job.upstream)
      modifies holder, job.header, w.Footprint()
      ensures w.View() == Run(old(w.View()), Alone(cfg, old(Table()), job))
      ensures holder.Valid() && holder.current.View() == After(cfg, job.req, old(holder.current.View()))
      ensures !RoleOf(cfg, job.req).Installer? ==> holder.current == old(holder.current)
      ensures target == Target(cfg, job.req, old(Table()))
      ensures target.Some? && job.id != "" ==> job.header.correlation == job.id
      ensures job.req.path == "/healthz" || job.req.path == "/readyz" || (job.req.path == "/metrics" && cfg.layers.metrics) ==>
                target == None && w.View() == Run(old(w.View()), job.upstream) && holder.current == old(holder.current)
      ensures job.req.path == "/admin/routes" && cfg.admin ==>
                target == None && w.View() == Run(old(w.View()),
                  AdminReply(cfg.codec, job.req.verb, job.req.body, holder.current.View().table))
      ensures !IsProbePath(cfg, job.req.path) && !IsAdminPath(cfg, job.req.path) ==>
                match Scan(old(Table()), job.req.path)
                case None => target == None && w.View() == Run(old(w.View()), NotFoundCalls())
                case Some(route) =>
                  target == route.backend && w.View() == Run(old(w.View()), [Stamp(route.prefix)] + job.upstream)
    {
      var req := job.req;
      target := None;
      if cfg.admin && req.path == "/admin/routes" {
        Administer(w, job);
      } else if req.path == "/healthz" || req.path == "/readyz" || (req.path == "/metrics" && cfg.layers.metrics) {
        Replay(w, job.upstream);
      } else {
        target := Proxied(w, job);
      }
    }

    // AccessLog: one entry per request, read off its wrapper.
    method AccessLogged(w: ResponseWriter, job: Job) returns (target: Option<Url>)
      requires Ready(w, job) && Unstamped(job.upstream)
      modifies this`log, holder, job.header, w.Footprint()
      ensures var o := Observed(old(w.View()), Alone(cfg, old(Table()), job));
              w.View() == o.below && log == old(log) + [EntryFrom(job, o)]
      ensures holder.Valid() && holder.current.View() == After(cfg, job.req, old(holder.current.View()))
      ensures !RoleOf(cfg, job.req).Installer? ==> holder.current == old(holder.current)
      ensures target == Target(cfg, job.req, old(Table()))
      ensures target.Some? && job.id != "" ==> job.header.correlation == job.id
    {
      var wrapped := new StatusRecorder(w);
      target := Mux(Recorder(wrapped), job);
      log := log + [Entry(job.req.verb, job.req.path, wrapped.status, wrapped.route, job.id, job.line)];
    }

    // Metrics around AccessLog: the labels are read off the metrics wrapper.
    method Measured(w: ResponseWriter, job: Job) returns (target: Option<Url>)
      requires Ready(w, job) && Unstamped(job.upstream)
      modifies this, holder, job.header, w.Footprint()
      ensures var o := Observed(Over(Metrics, old(w.View())), Alone(cfg, old(Table()), job));
              && log == old(log) + [EntryFrom(job, o)]
              && o.below.Layer? && w.View() == o.below.below
              && var tag := Label(job.req.verb, o.below.route, o.below.status);
                 counter == Bump(old(counter), tag) && durations == Bump(old(durations), tag)
      ensures holder.Valid() && holder.current.View() == After(cfg, job.req, old(holder.current.View()))
      ensures !RoleOf(cfg, job.req).Installer? ==> holder.current == old(holder.current)
      ensures target == Target(cfg, job.req, old(Table()))
      ensures target.Some? && job.id != "" ==> job.header.correlation == job.id
    {
      var sw := new MetricsWriter(w);
      target := AccessLogged(Labels(sw), job);
      var labels := Label(job.req.verb, sw.route, sw.status);
      counter := Bump(counter, labels);
      durations := Bump(durations, labels);
    }

    // The chain inside tracing: AccessLog, with Metrics around it when enabled.
    method Inner(w: ResponseWriter, job: Job) returns (target: Option<Url>)
      requires Ready(w, job) && Unstamped(job.upstream)
      modifies this, holder, job.header, w.Footprint()
      ensures var calls := Alone(cfg, old(Table()), job);
              if cfg.layers.metrics then
                var o := Observed(Over(Metrics, old(w.View())), calls);
                && log == old(log) + [EntryFrom(job, o)]
                && o.below.Layer? && w.View() == o.below.below
                && var tag := Label(job.req.verb, o.below.route, o.below.status);
                   counter == Bump(old(counter), tag) && durations == Bump(old(durations), tag)
              else
                var o := Observed(old(w.View()), calls);
                && log == old(log) + [EntryFrom(job, o)] && w.View() == o.below
                && counter == old(counter) && durations == old(durations)
      ensures holder.Valid() && holder.current.View() == After(cfg, job.req, old(holder.current.View()))
      ensures !RoleOf(cfg, job.req).Installer? ==> holder.current == old(holder.current)
      ensures target == Target(cfg, job.req, old(Table()))
      ensures target.Some? && job.id != "" ==> job.header.correlation == job.id
    {
      if cfg.layers.metrics {
        target := Measured(w, job);
      } else {
        target := AccessLogged(w, job);
      }
    }

    // Tracing around it when enabled: the span is read off the tracing wrapper.
    method Traced(w: ResponseWriter, job: Job) returns (span: Option<SpanRecord>, target: Option<Url>)
      requires Ready(w, job) && Unstamped(job.upstream)
      modifies this, holder, job.header, w.Footprint()
      ensures var calls := Alone(cfg, old(Table()), job);
              var o := Observed(Under(cfg.layers, old(w.View())), calls);
              && log == old(log) + [EntryFrom(job, o)]
              && (cfg.layers.metrics ==> o.below.Layer?)
              && (var tag := if cfg.layers.metrics then Some(Label(job.req.verb, o.below.route, o.below.status)) else None;
                  && counter == (if tag.Some? then Bump(old(counter), tag.value) else old(counter))
                  && durations == (if tag.Some? then Bump(old(durations), tag.value) else old(durations)))
              && var rest := if cfg.layers.metrics then o.below.below else o.below;
                 if cfg.layers.tracing
                 then rest.Layer? && span == Some(SpanOf(rest.status, rest.route)) && w.View() == rest.below
                 else span == None && w.View() == rest
      ensures holder.Valid() && holder.current.View() == After(cfg, job.req, old(holder.current.View()))
      ensures !RoleOf(cfg, job.req).Installer? ==> holder.current == old(holder.current)
      ensures target == Target(cfg, job.req, old(Table()))
      ensures target.Some? && job.id != "" ==> job.header.correlation == job.id
    {
      if cfg.layers.tracing {
        var sw := new SpanWriter(w);
        target := Inner(Span(sw), job);
        span := Some(SpanOf(sw.status, sw.matchedRoute));
      } else {
        span := None;
        target := Inner(w, job);
      }
    }

    // CorrelationID: reads or mints the ID, hands it on in the context, which is
    // the result, and stamps it on the response.
    method Correlate(w: ResponseWriter, header: Headers, drawn: Option<seq<bv8>>) returns (id: string)
      requires w.Valid() && header !in w.Footprint()
      requires drawn.Some? ==> |drawn.value| == 16
      modifies w.Footprint()
      ensures id == Resolve(header.correlation, Drawn(drawn)) != ""
      ensures header.correlation == "" ==> IsVersion4(id)
      ensures w.View() == Do(old(w.View()), Set("X-Correlation-Id", id))
    {
      id := header.correlation;
      if id == "" {
        id := NewUUID(drawn);
      }
      w.SetField(CORRELATION_HEADER, id);
    }

    // The chain below CorrelationID over the server's own writer, up to the
    // point where the server finishes the response.
    method Respond(net: NetWriter, job: Job) returns (span: Option<SpanRecord>, target: Option<Url>)
      requires Ready(ResponseWriter.Server(net), job) && Unstamped(job.upstream) && job.id != ""
      requires ResponseWriter.Server(net).View() == Net(None, Tagged(job.id), map[], "")
      modifies this, holder, job.header, net
      ensures holder.Valid() && holder.current.View() == After(cfg, job.req, old(holder.current.View()))
      ensures !RoleOf(cfg, job.req).Installer? ==> holder.current == old(holder.current)
      ensures target == Target(cfg, job.req, old(Table())) && (target.Some? ==> job.header.correlation == job.id)
      ensures var calls := Alone(cfg, old(Table()), job);
              var status, route := FirstStatus(calls), LastStamp(calls);
              var tag := Label(job.req.verb, route, status);
              && log == old(log) + [Entry(job.req.verb, job.req.path, status, route, job.id, job.line)]
              && counter == (if cfg.layers.metrics then Bump(old(counter), tag) else old(counter))
              && durations == (if cfg.layers.metrics then Bump(old(durations), tag) else old(durations))
              && span == (if cfg.layers.tracing then Some(SpanOf(status, route)) else None)
              && net.committed == Some(status) && net.body == Bodies(calls) && net.sent == SentFields(Tagged(job.id), calls)
    {
      ChainAgrees(cfg.layers, Tagged(job.id), Alone(cfg, Table(), job));
      span, target := Traced(ResponseWriter.Server(net), job);
      net.FinishRequest();
    }

    // The whole chain over the server's own writer. The log entry, the metric
    // label, the span and the response carry one status, the log, the label
    // and the span one route, and the log, the response and the outbound
    // request one correlation ID.
    method Serve(net: NetWriter, req: Inbound, drawn: Option<seq<bv8>>, header: Headers,
                 upstream: seq<Call>, line: string)
      returns (span: Option<SpanRecord>, target: Option<Url>)
      requires holder.Valid() && Server(net).View() == Net(None, map[], map[], "") && Unstamped(upstream)
      requires holder.current.router.routes as object != net
      requires drawn.Some? ==> |drawn.value| == 16
      requires req.random == Drawn(drawn) && req.correlation == header.correlation
      modifies this, holder, header, net
      ensures holder.Valid() && holder.current.View() == After(cfg, req, old(holder.current.View()))
      ensures !Installs(cfg, req) ==> holder.current == old(holder.current)
      ensures Installs(cfg, req) ==>
                holder.current.View().table == StableSort(Listed(cfg.codec, req.body.value))
      ensures HandledByPath(cfg, req, upstream, holder.current.View().table,
                            Alone(cfg, old(Table()), Job(req, header, Resolve(req.correlation, req.random), upstream, line)),
                            target)
      ensures span.Some? <==> cfg.layers.tracing
      ensures log != [] && span.Some? ==>
                && net.committed == Some(span.value.status) && (span.value.failed <==> span.value.status >= 500)
                && span.value.route == if log[|log| - 1].route != "" then Some(log[|log| - 1].route) else None
      ensures var id := Resolve(req.correlation, req.random);
              var calls := Alone(cfg, old(Table()), Job(req, header, id, upstream, line));
              var status, route := FirstStatus(calls), LastStamp(calls);
              var tag := Label(req.verb, route, status);
              && log == old(log) + [Entry(req.verb, req.path, status, route, id, line)]
              && counter == (if cfg.layers.metrics then Bump(old(counter), tag) else old(counter))
              && durations == (if cfg.layers.metrics then Bump(old(durations), tag) else old(durations))
              && span == (if cfg.layers.tracing then Some(SpanOf(status, route)) else None)
              && net.committed == Some(status) && net.body == Bodies(calls)
              && net.sent == SentFields(Tagged(id), calls)
              && target == Target(cfg, req, old(Table()))
              && (target.Some? ==> header.correlation == id)
    {
      ghost var was := holder.current.View();
      var w := ResponseWriter.Server(net);
      var id := Correlate(w, header, drawn);
      var job := Job(req, header, id, upstream, line);
      assert w.View() == Net(None, Tagged(id), map[], "");
      span, target := Respond(net, job);
      AloneByPath(cfg, was, job);
    }
  }

  function SpanOf(status: Status, route: string): SpanRecord {
    SpanRecord(status, if route != "" then Some(route) else None, status >= 500)
  }

  lemma FreshOver(kinds: seq<Kind>, header: Fields)
    requires kinds != []
    ensures Fresh(kinds, header) == Over(kinds[0], Fresh(kinds[1..], header))
  {}

  // The writers below the access log's, as `run` stacks them over `base`.
  function Under(c: Layers, base: Stack): Stack {
    var traced := if c.tracing then Over(Tracing, base) else base;
    if c.metrics then Over(Metrics, traced) else traced
  }

  lemma ComposedShape(c: Layers, header: Fields)
    ensures Composed(c, header) == Over(AccessLog, Under(c, Net(None, header, map[], "")))
  {
    var kinds := Kinds(c);
    var inner := (if c.metrics then [Metrics] else []) + (if c.tracing then [Tracing] else []);
    var last := if c.tracing then [Tracing] else [];
    assert kinds[1..] == inner;
    FreshOver(kinds, header);
    if c.metrics {
      assert inner[1..] == last;
      FreshOver(inner, header);
    } else {
      assert inner == last;
    }
    if c.tracing {
      FreshOver(last, header);
    }
  }

  // What the middlewares read off their wrappers in each composition.
  lemma ChainAgrees(c: Layers, header: Fields, calls: seq<Call>)
    ensures var o := Observed(Under(c, Net(None, header, map[], "")), calls);
            var status, route := FirstStatus(calls), LastStamp(calls);
            && o.status == status && o.route == route
            && (c.metrics ==> o.below.Layer? && o.below.status == status && o.below.route == route)
            && var rest := if c.metrics then o.below.below else o.below;
               && (c.tracing ==> rest.Layer? && rest.status == status && rest.route == route)
               && var base := if c.tracing then rest.below else rest;
                  && base.Net? && Finish(base).committed == Some(status)
                  && Finish(base).sent == SentFields(header, calls) && Finish(base).body == Bodies(calls)
  {
    ComposedShape(c, header);
    var e := Run(Composed(c, header), calls);
    forall k | 0 <= k < |Kinds(c)|
      ensures |Kinds(c)| == Depth(e)
      ensures At(e, k).status == FirstStatus(calls) && At(e, k).route == LastStamp(calls)
    {
      CompositionsAgree(c, header, calls, k);
    }
    CompositionsAgree(c, header, calls, 0);
    FinishBase(e);
    ReadOff(e, FirstStatus(calls), LastStamp(calls));
  }

  // A stack of at most three layers, read from the top.
  lemma ReadOff(e: Stack, status: Status, route: string)
    requires 1 <= Depth(e) <= 3
    requires forall k :: 0 <= k < Depth(e) ==> At(e, k).status == status && At(e, k).route == route
    ensures e.Layer? && e.status == status && e.route == route
    ensures Depth(e) == 1 ==> e.below.Net? && Base(e) == e.below
    ensures Depth(e) >= 2 ==> e.below.Layer? && e.below.status == status && e.below.route == route
    ensures Depth(e) == 2 ==> e.below.below.Net? && Base(e) == e.below.below
    ensures Depth(e) == 3 ==>
              && e.below.below.Layer? && e.below.below.status == status && e.below.below.route == route
              && e.below.below.below.Net? && Base(e) == e.below.below.below
  {
    assert At(e, 0) == e;
    if Depth(e) >= 2 {
      assert At(e, 1) == At(e.below, 0) == e.below;
      if Depth(e) == 3 {
        assert At(e, 2) == At(e.below, 1) == At(e.below.below, 0) == e.below.below;
      }
    }
  }
}
