/**
 The response writers as objects: each wrapper holds the writer it wraps and
 updates its own fields in place. An interface value is a choice among the four
 writer classes; the links are fixed at construction, so the footprint of a
 stack never changes.
 */
module ResponseWriters {
  import opened Wrappers
  import opened WriterStack

  datatype ResponseWriter =
    | Server(net: NetWriter)
    | Recorder(access: StatusRecorder)
    | Labels(metric: MetricsWriter)
    | Span(span: SpanWriter)
  {
    ghost function Height(): nat {
      match this
      case Server(_) => 0
      case Recorder(a) => a.height
      case Labels(m) => m.height
      case Span(t) => t.height
    }

    ghost function Footprint(): set<object> {
      match this
      case Server(n) => {n}
      case Recorder(a) => a.footprint
      case Labels(m) => m.footprint
      case Span(t) => t.footprint
    }

    // The links form an acyclic chain of distinct objects down to the server.
    ghost predicate Valid()
      decreases Height()
    {
      match this
      case Server(n) => true
      case Recorder(a) => Wraps(a, a.inner, a.height, a.footprint) && a.inner.Valid()
      case Labels(m) => Wraps(m, m.inner, m.height, m.footprint) && m.inner.Valid()
      case Span(t) => Wraps(t, t.inner, t.height, t.footprint) && t.inner.Valid()
    }

    ghost function View(): (s: Stack)
      requires Valid()
      reads Footprint()
      decreases Height()
    {
      match this
      case Server(n) => Net(n.committed, n.header, n.sent, n.body)
      case Recorder(a) => Layer(AccessLog, a.status, a.wroteHeader, a.route, a.inner.View())
      case Labels(m) => Layer(Metrics, m.status, m.wroteHeader, m.route, m.inner.View())
      case Span(t) => Layer(Tracing, t.status, false, t.matchedRoute, t.inner.View())
    }

    // The server's writer does not implement RouteRecorder; the wrappers do.
    predicate IsRouteRecorder() {
      !Server?
    }

    method WriteHeader(code: Status)
      requires Valid()
      modifies Footprint()
      ensures View() == Do(old(View()), Header(code))
      decreases Height(), 1
    {
      match this
      case Server(n) => n.WriteHeader(code);
      case Recorder(a) => a.WriteHeader(code);
      case Labels(m) => m.WriteHeader(code);
      case Span(t) => t.WriteHeader(code);
    }

    method Write(bytes: string)
      requires Valid()
      modifies Footprint()
      ensures View() == Do(old(View()), Body(bytes))
      decreases Height(), 1
    {
      match this
      case Server(n) => n.Write(bytes);
      case Recorder(a) => a.Write(bytes);
      case Labels(m) => m.Write(bytes);
      case Span(t) => t.inner.Write(bytes);  // promoted from the embedded writer
    }

    // Header().Set and Header().Add: every wrapper promotes the embedded
    // writer's Header, so the map is the server's.
    method SetField(name: string, value: string)
      requires Valid()
      modifies Footprint()
      ensures View() == Do(old(View()), Set(name, value))
      decreases Height()
    {
      match this
      case Server(n) => n.SetField(name, value);
      case Recorder(a) => a.inner.SetField(name, value);
      case Labels(m) => m.inner.SetField(name, value);
      case Span(t) => t.inner.SetField(name, value);
    }

    method AddField(name: string, value: string)
      requires Valid()
      modifies Footprint()
      ensures View() == Do(old(View()), Add(name, value))
      decreases Height()
    {
      match this
      case Server(n) => n.AddField(name, value);
      case Recorder(a) => a.inner.AddField(name, value);
      case Labels(m) => m.inner.AddField(name, value);
      case Span(t) => t.inner.AddField(name, value);
    }

    method SetMatchedRoute(route: string)
      requires Valid() && IsRouteRecorder()
      modifies Footprint()
      ensures View() == Do(old(View()), Stamp(route))
      decreases Height(), 1
    {
      match this
      case Recorder(a) => a.SetMatchedRoute(route);
      case Labels(m) => m.SetMatchedRoute(route);
      case Span(t) => t.SetMatchedRoute(route);
    }
  }

  ghost predicate Wraps(o: object, inner: ResponseWriter, height: nat, footprint: set<object>) {
    inner.Height() < height && o !in inner.Footprint() && footprint == {o} + inner.Footprint()
  }

  // net/http's writer: the status and a copy of the header map go out once.
  class NetWriter {
    var committed: Option<Status>
    var header: Fields
    var sent: Fields
    var body: string

    constructor ()
      ensures Server(this).View() == Net(None, map[], map[], "")
    {
      committed, header, sent, body := None, map[], map[], "";
    }

    method SetField(name: string, value: string)
      modifies this
      ensures Server(this).View() == Do(old(Server(this).View()), Set(name, value))
    {
      header := header[name := [value]];
    }

    method AddField(name: string, value: string)
      modifies this
      ensures Server(this).View() == Do(old(Server(this).View()), Add(name, value))
    {
      header := header[name := (if name in header then header[name] else []) + [value]];
    }

    method WriteHeader(code: Status)
      modifies this
      ensures Server(this).View() == Do(old(Server(this).View()), Header(code))
    {
      if committed.None? {
        committed, sent := Some(code), header;
      }
    }

    method Write(bytes: string)
      modifies this
      ensures Server(this).View() == Do(old(Server(this).View()), Body(bytes))
    {
      if committed.None? {
        WriteHeader(200);
      }
      body := body + bytes;
    }

    // The server's side when the handler has returned.
    method FinishRequest()
      modifies this
      ensures Server(this).View() == Finish(old(Server(this).View()))
    {
      if committed.None? {
        WriteHeader(200);
      }
    }
  }

  // The access log's writer.
  class StatusRecorder {
    const inner: ResponseWriter
    ghost const height: nat
    ghost const footprint: set<object>
    var status: Status
    var wroteHeader: bool
    var route: string

    constructor (w: ResponseWriter)
      requires w.Valid()
      ensures Recorder(this).Valid() && inner == w && footprint == {this} + w.Footprint()
      ensures Recorder(this).View() == Layer(AccessLog, 200, false, "", w.View())
    {
      inner, height, footprint := w, w.Height() + 1, {this} + w.Footprint();
      status, wroteHeader, route := 200, false, "";
    }

    method SetMatchedRoute(prefix: string)
      requires Recorder(this).Valid()
      modifies footprint
      ensures Recorder(this).View() == Do(old(Recorder(this).View()), Stamp(prefix))
      decreases height, 0
    {
      route := prefix;
      if inner.IsRouteRecorder() {
        inner.SetMatchedRoute(prefix);
      }
    }

    method WriteHeader(code: Status)
      requires Recorder(this).Valid()
      modifies footprint
      ensures Recorder(this).View() == Do(old(Recorder(this).View()), Header(code))
      decreases height, 0
    {
      if wroteHeader {
        return;
      }
      wroteHeader := true;
      status := code;
      inner.WriteHeader(code);
    }

    method Write(bytes: string)
      requires Recorder(this).Valid()
      modifies footprint
      ensures Recorder(this).View() == Do(old(Recorder(this).View()), Body(bytes))
      decreases height, 0
    {
      if !wroteHeader {
        wroteHeader := true;
      }
      inner.Write(bytes);
    }
  }

  // The metrics middleware's writer.
  class MetricsWriter {
    const inner: ResponseWriter
    ghost const height: nat
    ghost const footprint: set<object>
    var status: Status
    var route: string
    var wroteHeader: bool

    constructor (w: ResponseWriter)
      requires w.Valid()
      ensures Labels(this).Valid() && inner == w && footprint == {this} + w.Footprint()
      ensures Labels(this).View() == Layer(Metrics, 200, false, "", w.View())
    {
      inner, height, footprint := w, w.Height() + 1, {this} + w.Footprint();
      status, route, wroteHeader := 200, "", false;
    }

    method WriteHeader(code: Status)
      requires Labels(this).Valid()
      modifies footprint
      ensures Labels(this).View() == Do(old(Labels(this).View()), Header(code))
      decreases height, 0
    {
      if wroteHeader {
        return;
      }
      wroteHeader := true;
      status := code;
      inner.WriteHeader(code);
    }

    method Write(bytes: string)
      requires Labels(this).Valid()
      modifies footprint
      ensures Labels(this).View() == Do(old(Labels(this).View()), Body(bytes))
      decreases height, 0
    {
      if !wroteHeader {
        wroteHeader := true;
      }
      inner.Write(bytes);
    }

    method SetMatchedRoute(prefix: string)
      requires Labels(this).Valid()
      modifies footprint
      ensures Labels(this).View() == Do(old(Labels(this).View()), Stamp(prefix))
      decreases height, 0
    {
      route := prefix;
      if inner.IsRouteRecorder() {
        inner.SetMatchedRoute(prefix);
      }
    }
  }

  // The tracing middleware's writer: no guard, and a stamp stops here.
  class SpanWriter {
    const inner: ResponseWriter
    ghost const height: nat
    ghost const footprint: set<object>
    var status: Status
    var matchedRoute: string

    constructor (w: ResponseWriter)
      requires w.Valid()
      ensures Span(this).Valid() && inner == w && footprint == {this} + w.Footprint()
      ensures Span(this).View() == Layer(Tracing, 200, false, "", w.View())
    {
      inner, height, footprint := w, w.Height() + 1, {this} + w.Footprint();
      status, matchedRoute := 200, "";
    }

    method WriteHeader(code: Status)
      requires Span(this).Valid()
      modifies footprint
      ensures Span(this).View() == Do(old(Span(this).View()), Header(code))
      decreases height, 0
    {
      status := code;
      inner.WriteHeader(code);
    }

    method SetMatchedRoute(prefix: string)
      requires Span(this).Valid()
      modifies this
      ensures Span(this).View() == Do(old(Span(this).View()), Stamp(prefix))
    {
      matchedRoute := prefix;
    }
  }
}
