/**
 `internal/proxy`: the Handler with its two indexes, and the Holder that swaps
 whole Handlers. A reverse proxy is represented by the backend it targets.
 */
module Proxy {
  import opened Wrappers
  import opened Routing
  import opened Router
  import opened WriterStack
  import opened ResponseWriters

  // ---------- The second index ----------

  predicate Backed(table: seq<Route>) {
    forall i :: 0 <= i < |table| ==> table[i].backend.Some?
  }

  // The fill loop: a later route overwrites an earlier one with its prefix.
  function ProxyMap(table: seq<Route>): map<string, Url>
    requires Backed(table)
  {
    if table == [] then map[]
    else var last := table[|table| - 1];
         ProxyMap(table[..|table| - 1])[last.prefix := last.backend.value]
  }

  // What a Handler holds.
  datatype Built = Built(table: seq<Route>, proxies: map<string, Url>)

  function Build(table: seq<Route>): Built
    requires Backed(table)
  {
    Built(table, ProxyMap(table))
  }

  lemma {:induction false} ProxyKeys(table: seq<Route>, prefix: string)
    requires Backed(table)
    ensures prefix in ProxyMap(table) <==> exists i :: 0 <= i < |table| && table[i].prefix == prefix
  {
    if table != [] {
      var front := table[..|table| - 1];
      ProxyKeys(front, prefix);
      if i :| 0 <= i < |table| && table[i].prefix == prefix {
        assert i == |front| || front[i].prefix == prefix;
      }
      if i :| 0 <= i < |front| && front[i].prefix == prefix {
        assert table[i].prefix == prefix;
      }
    }
  }

  // The entry for a prefix is the backend of the last route that has it.
  lemma {:induction false} LastRouteWins(table: seq<Route>, i: nat)
    requires Backed(table) && i < |table|
    requires forall j :: i < j < |table| ==> table[j].prefix != table[i].prefix
    ensures table[i].prefix in ProxyMap(table)
    ensures ProxyMap(table)[table[i].prefix] == table[i].backend.value
  {
    if i < |table| - 1 {
      LastRouteWins(table[..|table| - 1], i);
      assert table[|table| - 1].prefix != table[i].prefix;
    }
  }

  ghost predicate Agrees(table: seq<Route>)
    requires Backed(table)
  {
    forall i :: 0 <= i < |table| ==>
      table[i].prefix in ProxyMap(table) && ProxyMap(table)[table[i].prefix] == table[i].backend.value
  }

  // The two indexes agree exactly when no prefix is listed with two backends.
  lemma TwoIndexesAgree(table: seq<Route>)
    requires Backed(table)
    ensures Agrees(table) <==>
            forall i, j :: 0 <= i < j < |table| && table[i].prefix == table[j].prefix ==> table[i].backend == table[j].backend
    ensures Distinct(table) ==> Agrees(table)
    ensures forall p :: p in ProxyMap(table) <==> exists i :: 0 <= i < |table| && table[i].prefix == p
  {
    forall p ensures p in ProxyMap(table) <==> exists i :: 0 <= i < |table| && table[i].prefix == p {
      ProxyKeys(table, p);
    }
    if Agrees(table) {
      forall i, j | 0 <= i < j < |table| && table[i].prefix == table[j].prefix
        ensures table[i].backend == table[j].backend
      {
        assert table[i].backend.value == ProxyMap(table)[table[j].prefix] == table[j].backend.value;
      }
    }
    if forall i, j :: 0 <= i < j < |table| && table[i].prefix == table[j].prefix ==> table[i].backend == table[j].backend {
      forall i | 0 <= i < |table|
        ensures table[i].prefix in ProxyMap(table) && ProxyMap(table)[table[i].prefix] == table[i].backend.value
      {
        var j := LastWith(table, i);
        LastRouteWins(table, j);
      }
    }
  }

  lemma {:induction false} LastWith(table: seq<Route>, i: nat) returns (j: nat)
    requires i < |table|
    ensures i <= j < |table| && table[j].prefix == table[i].prefix
    ensures forall k :: j < k < |table| ==> table[k].prefix != table[i].prefix
    decreases |table| - i
  {
    if k :| i < k < |table| && table[k].prefix == table[i].prefix {
      j := LastWith(table, k);
    } else {
      j := i;
    }
  }

  predicate Addressed(table: seq<Route>) {
    forall i :: 0 <= i < |table| ==>
      table[i].backend.Some? && table[i].backend.value.scheme != "" && table[i].backend.value.host != ""
  }

  // What every Handler that the gateway puts in service holds: both entrances,
  // the boot flags and the admin endpoint, ask for a scheme and a host.
  ghost predicate IsStored(b: Built) {
    WellFormed(b.table) && Addressed(b.table) && Backed(b.table) && b == Build(b.table)
  }

  lemma StoredIsWellFormed(routes: seq<Route>)
    requires Acceptable(routes)
    ensures WellFormed(StableSort(routes)) && Backed(StableSort(routes))
    ensures Addressed(routes) <==> Addressed(StableSort(routes))
  {
    StableSortCorrect(routes);
    AcceptanceIgnoresOrder(routes, StableSort(routes));
    AddressedIgnoresOrder(routes, StableSort(routes));
  }

  lemma AddressedIgnoresOrder(a: seq<Route>, b: seq<Route>)
    requires multiset(a) == multiset(b)
    ensures Addressed(a) <==> Addressed(b)
  {
    assert forall r :: r in a <==> r in multiset(a);
    assert forall r :: r in b <==> r in multiset(b);
    assert Addressed(a) <==> forall r :: r in a ==>
      r.backend.Some? && r.backend.value.scheme != "" && r.backend.value.host != "";
    assert Addressed(b) <==> forall r :: r in b ==>
      r.backend.Some? && r.backend.value.scheme != "" && r.backend.value.host != "";
  }

  // After a successful match the lookup is present and targets that route.
  lemma LookupFollowsMatch(table: seq<Route>, path: string)
    requires WellFormed(table) && Scan(table, path).Some?
    ensures var r := Scan(table, path).value;
            && r in table && r.backend.Some?
            && r.prefix in ProxyMap(table) && ProxyMap(table)[r.prefix] == r.backend.value
  {
    ScanWins(table, path);
    TwoIndexesAgree(table);
    var i :| 0 <= i < |table| && table[i] == Scan(table, path).value;
    assert Sound(table[i]);
  }

  // ---------- The Handler ----------

  // The header map of a request, of which one entry matters here.
  class Headers {
    var correlation: string

    constructor (c: string)
      ensures correlation == c
    {
      correlation := c;
    }
  }

  // `context` is the correlation ID in the request's context, "" when absent.
  datatype Request = Request(verb: string, path: string, context: string, header: Headers)

  const CORRELATION_HEADER := "X-Correlation-Id"  // the canonical form

  const NOT_FOUND_BODY := "{\"error\":\"no route matched\"}\n"

  function Json(): Call {
    Set("Content-Type", "application/json")
  }

  function NotFoundCalls(): (calls: seq<Call>)
    ensures FirstStatus(calls) == 404 && LastStamp(calls) == ""
    ensures Bodies(calls) == "{\"error\":\"no route matched\"}\n"
    ensures forall f :: SentFields(f, calls) == f["Content-Type" := ["application/json"]]
  {
    var calls := [Json(), Header(404), Body(NOT_FOUND_BODY)];
    ReplyReads(Json(), 404, NOT_FOUND_BODY);
    calls
  }

  // What a reply of one field, a status and a body says.
  lemma ReplyReads(field: Call, code: Status, text: string)
    requires field.Set?
    ensures var calls := [field, Header(code), Body(text)];
            && FirstStatus(calls) == code && LastStamp(calls) == "" && Bodies(calls) == text
            && forall f :: SentFields(f, calls) == Edit(f, field)
  {
    var calls := [field, Header(code), Body(text)];
    assert calls[..2] == [field, Header(code)] && calls[..2][..1] == [field] && calls[..2][..1][..0] == [];
    assert calls[1..] == [Header(code), Body(text)];
    assert LastStamp([field]) == LastStamp([]) && Bodies([field]) == Bodies([]);
    assert LastStamp(calls[..2]) == LastStamp([field]) && Bodies(calls[..2]) == Bodies([field]);
  }

  class Handler {
    const router: Router
    const proxies: map<string, Url>

    ghost predicate Valid()
      reads router.routes
    {
      router.Valid() && View() == Build(router.Table())
    }

    ghost function View(): Built
      reads router.routes
    {
      Built(router.Table(), proxies)
    }

    constructor Of(router: Router, proxies: map<string, Url>)
      ensures this.router == router && this.proxies == proxies
    {
      this.router, this.proxies := router, proxies;
    }

    // Match, stamp, propagate the correlation ID, dispatch. The result is the
    // backend whose proxy the request is handed to, `None` after a 404.
    method ServeHTTP(w: ResponseWriter, r: Request) returns (target: Option<Url>)
      requires Valid() && w.Valid()
      requires r.header !in w.Footprint() && router.routes !in w.Footprint()
      modifies w.Footprint(), r.header
      ensures Valid() && router.Table() == old(router.Table())
      ensures match Scan(router.Table(), r.path)
              case None =>
                && target == None && w.View() == Run(old(w.View()), NotFoundCalls())
                && r.header.correlation == old(r.header.correlation)
              case Some(route) =>
                && target.Some? && target == route.backend && w.View() == Do(old(w.View()), Stamp(route.prefix))
                && r.header.correlation == if r.context != "" then r.context else old(r.header.correlation)
    {
      var m := router.Match(r.path);
      if m.None? {
        NotFound(w);
        return None;
      }
      LookupFollowsMatch(router.Table(), r.path);
      var route := m.value;
      if w.IsRouteRecorder() {
        w.SetMatchedRoute(route.prefix);
      }
      if r.context != "" {
        r.header.correlation := r.context;
      }
      target := Some(proxies[route.prefix]);
    }
  }

  method NotFound(w: ResponseWriter)
    requires w.Valid()
    modifies w.Footprint()
    ensures w.View() == Run(old(w.View()), NotFoundCalls())
  {
    RunThree(w.View(), Json(), Header(404), Body(NOT_FOUND_BODY));
    w.SetField("Content-Type", "application/json");
    w.WriteHeader(404);
    w.Write(NOT_FOUND_BODY);
  }

  // `New`: `None` is the "router is required" error.
  method New(router: Router?) returns (h: Option<Handler>)
    requires router != null ==> router.Valid()
    ensures h.Some? <==> router != null
    ensures h.Some? ==> fresh(h.value) && h.value.router == router && h.value.Valid()
  {
    if router == null {
      return None;
    }
    var routes := router.Routes();
    var proxies: map<string, Url> := map[];
    for i := 0 to routes.Length
      invariant routes[..] == router.Table()
      invariant Backed(routes[..i]) && proxies == ProxyMap(routes[..i])
    {
      assert routes[..i + 1][..i] == routes[..i];
      assert Sound(router.Table()[i]);
      proxies := proxies[routes[i].prefix := routes[i].backend.value];
    }
    assert routes[..routes.Length] == routes[..];
    var handler := new Handler.Of(router, proxies);
    h := Some(handler);
  }

  // ---------- The Holder, one caller at a time ----------

  class Holder {
    var current: Handler

    ghost predicate Valid()
      reads this, current.router.routes
      ensures Valid() ==> Backed(current.View().table)
    {
      current.Valid()
    }

    constructor (initial: Handler)
      ensures current == initial
    {
      current := initial;
    }

    method ServeHTTP(w: ResponseWriter, r: Request) returns (target: Option<Url>)
      requires Valid() && w.Valid() && this !in w.Footprint() && this as object != r.header
      requires r.header !in w.Footprint() && current.router.routes !in w.Footprint()
      modifies w.Footprint(), r.header
      ensures current == old(current) && Valid() && current.View() == old(current.View())
      ensures match Scan(current.View().table, r.path)
              case None =>
                && target == None && w.View() == Run(old(w.View()), NotFoundCalls())
                && r.header.correlation == old(r.header.correlation)
              case Some(route) =>
                && target.Some? && target == route.backend && w.View() == Do(old(w.View()), Stamp(route.prefix))
                && r.header.correlation == if r.context != "" then r.context else old(r.header.correlation)
    {
      var cur := current;
      target := cur.ServeHTTP(w, r);
    }

    // Builds first, then swaps; a build error leaves the handler in place.
    method Replace(router: Router?) returns (ok: bool)
      requires router != null ==> router.Valid()
      modifies this
      ensures ok <==> router != null
      ensures ok ==> Valid() && fresh(current) && current.router == router && current.View() == Build(router.Table())
      ensures !ok ==> current == old(current)
    {
      var next := New(router);
      if next.None? {
        return false;
      }
      current := next.value;
      ok := true;
    }

    method Routes() returns (out: array<Route>)
      requires Valid()
      ensures fresh(out) && out[..] == current.View().table
    {
      var cur := current;
      out := cur.router.Routes();
    }
  }

  method NewHolder(initial: Router?) returns (h: Option<Holder>)
    requires initial != null ==> initial.Valid()
    ensures h.Some? <==> initial != null
    ensures h.Some? ==> fresh(h.value) && h.value.Valid() && h.value.current.View() == Build(initial.Table())
  {
    var handler := New(initial);
    if handler.None? {
      return None;
    }
    var holder := new Holder(handler.value);
    h := Some(holder);
  }
}
