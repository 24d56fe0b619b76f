/** `internal/httpapi/routes_admin.go`: reading and replacing the route table. */
module RoutesAdmin {
  import opened Wrappers
  import opened Routing
  import opened Router
  import opened WriterStack
  import opened ResponseWriters
  import opened Proxy

  datatype RouteSpec = RouteSpec(prefix: string, backend: string)

  // Why the endpoint answers with an error.
  datatype Refusal =
    | MalformedBody
    | EmptyList
    | BadBackend(text: string)
    | Invalid(fault: Fault)
    | MethodNotAllowed

  // Library code the endpoint relies on: url.Parse and URL.String, and the
  // JSON text of a table and of an error.
  datatype Codec = Codec(
    parse: string -> Option<Url>,
    show: Url -> string,
    listing: seq<RouteSpec> -> string,
    error: Refusal -> string)

  // ---------- What a POST body asks for ----------

  datatype Plan = Refuse(reason: Refusal) | Install(routes: seq<Route>)

  // Backends are parsed in order; the first unusable one is reported.
  function ToRoutes(codec: Codec, specs: seq<RouteSpec>): Result<seq<Route>, string> {
    if specs == [] then Success([])
    else
      var last := specs[|specs| - 1];
      match ToRoutes(codec, specs[..|specs| - 1])
      case Failure(bad) => Failure(bad)
      case Success(routes) =>
        var u := codec.parse(last.backend);
        if u.None? || u.value.scheme == "" || u.value.host == "" then Failure(last.backend)
        else Success(routes + [Route(last.prefix, u)])
  }

  // `None` is a body that does not decode.
  function PlanPost(codec: Codec, body: Option<seq<RouteSpec>>): Plan {
    if body.None? then Refuse(MalformedBody)
    else if body.value == [] then Refuse(EmptyList)
    else match ToRoutes(codec, body.value)
      case Failure(bad) => Refuse(BadBackend(bad))
      case Success(routes) =>
        match Validate(routes)
        case Some(f) => Refuse(Invalid(f))
        case None => Install(routes)
  }

  // `routes` is `specs`, entry by entry, with every backend parsed and usable.
  ghost predicate Denotes(codec: Codec, specs: seq<RouteSpec>, routes: seq<Route>) {
    && |routes| == |specs|
    && forall i :: 0 <= i < |specs| ==>
         && routes[i].prefix == specs[i].prefix
         && routes[i].backend == codec.parse(specs[i].backend)
         && routes[i].backend.Some? && routes[i].backend.value.scheme != "" && routes[i].backend.value.host != ""
  }

  lemma {:induction false} ToRoutesMeaning(codec: Codec, specs: seq<RouteSpec>, routes: seq<Route>)
    ensures ToRoutes(codec, specs) == Success(routes) <==> Denotes(codec, specs, routes)
  {
    if specs != [] {
      var front := specs[..|specs| - 1];
      match ToRoutes(codec, front) {
        case Success(fronts) =>
          ToRoutesMeaning(codec, front, fronts);
          if Denotes(codec, specs, routes) {
            ToRoutesMeaning(codec, front, routes[..|front|]);
            assert routes == fronts + [routes[|front|]];
          }
        case Failure(_) =>
          if Denotes(codec, specs, routes) {
            ToRoutesMeaning(codec, front, routes[..|front|]);
          }
      }
    }
  }

  // A POST is installed exactly when the body decodes, lists at least one
  // route, every backend is usable and the prefixes are non-empty and distinct.
  lemma InstallsExactlyValidBodies(codec: Codec, body: Option<seq<RouteSpec>>, routes: seq<Route>)
    ensures PlanPost(codec, body) == Install(routes) <==>
            && body.Some? && body.value != [] && Denotes(codec, body.value, routes)
            && (forall i :: 0 <= i < |routes| ==> routes[i].prefix != "")
            && Distinct(routes)
    ensures PlanPost(codec, body) == Install(routes) ==> Acceptable(routes)
  {
    if body.Some? {
      ToRoutesMeaning(codec, body.value, routes);
      ValidateReportsFirstFault(routes, NoRoutes);
    }
  }

  // ---------- What a refused body is refused for ----------

  // The text parses to a URL that names a scheme and a host.
  ghost predicate HasAddress(codec: Codec, backend: string) {
    var u := codec.parse(backend);
    u.Some? && u.value.scheme != "" && u.value.host != ""
  }

  // Entry `i` is the first whose backend cannot be used, and `text` is that
  // backend.
  ghost predicate FirstUnusable(codec: Codec, specs: seq<RouteSpec>, i: nat, text: string) {
    && i < |specs| && specs[i].backend == text && !HasAddress(codec, text)
    && forall k :: 0 <= k < i ==> HasAddress(codec, specs[k].backend)
  }

  ghost predicate Rejects(codec: Codec, body: Option<seq<RouteSpec>>, reason: Refusal) {
    match reason
    case MalformedBody => body == None
    case EmptyList => body == Some([])
    case BadBackend(text) => body.Some? && exists i :: FirstUnusable(codec, body.value, i, text)
    case Invalid(f) =>
      body.Some? && body.value != [] && exists routes :: Denotes(codec, body.value, routes) && Reports(routes, f)
    case MethodNotAllowed => false
  }

  lemma {:induction false} ToRoutesFault(codec: Codec, specs: seq<RouteSpec>) returns (i: nat)
    ensures match ToRoutes(codec, specs)
            case Failure(text) => FirstUnusable(codec, specs, i, text)
            case Success(_) => i == |specs|
  {
    i := 0;
    if specs != [] {
      var front := specs[..|specs| - 1];
      i := ToRoutesFault(codec, front);
      assert forall k :: 0 <= k < |front| ==> front[k] == specs[k];
      match ToRoutes(codec, front) {
        case Failure(_) =>
        case Success(routes) =>
          ToRoutesMeaning(codec, front, routes);
          if ToRoutes(codec, specs).Success? {
            i := |specs|;
          }
      }
    }
  }

  // The loop fails exactly when some backend is unusable, with the text of the
  // first such backend.
  lemma ToRoutesRefusal(codec: Codec, specs: seq<RouteSpec>, text: string)
    ensures ToRoutes(codec, specs) == Failure(text) <==> exists i :: FirstUnusable(codec, specs, i, text)
  {
    if ToRoutes(codec, specs).Failure? {
      var j := ToRoutesFault(codec, specs);
      if i :| FirstUnusable(codec, specs, i, text) {
        assert i == j;
      }
    } else {
      ToRoutesMeaning(codec, specs, ToRoutes(codec, specs).value);
    }
  }

  lemma DenotesDetermined(codec: Codec, specs: seq<RouteSpec>, a: seq<Route>, b: seq<Route>)
    requires Denotes(codec, specs, a) && Denotes(codec, specs, b)
    ensures a == b
  {
    forall i | 0 <= i < |a| ensures a[i] == b[i] {}
  }

  // A POST is refused exactly for the reason that applies: the body does not
  // decode, is empty, names an unusable backend first, or denotes a list whose
  // first fault is the one reported.
  lemma RefusesExactly(codec: Codec, body: Option<seq<RouteSpec>>, reason: Refusal)
    ensures PlanPost(codec, body) == Refuse(reason) <==> Rejects(codec, body, reason)
  {
    if body.Some? && body.value != [] {
      if reason.BadBackend? {
        ToRoutesRefusal(codec, body.value, reason.text);
      } else if reason.Invalid? {
        RefusesFault(codec, body.value, reason.fault);
      }
    } else if body.Some? && reason.BadBackend? {
      assert forall i :: !FirstUnusable(codec, body.value, i, reason.text);
    }
  }

  lemma RefusesFault(codec: Codec, specs: seq<RouteSpec>, f: Fault)
    requires specs != []
    ensures PlanPost(codec, Some(specs)) == Refuse(Invalid(f)) <==> Rejects(codec, Some(specs), Invalid(f))
  {
    if ToRoutes(codec, specs).Success? {
      var routes := ToRoutes(codec, specs).value;
      ToRoutesMeaning(codec, specs, routes);
      ValidateReportsFirstFault(routes, f);
      if other :| Denotes(codec, specs, other) && Reports(other, f) {
        DenotesDetermined(codec, specs, routes, other);
      }
    } else if other :| Denotes(codec, specs, other) && Reports(other, f) {
      ToRoutesMeaning(codec, specs, other);
    }
  }

  // ---------- Valid bodies, spelled out ----------

  // At least one entry; non-empty, distinct prefixes; and every backend parses
  // to a URL with a scheme and a host.
  ghost predicate IsValidBody(codec: Codec, body: Option<seq<RouteSpec>>) {
    && body.Some? && body.value != []
    && (forall i :: 0 <= i < |body.value| ==>
          var spec, u := body.value[i], codec.parse(body.value[i].backend);
          spec.prefix != "" && u.Some? && u.value.scheme != "" && u.value.host != "")
    && (forall i, j :: 0 <= i < j < |body.value| ==> body.value[i].prefix != body.value[j].prefix)
  }

  // The routes a body lists, in its order.
  ghost function Listed(codec: Codec, specs: seq<RouteSpec>): seq<Route> {
    seq(|specs|, i requires 0 <= i < |specs| => Route(specs[i].prefix, codec.parse(specs[i].backend)))
  }

  // Exactly the valid bodies are installed, and what is installed is the stable
  // sort of what they list.
  lemma InstalledIffValid(codec: Codec, body: Option<seq<RouteSpec>>)
    ensures PlanPost(codec, body).Install? <==> IsValidBody(codec, body)
    ensures Installed(codec, body).Some? <==> IsValidBody(codec, body)
    ensures IsValidBody(codec, body) ==> Installed(codec, body).value.table == StableSort(Listed(codec, body.value))
  {
    if body.Some? {
      InstallsExactlyValidBodies(codec, body, Listed(codec, body.value));
      var plan := PlanPost(codec, body);
      if plan.Install? {
        InstallsExactlyValidBodies(codec, body, plan.routes);
        DenotesListed(codec, body.value, plan.routes);
      }
    }
  }

  lemma DenotesListed(codec: Codec, specs: seq<RouteSpec>, routes: seq<Route>)
    requires Denotes(codec, specs, routes) && Distinct(routes)
    ensures routes == Listed(codec, specs)
    ensures forall i, j :: 0 <= i < j < |specs| ==> specs[i].prefix != specs[j].prefix
  {
    forall i, j | 0 <= i < j < |specs| ensures specs[i].prefix != specs[j].prefix {
      assert routes[i].prefix != routes[j].prefix;
    }
  }

  // A backend is refused exactly when it is the first that does not parse, has
  // no scheme, or has no host.
  lemma RefusedBackend(codec: Codec, specs: seq<RouteSpec>, text: string)
    ensures PlanPost(codec, Some(specs)) == Refuse(BadBackend(text)) <==>
            exists i :: && 0 <= i < |specs| && specs[i].backend == text
                        && (var u := codec.parse(text); u.None? || u.value.scheme == "" || u.value.host == "")
                        && forall k :: 0 <= k < i ==>
                             var v := codec.parse(specs[k].backend); v.Some? && v.value.scheme != "" && v.value.host != ""
  {
    ToRoutesRefusal(codec, specs, text);
    if i :| 0 <= i < |specs| && FirstUnusable(codec, specs, i, text) {
      assert forall k :: 0 <= k < i ==> HasAddress(codec, specs[k].backend);
    }
    forall i | && 0 <= i < |specs| && specs[i].backend == text
               && (var u := codec.parse(text); u.None? || u.value.scheme == "" || u.value.host == "")
               && forall k :: 0 <= k < i ==>
                    var v := codec.parse(specs[k].backend); v.Some? && v.value.scheme != "" && v.value.host != ""
      ensures FirstUnusable(codec, specs, i, text)
    {
      assert forall k :: 0 <= k < i ==> HasAddress(codec, specs[k].backend);
    }
  }

  // ---------- The leading slash ----------

  predicate AllSlashedSpecs(specs: seq<RouteSpec>) {
    forall i :: 0 <= i < |specs| ==> "/" <= specs[i].prefix
  }

  // The leading slash that the boot flags insist on is not asked of a POST: the
  // table installed has it throughout exactly when the body does.
  lemma SlashFollowsBody(codec: Codec, body: Option<seq<RouteSpec>>, routes: seq<Route>)
    requires PlanPost(codec, body) == Install(routes)
    ensures body.Some? && (AllSlashed(StableSort(routes)) <==> AllSlashedSpecs(body.value))
  {
    InstallsExactlyValidBodies(codec, body, routes);
    StableSortCorrect(routes);
    SlashedIgnoresOrder(routes, StableSort(routes));
  }

  // A body that breaks it: one route without the slash is installed.
  lemma SlashIsNotEnforced(codec: Codec, prefix: string, backend: string)
    requires prefix != "" && !("/" <= prefix) && HasAddress(codec, backend)
    ensures PlanPost(codec, Some([RouteSpec(prefix, backend)])) == Install([Route(prefix, codec.parse(backend))])
    ensures !AllSlashed(StableSort([Route(prefix, codec.parse(backend))]))
  {
    var body := [RouteSpec(prefix, backend)];
    var routes := [Route(prefix, codec.parse(backend))];
    assert Denotes(codec, body, routes);
    InstallsExactlyValidBodies(codec, Some(body), routes);
    SlashFollowsBody(codec, Some(body), routes);
    assert !("/" <= body[0].prefix);
  }

  // ---------- Replies ----------

  function ErrorCalls(codec: Codec, code: Status, reason: Refusal): (calls: seq<Call>)
    ensures FirstStatus(calls) == code && LastStamp(calls) == "" && Bodies(calls) == codec.error(reason)
    ensures forall f :: SentFields(f, calls) == f["Content-Type" := ["application/json"]]
  {
    ReplyReads(Json(), code, codec.error(reason));
    [Json(), Header(code), Body(codec.error(reason))]
  }

  // The 405 also names the methods that are served.
  function Allow(): Call {
    Set("Allow", "GET, POST")
  }

  function NotAllowedCalls(codec: Codec): (calls: seq<Call>)
    ensures FirstStatus(calls) == 405 && LastStamp(calls) == "" && Bodies(calls) == codec.error(MethodNotAllowed)
    ensures forall f :: SentFields(f, calls) == f["Allow" := ["GET, POST"]]["Content-Type" := ["application/json"]]
  {
    var error := ErrorCalls(codec, 405, MethodNotAllowed);
    var calls := [Allow()] + error;
    assert calls[1..] == error;
    BodiesAfter(Allow(), error);
    calls
  }

  lemma {:induction false} BodiesAfter(field: Call, calls: seq<Call>)
    requires field.Set?
    ensures Bodies([field] + calls) == Bodies(calls) && LastStamp([field] + calls) == LastStamp(calls)
  {
    if calls == [] {
      assert [field] + calls == [field] && [field][..0] == [];
      assert Bodies([field]) == Bodies([]) && LastStamp([field]) == LastStamp([]);
    } else {
      BodiesAfter(field, calls[..|calls| - 1]);
      assert ([field] + calls)[..|calls|] == [field] + calls[..|calls| - 1];
    }
  }

  // Every table in service has its backends; the empty text is never listed.
  function Listing(codec: Codec, table: seq<Route>): seq<RouteSpec> {
    seq(|table|, i requires 0 <= i < |table| =>
      RouteSpec(table[i].prefix, if table[i].backend.Some? then codec.show(table[i].backend.value) else ""))
  }

  function TableCalls(codec: Codec, table: seq<Route>): (calls: seq<Call>)
    ensures FirstStatus(calls) == 200 && LastStamp(calls) == "" && Bodies(calls) == codec.listing(Listing(codec, table))
    ensures forall f :: SentFields(f, calls) == f["Content-Type" := ["application/json"]]
  {
    var text := codec.listing(Listing(codec, table));
    var calls := [Json(), Body(text)];
    assert calls[..1] == [Json()] && calls[..1][..0] == [] && calls[1..] == [Body(text)];
    assert LastStamp([Json()]) == LastStamp([]) && Bodies([Json()]) == Bodies([]);
    calls
  }

  // The handler that a POST puts in place, `None` when it is refused.
  function Installed(codec: Codec, body: Option<seq<RouteSpec>>): Option<Built> {
    match PlanPost(codec, body)
    case Refuse(_) => None
    case Install(routes) =>
      InstallsExactlyValidBodies(codec, body, routes);
      StoredIsWellFormed(routes);
      Some(Build(StableSort(routes)))
  }

  lemma InstalledIsStored(codec: Codec, body: Option<seq<RouteSpec>>)
    ensures Installed(codec, body).Some? ==> IsStored(Installed(codec, body).value)
  {
    if Installed(codec, body).Some? {
      var routes := PlanPost(codec, body).routes;
      InstallsExactlyValidBodies(codec, body, routes);
      StoredIsWellFormed(routes);
      assert Addressed(routes);
    }
  }

  // What serves after a POST to a gateway that served `was`.
  function Posted(codec: Codec, body: Option<seq<RouteSpec>>, was: Built): Built {
    var installed := Installed(codec, body);
    if installed.Some? then installed.value else was
  }

  lemma PostedIsStored(codec: Codec, body: Option<seq<RouteSpec>>, was: Built)
    ensures IsStored(was) ==> IsStored(Posted(codec, body, was))
  {
    InstalledIsStored(codec, body);
  }

  // The reply of the endpoint; a successful POST lists the table it reads back.
  function AdminReply(codec: Codec, verb: string, body: Option<seq<RouteSpec>>, now: seq<Route>): seq<Call> {
    if verb == "GET" then TableCalls(codec, now)
    else if verb != "POST" then NotAllowedCalls(codec)
    else match PlanPost(codec, body)
      case Refuse(reason) => ErrorCalls(codec, 400, reason)
      case Install(_) => TableCalls(codec, now)
  }

  // Printing a listed backend and parsing it again gives it back.
  ghost predicate PrintsBack(codec: Codec, table: seq<Route>) {
    forall i :: 0 <= i < |table| && table[i].backend.Some? ==>
      codec.parse(codec.show(table[i].backend.value)) == table[i].backend
  }

  // Posting back what a GET reports of a table in service builds the very same
  // handler: the same sequence and the same map.
  lemma RepostIsIdentity(codec: Codec, b: Built)
    requires IsStored(b) && PrintsBack(codec, b.table)
    ensures PlanPost(codec, Some(Listing(codec, b.table))) == Install(b.table)
    ensures Installed(codec, Some(Listing(codec, b.table))) == Some(b)
  {
    var table := b.table;
    forall i | 0 <= i < |table| ensures table[i].prefix != "" {
      assert Sound(table[i]);
    }
    assert Denotes(codec, Listing(codec, table), table);
    InstallsExactlyValidBodies(codec, Some(Listing(codec, table)), table);
    SortedIsFixed(table);
  }

  // Hence such a POST leaves a gateway that serves `was` as it is.
  lemma RepostKeeps(codec: Codec, body: Option<seq<RouteSpec>>, was: Built)
    requires IsStored(was) && PrintsBack(codec, was.table) && body == Some(Listing(codec, was.table))
    ensures Posted(codec, body, was) == was
  {
    RepostIsIdentity(codec, was);
  }

  method WriteError(codec: Codec, w: ResponseWriter, code: Status, reason: Refusal)
    requires w.Valid()
    modifies w.Footprint()
    ensures w.View() == Run(old(w.View()), ErrorCalls(codec, code, reason))
  {
    RunThree(w.View(), Json(), Header(code), Body(codec.error(reason)));
    w.SetField("Content-Type", "application/json");
    w.WriteHeader(code);
    w.Write(codec.error(reason));
  }

  method WriteRoutes(codec: Codec, w: ResponseWriter, routes: array<Route>)
    requires w.Valid() && Backed(routes[..])
    modifies w.Footprint()
    ensures w.View() == Run(old(w.View()), TableCalls(codec, old(routes[..])))
  {
    var out: seq<RouteSpec> := [];
    for i := 0 to routes.Length
      invariant out == Listing(codec, routes[..])[..i]
    {
      out := out + [RouteSpec(routes[i].prefix, codec.show(routes[i].backend.value))];
    }
    assert out == Listing(codec, routes[..]);
    RunTwo(w.View(), Json(), Body(codec.listing(out)));
    w.SetField("Content-Type", "application/json");
    w.Write(codec.listing(out));
  }

  // Once a prefix of the body holds a bad backend, so does the whole body.
  lemma {:induction false} FirstBadBackend(codec: Codec, specs: seq<RouteSpec>, n: nat)
    requires n <= |specs| && ToRoutes(codec, specs[..n]).Failure?
    ensures ToRoutes(codec, specs) == ToRoutes(codec, specs[..n])
    decreases |specs|
  {
    if n == |specs| {
      assert specs[..n] == specs;
    } else {
      assert specs[..|specs| - 1][..n] == specs[..n];
      FirstBadBackend(codec, specs[..|specs| - 1], n);
    }
  }

  // The loop over the body: stops at the first backend that does not parse or
  // lacks a scheme or a host.
  method CollectRoutes(codec: Codec, specs: seq<RouteSpec>) returns (r: Result<seq<Route>, string>)
    ensures r == ToRoutes(codec, specs)
    ensures r.Success? ==> Denotes(codec, specs, r.value)
    ensures r.Failure? ==> exists i :: FirstUnusable(codec, specs, i, r.error)
  {
    ToRoutesRefusal(codec, specs, if ToRoutes(codec, specs).Failure? then ToRoutes(codec, specs).error else "");
    if ToRoutes(codec, specs).Success? {
      ToRoutesMeaning(codec, specs, ToRoutes(codec, specs).value);
    }
    var routes: seq<Route> := [];
    for i := 0 to |specs|
      invariant ToRoutes(codec, specs[..i]) == Success(routes)
    {
      var u := codec.parse(specs[i].backend);
      assert specs[..i + 1][..i] == specs[..i];
      if u.None? || u.value.scheme == "" || u.value.host == "" {
        FirstBadBackend(codec, specs, i + 1);
        return Failure(specs[i].backend);
      }
      routes := routes + [Route(specs[i].prefix, u)];
    }
    assert specs[..|specs|] == specs;
    r := Success(routes);
  }

  // The validation pipeline of a POST: decode, parse, validate and build.
  method DecodeRouter(codec: Codec, body: Option<seq<RouteSpec>>) returns (r: Result<Router, Refusal>)
    ensures match PlanPost(codec, body)
            case Refuse(reason) => r == Failure(reason) && Rejects(codec, body, reason)
            case Install(routes) =>
              && r.Success? && fresh(r.value) && fresh(r.value.routes)
              && r.value.Valid() && r.value.Table() == Installed(codec, body).value.table
  {
    if body.None? {
      return Failure(MalformedBody);
    }
    var specs := body.value;
    if |specs| == 0 {
      return Failure(EmptyList);
    }
    var collected := CollectRoutes(codec, specs);
    if collected.Failure? {
      return Failure(BadBackend(collected.error));
    }
    var routes := collected.value;
    var given := new Route[|routes|](k requires 0 <= k < |routes| => routes[k]);
    assert given[..] == routes;
    ValidateReportsFirstFault(routes, NoRoutes);
    var router := NewRouter(given);
    match router {
      case Failure(f) => r := Failure(Invalid(f));
      case Success(built) => r := Success(built);
    }
  }

  // The end of a POST whose router was built.
  method SwapAndReply(codec: Codec, w: ResponseWriter, router: Router, h: Holder)
    requires router.Valid() && w.Valid() && h !in w.Footprint() && router.routes !in w.Footprint()
    requires Backed(router.Table())
    modifies h, w.Footprint()
    ensures router.Table() == old(router.Table())
    ensures h.Valid() && h.current.View() == Build(router.Table())
    ensures w.View() == Run(old(w.View()), TableCalls(codec, router.Table()))
  {
    var ok := h.Replace(router);
    if !ok {
      assert false;  // the 500 branch: Replace only fails without a router
    }
    var now := h.Routes();
    WriteRoutes(codec, w, now);
  }

  // Replaces the whole table, or leaves the old one serving; `RepostKeeps` says
  // which body replaces it by itself. The reply of a successful POST is read
  // back from the holder.
  method PostRoutes(codec: Codec, w: ResponseWriter, body: Option<seq<RouteSpec>>, h: Holder)
    requires h.Valid() && w.Valid() && h !in w.Footprint() && h.current.router.routes !in w.Footprint()
    modifies h, w.Footprint()
    ensures !IsValidBody(codec, body) ==> h.current == old(h.current)
    ensures IsValidBody(codec, body) ==> h.current.View().table == StableSort(Listed(codec, body.value))
    ensures h.Valid() && h.current.View() == Posted(codec, body, old(h.current.View()))
    ensures w.View() == Run(old(w.View()), AdminReply(codec, "POST", body, h.current.View().table))
  {
    InstalledIffValid(codec, body);
    var built := DecodeRouter(codec, body);
    match built {
      case Failure(reason) =>
        WriteError(codec, w, 400, reason);
      case Success(router) =>
        SwapAndReply(codec, w, router, h);
    }
  }

  // The endpoint: GET lists, POST replaces, anything else is refused with 405.
  method ServeAdmin(codec: Codec, w: ResponseWriter, verb: string, body: Option<seq<RouteSpec>>, h: Holder)
    requires h.Valid() && w.Valid() && h !in w.Footprint() && h.current.router.routes !in w.Footprint()
    modifies h, w.Footprint()
    ensures verb != "POST" || !IsValidBody(codec, body) ==> h.current == old(h.current)
    ensures h.Valid()
    ensures h.current.View() == if verb == "POST" then Posted(codec, body, old(h.current.View())) else old(h.current.View())
    ensures w.View() == Run(old(w.View()), AdminReply(codec, verb, body, h.current.View().table))
  {
    if verb == "GET" {
      var now := h.Routes();
      WriteRoutes(codec, w, now);
    } else if verb == "POST" {
      PostRoutes(codec, w, body, h);
    } else {
      ghost var was := w.View();
      w.SetField("Allow", "GET, POST");
      ghost var error := ErrorCalls(codec, 405, MethodNotAllowed);
      assert ([Allow()] + error)[1..] == error;
      assert Run(was, [Allow()] + error) == Run(Do(was, Allow()), error);
      WriteError(codec, w, 405, MethodNotAllowed);
    }
  }
}
