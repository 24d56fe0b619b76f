/** `cmd/decision-gateway/routes.go`: the repeatable `--route=PREFIX=>BACKEND` flag. */
module RouteFlags {
  import opened Wrappers
  import opened Routing

  predicate ArrowAt(s: string, i: nat) {
    i + 2 <= |s| && s[i] == '=' && s[i + 1] == '>'
  }

  predicate HasArrow(s: string) {
    exists i :: 0 <= i < |s| && ArrowAt(s, i)
  }

  // The first occurrence of "=>".
  function ArrowIndex(s: string, from: nat): (r: Option<nat>)
    requires from <= |s|
    ensures r.Some? ==> from <= r.value && ArrowAt(s, r.value) && forall i :: from <= i < r.value ==> !ArrowAt(s, i)
    ensures r.None? ==> forall i :: from <= i < |s| ==> !ArrowAt(s, i)
    decreases |s| - from
  {
    if from == |s| then None
    else if ArrowAt(s, from) then Some(from)
    else ArrowIndex(s, from + 1)
  }

  function SplitArrow(spec: string): Option<(string, string)> {
    match ArrowIndex(spec, 0)
    case None => None
    case Some(i) => Some((spec[..i], spec[i + 2..]))
  }

  // Splitting and joining are inverse exactly on prefixes without an arrow,
  // even those that end in '='; a spec without an arrow does not split.
  lemma SplitIsUniqueJoin(spec: string, p: string, b: string)
    ensures SplitArrow(spec) == Some((p, b)) <==> spec == p + "=>" + b && !HasArrow(p)
    ensures SplitArrow(spec) == None <==> !HasArrow(spec)
  {
    var at := ArrowIndex(spec, 0);
    if spec == p + "=>" + b && !HasArrow(p) {
      assert ArrowAt(spec, |p|);
      forall i | 0 <= i < |p| ensures !ArrowAt(spec, i) {
        assert !ArrowAt(p, i);
        assert spec[i] == p[i] && (i + 1 < |p| ==> spec[i + 1] == p[i + 1]);
      }
      assert spec[..|p|] == p && spec[|p| + 2..] == b;
      assert at == Some(|p|);
    }
    if SplitArrow(spec) == Some((p, b)) {
      var i := at.value;
      assert [spec[i], spec[i + 1]] == "=>";
      assert spec == spec[..i] + [spec[i], spec[i + 1]] + spec[i + 2..];
      forall k | 0 <= k < |p| ensures !ArrowAt(p, k) {
        assert !ArrowAt(spec, k);
      }
    }
  }

  // A spec holds an arrow exactly when it is two texts joined by one.
  lemma ArrowMeans(s: string)
    ensures HasArrow(s) <==> exists a, b :: s == a + "=>" + b
  {
    if i :| 0 <= i < |s| && ArrowAt(s, i) {
      assert [s[i], s[i + 1]] == "=>";
      assert s == s[..i] + "=>" + s[i + 2..];
    }
    if a, b :| s == a + "=>" + b {
      assert ArrowAt(s, |a|);
    }
  }

  datatype FlagError =
    | NoSpecs
    | MissingArrow(spec: string)
    | PrefixEmpty(spec: string)
    | NoLeadingSlash(spec: string)
    | BadUrl(spec: string)
    | NoScheme(spec: string)
    | NoHost(spec: string)

  // One `--route` value; `parse` stands for url.Parse.
  function ParseSpec(parse: string -> Option<Url>, spec: string): Result<Route, FlagError> {
    match SplitArrow(spec)
    case None => Failure(MissingArrow(spec))
    case Some((prefix, backend)) =>
      if prefix == "" then Failure(PrefixEmpty(spec))
      else if !("/" <= prefix) then Failure(NoLeadingSlash(spec))
      else match parse(backend)
        case None => Failure(BadUrl(spec))
        case Some(u) =>
          if u.scheme == "" then Failure(NoScheme(spec))
          else if u.host == "" then Failure(NoHost(spec))
          else Success(Route(prefix, Some(u)))
  }

  // ---------- Which specs boot accepts, spelled out ----------

  // PREFIX=>BACKEND, split at the first arrow.
  ghost predicate Splits(spec: string, p: string, b: string) {
    spec == p + "=>" + b && forall x, y :: p != x + "=>" + y
  }

  ghost predicate IsGoodSpec(parse: string -> Option<Url>, spec: string) {
    exists p, b ::
      && Splits(spec, p, b) && "/" <= p
      && parse(b).Some? && parse(b).value.scheme != "" && parse(b).value.host != ""
  }

  // What is wrong with a spec that is refused.
  ghost predicate Names(parse: string -> Option<Url>, spec: string, e: FlagError) {
    match e
    case NoSpecs => false
    case MissingArrow(s) => s == spec && forall x, y :: spec != x + "=>" + y
    case PrefixEmpty(s) => s == spec && exists b :: spec == "=>" + b
    case NoLeadingSlash(s) => s == spec && exists p, b :: Splits(spec, p, b) && p != "" && !("/" <= p)
    case BadUrl(s) => s == spec && exists p, b :: Splits(spec, p, b) && "/" <= p && parse(b) == None
    case NoScheme(s) =>
      s == spec && exists p, b :: Splits(spec, p, b) && "/" <= p && parse(b).Some? && parse(b).value.scheme == ""
    case NoHost(s) =>
      s == spec && exists p, b ::
        Splits(spec, p, b) && "/" <= p && parse(b).Some? && parse(b).value.scheme != "" && parse(b).value.host == ""
  }

  lemma SplitsMeans(spec: string, p: string, b: string)
    ensures Splits(spec, p, b) <==> SplitArrow(spec) == Some((p, b))
  {
    ArrowMeans(p);
    SplitIsUniqueJoin(spec, p, b);
  }

  // One split at most, and none without an arrow.
  lemma SplitsOnce(spec: string)
    ensures SplitArrow(spec) == None <==> forall x, y :: spec != x + "=>" + y
    ensures forall p, b :: Splits(spec, p, b) <==> SplitArrow(spec) == Some((p, b))
  {
    ArrowMeans(spec);
    SplitIsUniqueJoin(spec, "", "");
    forall p, b ensures Splits(spec, p, b) <==> SplitArrow(spec) == Some((p, b)) {
      SplitsMeans(spec, p, b);
    }
  }

  lemma EmptyPrefixMeans(spec: string)
    ensures (exists b :: spec == "=>" + b) <==> exists b :: Splits(spec, "", b)
  {
    if b :| spec == "=>" + b {
      assert spec == "" + "=>" + b;
      assert Splits(spec, "", b);
    }
    if b :| Splits(spec, "", b) {
      assert spec == "=>" + b;
    }
  }

  // A spec is accepted exactly when it is good, and otherwise refused with the
  // one fault it has.
  lemma SpecIsJudged(parse: string -> Option<Url>, spec: string, e: FlagError)
    ensures ParseSpec(parse, spec).Success? <==> IsGoodSpec(parse, spec)
    ensures ParseSpec(parse, spec) == Failure(e) <==> Names(parse, spec, e)
  {
    SplitsOnce(spec);
    EmptyPrefixMeans(spec);
    if SplitArrow(spec).Some? {
      var (p, b) := SplitArrow(spec).value;
      assert Splits(spec, p, b);
    }
  }

  // Every spec turned into a route, in order, or the fault of the first bad one.
  ghost predicate Parses(parse: string -> Option<Url>, specs: seq<string>, r: Result<seq<Route>, FlagError>) {
    match r
    case Success(routes) =>
      && specs != [] && |routes| == |specs|
      && forall i :: 0 <= i < |specs| ==> ParseSpec(parse, specs[i]) == Success(routes[i])
    case Failure(e) =>
      || (specs == [] && e == NoSpecs)
      || exists i :: 0 <= i < |specs| && ParseSpec(parse, specs[i]) == Failure(e)
                     && forall k :: 0 <= k < i ==> ParseSpec(parse, specs[k]).Success?
  }

  // Success is for a non-empty list of good specs and nothing else, and an
  // error is what is wrong with the first bad one.
  ghost predicate Judged(parse: string -> Option<Url>, specs: seq<string>, r: Result<seq<Route>, FlagError>) {
    && (r.Success? <==> specs != [] && forall i :: 0 <= i < |specs| ==> IsGoodSpec(parse, specs[i]))
    && (r.Failure? ==> (specs == [] && r.error == NoSpecs) || exists i :: FirstBad(parse, specs, i, r.error))
  }

  ghost predicate FirstBad(parse: string -> Option<Url>, specs: seq<string>, i: nat, e: FlagError) {
    i < |specs| && Names(parse, specs[i], e) && forall k :: 0 <= k < i ==> IsGoodSpec(parse, specs[k])
  }

  lemma SpecsAreJudged(parse: string -> Option<Url>, specs: seq<string>, e: FlagError)
    ensures forall i :: 0 <= i < |specs| ==> (ParseSpec(parse, specs[i]).Success? <==> IsGoodSpec(parse, specs[i]))
    ensures forall i :: 0 <= i < |specs| ==> (ParseSpec(parse, specs[i]) == Failure(e) <==> Names(parse, specs[i], e))
  {
    forall i | 0 <= i < |specs|
      ensures ParseSpec(parse, specs[i]).Success? <==> IsGoodSpec(parse, specs[i])
      ensures ParseSpec(parse, specs[i]) == Failure(e) <==> Names(parse, specs[i], e)
    {
      SpecIsJudged(parse, specs[i], e);
    }
  }

  lemma FailsExactly(parse: string -> Option<Url>, specs: seq<string>, e: FlagError)
    ensures Parses(parse, specs, Failure(e)) <==>
            (specs == [] && e == NoSpecs) || exists i :: FirstBad(parse, specs, i, e)
  {
    SpecsAreJudged(parse, specs, e);
    if i :| 0 <= i < |specs| && ParseSpec(parse, specs[i]) == Failure(e)
            && forall k :: 0 <= k < i ==> ParseSpec(parse, specs[k]).Success? {
      assert FirstBad(parse, specs, i, e);
    }
  }

  lemma ParsesAreJudged(parse: string -> Option<Url>, specs: seq<string>)
    ensures forall r :: Parses(parse, specs, r) ==> Judged(parse, specs, r)
  {
    forall r | Parses(parse, specs, r) ensures Judged(parse, specs, r) {
      ParseIsJudged(parse, specs, r);
    }
  }

  // Whatever parsing returns is judged right, and what is judged right it
  // returns: together with its uniqueness this is all there is to boot.
  lemma ParseIsJudged(parse: string -> Option<Url>, specs: seq<string>, r: Result<seq<Route>, FlagError>)
    requires Parses(parse, specs, r)
    ensures Judged(parse, specs, r)
  {
    SpecsAreJudged(parse, specs, if r.Failure? then r.error else NoSpecs);
    if r.Failure? {
      FailsExactly(parse, specs, r.error);
    }
  }

  method ParseRouteFlags(parse: string -> Option<Url>, specs: seq<string>)
    returns (r: Result<seq<Route>, FlagError>)
    ensures Parses(parse, specs, r)
    ensures Judged(parse, specs, r)
  {
    ParsesAreJudged(parse, specs);
    if |specs| == 0 {
      return Failure(NoSpecs);
    }
    var routes: seq<Route> := [];
    for i := 0 to |specs|
      invariant |routes| == i
      invariant forall k :: 0 <= k < i ==> ParseSpec(parse, specs[k]) == Success(routes[k])
    {
      var spec := specs[i];
      var split := SplitArrow(spec);
      if split.None? {
        return Failure(MissingArrow(spec));
      }
      var (prefix, backendSpec) := split.value;
      if prefix == "" {
        return Failure(PrefixEmpty(spec));
      }
      if !("/" <= prefix) {
        return Failure(NoLeadingSlash(spec));
      }
      var backend := parse(backendSpec);
      if backend.None? {
        return Failure(BadUrl(spec));
      }
      if backend.value.scheme == "" {
        return Failure(NoScheme(spec));
      }
      if backend.value.host == "" {
        return Failure(NoHost(spec));
      }
      routes := routes + [Route(prefix, backend)];
    }
    r := Success(routes);
  }

  // Parsing has one outcome only.
  lemma ParsesDetermined(parse: string -> Option<Url>, specs: seq<string>,
                         r: Result<seq<Route>, FlagError>, q: Result<seq<Route>, FlagError>)
    requires Parses(parse, specs, r) && Parses(parse, specs, q)
    ensures r == q
  {
    if r.Success? && q.Success? {
      forall i | 0 <= i < |specs| ensures r.value[i] == q.value[i] {
        assert ParseSpec(parse, specs[i]) == Success(r.value[i]);
      }
      assert r.value == q.value;
    }
  }

  // Every accepted spec reads back as PREFIX, the arrow, and a text that
  // parses to the backend, and the prefix holds no arrow itself; the list then
  // passes validation unless two prefixes are equal.
  lemma ParsedRoutes(parse: string -> Option<Url>, specs: seq<string>, routes: seq<Route>)
    requires Parses(parse, specs, Success(routes))
    ensures forall i :: 0 <= i < |routes| ==>
              && "/" <= routes[i].prefix && Sound(routes[i])
              && routes[i].backend.value.scheme != "" && routes[i].backend.value.host != ""
              && exists b :: specs[i] == routes[i].prefix + "=>" + b && parse(b) == routes[i].backend
    ensures forall i :: 0 <= i < |routes| ==> !HasArrow(routes[i].prefix)
    ensures Acceptable(routes) <==> Distinct(routes)
    ensures Validate(routes).Some? ==> Validate(routes).value.Duplicate?
  {
    forall i | 0 <= i < |routes|
      ensures "/" <= routes[i].prefix && Sound(routes[i]) && !HasArrow(routes[i].prefix)
      ensures routes[i].backend.value.scheme != "" && routes[i].backend.value.host != ""
      ensures exists b :: specs[i] == routes[i].prefix + "=>" + b && parse(b) == routes[i].backend
    {
      assert ParseSpec(parse, specs[i]) == Success(routes[i]);
      var (p, b) := SplitArrow(specs[i]).value;
      SplitIsUniqueJoin(specs[i], p, b);
      assert specs[i] == routes[i].prefix + "=>" + b;
    }
    if Validate(routes).Some? {
      ValidateReportsFirstFault(routes, Validate(routes).value);
    }
    ValidateReportsFirstFault(routes, NoRoutes);
  }

  // The flag's value: every occurrence is appended.
  class RouteFlagList {
    var specs: seq<string>

    constructor ()
      ensures specs == []
    {
      specs := [];
    }

    method Set(v: string)
      modifies this
      ensures specs == old(specs) + [v]
    {
      specs := specs + [v];
    }
  }
}
