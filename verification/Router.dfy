/** `internal/gateway`: the Router object, built, scanned and copied in place. */
module Router {
  import opened Wrappers
  import opened Routing

  // In-place stable sort by prefix length, descending: the slice holds the
  // sorted front, and each entry in turn moves left over shorter prefixes.
  method SortStable(a: array<Route>)
    modifies a
    ensures a[..] == StableSort(old(a[..]))
  {
    ghost var was := a[..];
    for i := 0 to a.Length
      invariant a[..i] == StableSort(was[..i])
      invariant a[i..] == was[i..]
    {
      assert a[i] == a[i..][0] == was[i] && a[i + 1..] == a[i..][1..] == was[i..][1..] == was[i + 1..];
      SortOneMore(was, i);
      SiftLeft(a, i);
    }
    assert a[..a.Length] == a[..] && was[..a.Length] == was;
  }

  lemma SortOneMore(s: seq<Route>, i: nat)
    requires i < |s|
    ensures StableSort(s[..i + 1]) == Insert(StableSort(s[..i]), s[i])
  {
    assert s[..i + 1][..i] == s[..i];
  }

  // Where a new entry ends up: after everything at least as long, before what
  // is shorter.
  lemma {:induction false} InsertAt(front: seq<Route>, r: Route, j: nat)
    requires j <= |front|
    requires forall k :: j <= k < |front| ==> |front[k].prefix| < |r.prefix|
    requires j > 0 ==> |front[j - 1].prefix| >= |r.prefix|
    ensures Insert(front, r) == front[..j] + [r] + front[j..]
  {
    if j < |front| {
      var shorter := front[..|front| - 1];
      InsertAt(shorter, r, j);
      assert shorter[..j] == front[..j];
      assert shorter[j..] + [front[|front| - 1]] == front[j..];
    }
  }

  lemma Spliced(s: seq<Route>, front: seq<Route>, r: Route, j: nat)
    requires j <= |front| && |s| == |front| + 1 && s[j] == r
    requires forall k :: 0 <= k < j ==> s[k] == front[k]
    requires forall k :: j < k < |s| ==> s[k] == front[k - 1]
    ensures s == front[..j] + [r] + front[j..]
  {}

  method SiftLeft(a: array<Route>, i: nat)
    requires i < a.Length
    modifies a
    ensures a[..i + 1] == Insert(old(a[..i]), old(a[i]))
    ensures a[i + 1..] == old(a[i + 1..])
  {
    var r := a[i];
    ghost var front := a[..i];
    var j := i;
    while 0 < j && |a[j - 1].prefix| < |r.prefix|
      invariant 0 <= j <= i
      invariant forall k :: 0 <= k < j ==> a[k] == front[k]
      invariant forall k :: j < k <= i ==> a[k] == front[k - 1]
      invariant forall k :: i < k < a.Length ==> a[k] == old(a[k])
      invariant forall k :: j <= k < i ==> |front[k].prefix| < |r.prefix|
    {
      a[j] := a[j - 1];
      j := j - 1;
    }
    a[j] := r;
    Spliced(a[..i + 1], front, r, j);
    InsertAt(front, r, j);
  }

  class Router {
    const routes: array<Route>

    // The stored table.
    ghost function Table(): seq<Route>
      reads routes
    {
      routes[..]
    }

    // What every router returned by NewRouter satisfies.
    ghost predicate Valid()
      reads routes
    {
      WellFormed(Table())
    }

    constructor Sorted(given: array<Route>)
      requires Acceptable(given[..])
      ensures fresh(routes)
      ensures Table() == StableSort(given[..])
      ensures Valid()
    {
      var sorted := new Route[given.Length](k requires 0 <= k < given.Length reads given => given[k]);
      assert sorted[..] == given[..];
      SortStable(sorted);
      StableSortCorrect(given[..]);
      AcceptanceIgnoresOrder(given[..], StableSort(given[..]));
      routes := sorted;
    }

    method Match(path: string) returns (m: Option<Route>)
      requires Valid()
      ensures m == Scan(Table(), path)
      ensures m == None <==> forall r :: r in Table() ==> !(r.prefix <= path)
      ensures m.Some? ==>
                && m.value in Table() && m.value.prefix <= path
                && forall r :: r in Table() && r.prefix <= path ==> |r.prefix| <= |m.value.prefix|
    {
      StoredTableSelects(Table(), path);
      for k := 0 to routes.Length
        invariant Scan(Table(), path) == Scan(Table()[k..], path)
      {
        if routes[k].prefix <= path {
          return Some(routes[k]);
        }
        assert Table()[k..][1..] == Table()[k + 1..];
      }
      m := None;
    }

    // A defensive copy: the caller may change it without touching the router.
    method Routes() returns (out: array<Route>)
      ensures fresh(out) && out[..] == Table()
    {
      out := new Route[routes.Length](k requires 0 <= k < routes.Length reads routes => routes[k]);
    }
  }

  // Validates, then copies and sorts. The caller's slice is left untouched and
  // is not shared with the router.
  method NewRouter(given: array<Route>) returns (r: Result<Router, Fault>)
    ensures r.Success? <==>
              && given.Length != 0
              && (forall i :: 0 <= i < given.Length ==> given[i].prefix != "" && given[i].backend != None)
              && forall i, j :: 0 <= i < j < given.Length ==> given[i].prefix != given[j].prefix
    ensures r.Success? <==> Acceptable(given[..])
    ensures r.Success? ==> fresh(r.value) && fresh(r.value.routes)
                           && r.value.Valid() && r.value.Table() == StableSort(given[..])
    ensures r.Failure? ==> Reports(given[..], r.error) && Validate(given[..]) == Some(r.error)
  {
    ghost var routes := given[..];
    if given.Length == 0 {
      ValidateReportsFirstFault(routes, NoRoutes);
      return Failure(NoRoutes);
    }
    var seen: map<string, nat> := map[];
    for i := 0 to given.Length
      invariant forall k :: 0 <= k < i ==> !Faulty(routes, k)
      invariant forall k :: 0 <= k < i ==> routes[k].prefix in seen && seen[routes[k].prefix] == k
      invariant forall p :: p in seen ==> seen[p] < i && routes[seen[p]].prefix == p
    {
      var r := given[i];
      var fault := if r.prefix == "" then Some(EmptyPrefix(i))
                   else if r.backend.None? then Some(NilBackend(i))
                   else if r.prefix in seen then Some(Duplicate(r.prefix, seen[r.prefix], i))
                   else None;
      if fault.Some? {
        ValidateReportsFirstFault(routes, fault.value);
        assert Reports(routes, fault.value);
        return Failure(fault.value);
      }
      seen := seen[r.prefix := i];
    }
    FaultFreeIsDistinct(routes, given.Length);
    assert routes[..given.Length] == routes;
    var router := new Router.Sorted(given);
    r := Success(router);
  }
}
