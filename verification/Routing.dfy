/**
 The routing decision of the gateway, free of any heap: which route lists are
 accepted, what the stored order is, and which route a path selects.

 A Go string is a sequence of bytes; one `char` stands for one byte here, and
 `p <= s` is the literal byte-prefix test.
 */
module Routing {
  import opened Wrappers

  datatype Url = Url(scheme: string, host: string, rest: string)

  // `None` is the nil backend pointer.
  datatype Route = Route(prefix: string, backend: Option<Url>)

  // ---------- Which lists are accepted, and which fault is reported ----------

  predicate Sound(r: Route) {
    r.prefix != "" && r.backend.Some?
  }

  predicate Distinct(routes: seq<Route>) {
    forall i, j :: 0 <= i < j < |routes| ==> routes[i].prefix != routes[j].prefix
  }

  predicate Acceptable(routes: seq<Route>) {
    routes != [] && (forall i :: 0 <= i < |routes| ==> Sound(routes[i])) && Distinct(routes)
  }

  datatype Fault =
    | NoRoutes
    | EmptyPrefix(index: nat)
    | NilBackend(index: nat)
    | Duplicate(prefix: string, first: nat, index: nat)

  predicate Faulty(routes: seq<Route>, i: nat)
    requires i < |routes|
  {
    !Sound(routes[i]) || exists j :: 0 <= j < i && routes[j].prefix == routes[i].prefix
  }

  // Entry `i` is faulty and no earlier entry is.
  predicate FirstFault(routes: seq<Route>, i: nat) {
    i < |routes| && Faulty(routes, i) && forall k :: 0 <= k < i ==> !Faulty(routes, k)
  }

  // `f` names the least faulty entry and what is wrong with it; for a
  // duplicate it also names the only earlier entry with the same prefix.
  predicate Reports(routes: seq<Route>, f: Fault) {
    match f
    case NoRoutes => routes == []
    case EmptyPrefix(i) => FirstFault(routes, i) && routes[i].prefix == ""
    case NilBackend(i) => FirstFault(routes, i) && routes[i].prefix != "" && routes[i].backend.None?
    case Duplicate(p, first, i) =>
      && FirstFault(routes, i) && Sound(routes[i]) && routes[i].prefix == p
      && first < i
      && forall k :: 0 <= k < i ==> (routes[k].prefix == p <==> k == first)
  }

  // The validation pass, entry by entry.
  function Validate(routes: seq<Route>): Option<Fault> {
    if routes == [] then Some(NoRoutes) else ValidateFrom(routes, 0)
  }

  function ValidateFrom(routes: seq<Route>, i: nat): Option<Fault>
    requires i <= |routes|
    decreases |routes| - i
  {
    if i == |routes| then None
    else if routes[i].prefix == "" then Some(EmptyPrefix(i))
    else if routes[i].backend.None? then Some(NilBackend(i))
    else match Earlier(routes[..i], routes[i].prefix)
      case Some(first) => Some(Duplicate(routes[i].prefix, first, i))
      case None => ValidateFrom(routes, i + 1)
  }

  // The last index that holds `prefix`, which is what `seen` remembers.
  function Earlier(routes: seq<Route>, prefix: string): (r: Option<nat>)
    ensures r.Some? ==> r.value < |routes| && routes[r.value].prefix == prefix
    ensures r.None? ==> forall k :: 0 <= k < |routes| ==> routes[k].prefix != prefix
  {
    if routes == [] then None
    else if routes[|routes| - 1].prefix == prefix then Some(|routes| - 1)
    else Earlier(routes[..|routes| - 1], prefix)
  }

  lemma {:induction false} ValidateFromReports(routes: seq<Route>, i: nat)
    requires routes != [] && i <= |routes|
    requires forall k :: 0 <= k < i ==> !Faulty(routes, k)
    ensures match ValidateFrom(routes, i)
            case None => Acceptable(routes)
            case Some(f) => Reports(routes, f)
    decreases |routes| - i
  {
    FaultFreeIsDistinct(routes, i);
    if i == |routes| {
      assert routes[..i] == routes;
    } else {
      var e := Earlier(routes[..i], routes[i].prefix);
      if Sound(routes[i]) {
        if e.Some? {
          assert routes[e.value].prefix == routes[i].prefix;
          assert forall k :: 0 <= k < i ==> routes[..i][k] == routes[k];
        } else {
          assert forall k :: 0 <= k < i ==> routes[..i][k] == routes[k];
          ValidateFromReports(routes, i + 1);
        }
      }
    }
  }

  // Validation passes exactly on the acceptable lists, and otherwise the fault
  // it returns is the one that is reported.
  lemma ValidateReportsFirstFault(routes: seq<Route>, f: Fault)
    ensures Validate(routes) == None <==> Acceptable(routes)
    ensures Validate(routes) == Some(f) <==> Reports(routes, f)
  {
    if routes != [] {
      ValidateFromReports(routes, 0);
    }
    if Reports(routes, f) {
      FaultIsDetermined(routes, f, f);
      FaultIsDetermined(routes, f, Validate(routes).value);
    }
    if Validate(routes).Some? {
      FaultIsDetermined(routes, Validate(routes).value, Validate(routes).value);
    }
  }

  // At most one fault can be reported, and an acceptable list reports none.
  lemma FaultIsDetermined(routes: seq<Route>, f: Fault, g: Fault)
    requires Reports(routes, f) && Reports(routes, g)
    ensures f == g && !Acceptable(routes)
  {
    if routes != [] {
      var i, j := f.index, g.index;
      assert FirstFault(routes, i) && FirstFault(routes, j);
      assert i == j;
      if f.Duplicate? {
        assert routes[f.first].prefix == routes[i].prefix;
      }
    }
  }

  // Earlier entries that are all fault-free have pairwise distinct prefixes.
  lemma FaultFreeIsDistinct(routes: seq<Route>, n: nat)
    requires n <= |routes|
    requires forall k :: 0 <= k < n ==> !Faulty(routes, k)
    ensures Distinct(routes[..n]) && forall k :: 0 <= k < n ==> Sound(routes[k])
  {
    forall i, j | 0 <= i < j < n
      ensures routes[..n][i].prefix != routes[..n][j].prefix
    {
      assert !Faulty(routes, j);
    }
    forall k | 0 <= k < n ensures Sound(routes[k]) {
      assert !Faulty(routes, k);
    }
  }

  // ---------- The stored order ----------

  predicate Descending(routes: seq<Route>) {
    forall i, j :: 0 <= i < j < |routes| ==> |routes[i].prefix| >= |routes[j].prefix|
  }

  // The tables that NewRouter can produce.
  predicate WellFormed(table: seq<Route>) {
    Acceptable(table) && Descending(table)
  }

  // The routes whose prefix has length `n`, in list order.
  function OfLength(routes: seq<Route>, n: nat): seq<Route> {
    if routes == [] then []
    else if |routes[0].prefix| == n then [routes[0]] + OfLength(routes[1..], n)
    else OfLength(routes[1..], n)
  }

  // `out` is `routes` in length-descending order, where routes of one length
  // keep the order they had.
  ghost predicate IsStableSort(routes: seq<Route>, out: seq<Route>) {
    Descending(out) && forall n: nat :: OfLength(routes, n) == OfLength(out, n)
  }

  // Insertion from the back: `r` moves over strictly shorter prefixes only.
  function Insert(sorted: seq<Route>, r: Route): seq<Route> {
    if sorted != [] && |sorted[|sorted| - 1].prefix| < |r.prefix|
    then Insert(sorted[..|sorted| - 1], r) + [sorted[|sorted| - 1]]
    else sorted + [r]
  }

  function StableSort(routes: seq<Route>): seq<Route> {
    if routes == [] then []
    else Insert(StableSort(routes[..|routes| - 1]), routes[|routes| - 1])
  }

  lemma OfLengthAppend(a: seq<Route>, b: seq<Route>, n: nat)
    ensures OfLength(a + b, n) == OfLength(a, n) + OfLength(b, n)
  {
    if a == [] {
      assert a + b == b;
    } else {
      assert (a + b)[1..] == a[1..] + b;
      OfLengthAppend(a[1..], b, n);
    }
  }

  lemma {:induction false} InsertPermutes(sorted: seq<Route>, r: Route)
    ensures multiset(Insert(sorted, r)) == multiset(sorted) + multiset{r}
    ensures |Insert(sorted, r)| == |sorted| + 1
  {
    if sorted != [] && |sorted[|sorted| - 1].prefix| < |r.prefix| {
      InsertPermutes(sorted[..|sorted| - 1], r);
      assert sorted == sorted[..|sorted| - 1] + [sorted[|sorted| - 1]];
    }
  }

  lemma {:induction false} InsertDescends(sorted: seq<Route>, r: Route)
    requires Descending(sorted)
    ensures Descending(Insert(sorted, r))
  {
    if sorted != [] && |sorted[|sorted| - 1].prefix| < |r.prefix| {
      var front, last := sorted[..|sorted| - 1], sorted[|sorted| - 1];
      InsertDescends(front, r);
      InsertPermutes(front, r);
      var out := Insert(front, r);
      forall i | 0 <= i < |out| ensures |out[i].prefix| >= |last.prefix| {
        assert out[i] in multiset(out);
        assert out[i] in front || out[i] == r;
      }
    }
  }

  lemma {:induction false} InsertKeepsClasses(sorted: seq<Route>, r: Route, n: nat)
    requires Descending(sorted)
    ensures OfLength(Insert(sorted, r), n) == OfLength(sorted, n) + OfLength([r], n)
  {
    OfLengthAppend(sorted, [r], n);
    if sorted != [] && |sorted[|sorted| - 1].prefix| < |r.prefix| {
      var front, last := sorted[..|sorted| - 1], sorted[|sorted| - 1];
      InsertKeepsClasses(front, r, n);
      assert sorted == front + [last];
      OfLengthAppend(Insert(front, r), [last], n);
      OfLengthAppend(front, [last], n);
      assert OfLength([r], n) == [] || OfLength([last], n) == [];
    }
  }

  lemma {:induction false} StableSortCorrect(routes: seq<Route>)
    ensures IsStableSort(routes, StableSort(routes))
    ensures multiset(StableSort(routes)) == multiset(routes)
    ensures |StableSort(routes)| == |routes|
  {
    if routes != [] {
      var front, last := routes[..|routes| - 1], routes[|routes| - 1];
      StableSortCorrect(front);
      InsertPermutes(StableSort(front), last);
      InsertDescends(StableSort(front), last);
      assert routes == front + [last];
      forall n: nat ensures OfLength(routes, n) == OfLength(StableSort(routes), n) {
        OfLengthAppend(front, [last], n);
        InsertKeepsClasses(StableSort(front), last, n);
      }
    }
  }

  lemma OfLengthMember(routes: seq<Route>, n: nat)
    ensures OfLength(routes, n) != [] <==> exists i :: 0 <= i < |routes| && |routes[i].prefix| == n
  {
    if routes != [] {
      OfLengthMember(routes[1..], n);
      if OfLength(routes[1..], n) != [] {
        var i :| 0 <= i < |routes[1..]| && |routes[1..][i].prefix| == n;
        assert |routes[i + 1].prefix| == n;
      }
      if i :| 0 <= i < |routes| && |routes[i].prefix| == n {
        assert i == 0 || |routes[1..][i - 1].prefix| == n;
      }
    }
  }

  // Length classes and a descending order leave only one sequence.
  lemma {:induction false} DescendingDetermined(a: seq<Route>, b: seq<Route>)
    requires Descending(a) && Descending(b)
    requires forall n: nat :: OfLength(a, n) == OfLength(b, n)
    ensures a == b
  {
    if a == [] || b == [] {
      var one := a + b;
      if one != [] {
        OfLengthMember(a, |one[0].prefix|);
        OfLengthMember(b, |one[0].prefix|);
      }
    } else {
      var la, lb := |a[0].prefix|, |b[0].prefix|;
      OfLengthMember(a, lb);
      OfLengthMember(b, lb);
      OfLengthMember(a, la);
      OfLengthMember(b, la);
      assert la == lb;
      assert OfLength(a, la)[0] == a[0] && OfLength(b, la)[0] == b[0];
      forall n: nat ensures OfLength(a[1..], n) == OfLength(b[1..], n) {
        assert OfLength(a, n) == OfLength(b, n);
        if n == la {
          assert OfLength(a, n)[1..] == OfLength(a[1..], n);
          assert OfLength(b, n)[1..] == OfLength(b[1..], n);
        }
      }
      DescendingDetermined(a[1..], b[1..]);
      assert a == [a[0]] + a[1..] && b == [b[0]] + b[1..];
    }
  }

  // Any stable length-descending sort yields this very sequence, so the choice
  // of sorting algorithm cannot be observed.
  lemma StableSortDetermined(routes: seq<Route>, out: seq<Route>)
    ensures IsStableSort(routes, out) <==> out == StableSort(routes)
  {
    StableSortCorrect(routes);
    if IsStableSort(routes, out) {
      forall n: nat ensures OfLength(out, n) == OfLength(StableSort(routes), n) {
        assert OfLength(routes, n) == OfLength(out, n);
      }
      DescendingDetermined(out, StableSort(routes));
    }
  }

  // ---------- The stored order, position by position ----------

  lemma OfLengthAt(routes: seq<Route>, i: nat, n: nat)
    requires i < |routes| && |routes[i].prefix| == n
    ensures |OfLength(routes[..i], n)| < |OfLength(routes, n)|
    ensures OfLength(routes, n)[|OfLength(routes[..i], n)|] == routes[i]
  {
    assert routes == routes[..i] + ([routes[i]] + routes[i + 1..]);
    OfLengthAppend(routes[..i], [routes[i]] + routes[i + 1..], n);
  }

  lemma OfLengthGrows(routes: seq<Route>, i: nat, j: nat, n: nat)
    requires i <= j <= |routes|
    ensures |OfLength(routes[..i], n)| <= |OfLength(routes[..j], n)|
    ensures i < j && |routes[i].prefix| == n ==> |OfLength(routes[..i], n)| < |OfLength(routes[..j], n)|
  {
    assert routes[..j] == routes[..i] + routes[i..j];
    OfLengthAppend(routes[..i], routes[i..j], n);
  }

  lemma {:induction false} OfLengthFind(routes: seq<Route>, n: nat, a: nat) returns (k: nat)
    requires a < |OfLength(routes, n)|
    ensures k < |routes| && |routes[k].prefix| == n
    ensures routes[k] == OfLength(routes, n)[a] && |OfLength(routes[..k], n)| == a
  {
    var here := |routes[0].prefix| == n;
    if here && a == 0 {
      k := 0;
    } else {
      var rest := OfLengthFind(routes[1..], n, if here then a - 1 else a);
      k := rest + 1;
      assert routes[..k] == [routes[0]] + routes[1..][..rest];
      OfLengthAppend([routes[0]], routes[1..][..rest], n);
    }
  }

  // Two routes with prefixes of one length are stored in the order they came.
  lemma StoredInInputOrder(routes: seq<Route>, i: nat, j: nat)
    requires i < j < |routes| && |routes[i].prefix| == |routes[j].prefix|
    ensures var out := StableSort(routes);
            exists k, l :: 0 <= k < l < |out| && out[k] == routes[i] && out[l] == routes[j]
  {
    var out, n := StableSort(routes), |routes[i].prefix|;
    StableSortCorrect(routes);
    assert OfLength(out, n) == OfLength(routes, n);
    OfLengthAt(routes, i, n);
    OfLengthAt(routes, j, n);
    OfLengthGrows(routes, i, j, n);
    var k := OfLengthFind(out, n, |OfLength(routes[..i], n)|);
    var l := OfLengthFind(out, n, |OfLength(routes[..j], n)|);
    if l <= k {
      OfLengthGrows(out, l, k, n);
    }
  }

  // A descending table is a fixed point: rebuilding a router from its own
  // table yields the identical table.
  lemma SortedIsFixed(table: seq<Route>)
    ensures Descending(table) <==> StableSort(table) == table
    ensures StableSort(StableSort(table)) == StableSort(table)
  {
    StableSortDetermined(table, table);
    StableSortCorrect(table);
    StableSortDetermined(StableSort(table), StableSort(table));
  }

  // ---------- Acceptance does not depend on the order ----------

  // Two positions with one prefix, seen through the multiset of routes.
  ghost predicate Clash(m: multiset<Route>) {
    exists r, q :: r in m && q in m && r.prefix == q.prefix && (r != q || m[r] >= 2)
  }

  lemma SplitAt(routes: seq<Route>, i: nat, j: nat)
    requires i < j < |routes|
    ensures multiset(routes) == multiset{routes[i], routes[j]}
                                + multiset(routes[..i] + routes[i + 1..j] + routes[j + 1..])
  {
    assert routes == routes[..i] + [routes[i]] + routes[i + 1..j] + [routes[j]] + routes[j + 1..];
  }

  lemma SecondOccurrence(routes: seq<Route>, r: Route) returns (i: nat, j: nat)
    requires multiset(routes)[r] >= 2
    ensures i < j < |routes| && routes[i] == r && routes[j] == r
  {
    assert r in routes;
    i :| i < |routes| && routes[i] == r;
    assert routes == routes[..i] + [r] + routes[i + 1..];
    var others := routes[..i] + routes[i + 1..];
    assert multiset(routes) == multiset(others) + multiset{r};
    assert r in multiset(others);
    assert r in others;
    var k :| 0 <= k < |others| && others[k] == r;
    if k < i { i, j := k, i; } else { j := k + 1; }
  }

  lemma DistinctIsNoClash(routes: seq<Route>)
    ensures Distinct(routes) <==> !Clash(multiset(routes))
  {
    var m := multiset(routes);
    if Clash(m) {
      var r, q :| r in m && q in m && r.prefix == q.prefix && (r != q || m[r] >= 2);
      if r != q {
        assert r in routes && q in routes;
        var i :| 0 <= i < |routes| && routes[i] == r;
        var j :| 0 <= j < |routes| && routes[j] == q;
        assert i < j || j < i;
      } else {
        var i, j := SecondOccurrence(routes, r);
      }
      assert !Distinct(routes);
    }
    if !Distinct(routes) {
      var i, j :| 0 <= i < j < |routes| && routes[i].prefix == routes[j].prefix;
      SplitAt(routes, i, j);
      assert routes[i] in m && routes[j] in m;
      assert Clash(m);
    }
  }

  lemma AcceptanceIgnoresOrder(a: seq<Route>, b: seq<Route>)
    requires multiset(a) == multiset(b)
    ensures Acceptable(a) <==> Acceptable(b)
  {
    DistinctIsNoClash(a);
    DistinctIsNoClash(b);
    SoundIgnoresOrder(a, b);
    assert |a| == |multiset(a)| == |b|;
  }

  lemma SoundIgnoresOrder(a: seq<Route>, b: seq<Route>)
    requires multiset(a) == multiset(b)
    ensures (forall i :: 0 <= i < |a| ==> Sound(a[i])) <==> (forall i :: 0 <= i < |b| ==> Sound(b[i]))
  {
    assert forall r :: r in a <==> r in multiset(a);
    assert forall r :: r in b <==> r in multiset(b);
    assert (forall i :: 0 <= i < |a| ==> Sound(a[i])) <==> (forall r :: r in a ==> Sound(r));
    assert (forall i :: 0 <= i < |b| ==> Sound(b[i])) <==> (forall r :: r in b ==> Sound(r));
  }

  // ---------- Which route a path selects ----------

  // First hit in list order.
  function Scan(table: seq<Route>, path: string): Option<Route> {
    if table == [] then None
    else if table[0].prefix <= path then Some(table[0])
    else Scan(table[1..], path)
  }

  // The declarative meaning: no configured prefix matches, or `m` is a
  // configured route whose prefix is the longest among those that match.
  ghost predicate IsWinner(routes: seq<Route>, path: string, m: Option<Route>) {
    match m
    case None => forall r :: r in routes ==> !(r.prefix <= path)
    case Some(w) =>
      && w in routes && w.prefix <= path
      && forall r :: r in routes && r.prefix <= path ==> |r.prefix| <= |w.prefix|
  }

  lemma SameLengthSamePrefix(p: string, q: string, path: string)
    requires p <= path && q <= path
    ensures |p| == |q| ==> p == q
  {
    assert p == path[..|p|] && q == path[..|q|];
  }

  // Two prefixes of one path that have equal length are equal, so with
  // distinct prefixes the winner is unique and a sort tie cannot matter.
  lemma WinnerUnique(routes: seq<Route>, path: string, m: Option<Route>, n: Option<Route>)
    requires Distinct(routes)
    requires IsWinner(routes, path, m) && IsWinner(routes, path, n)
    ensures m == n
  {
    if m.Some? && n.Some? {
      var r, q := m.value, n.value;
      SameLengthSamePrefix(r.prefix, q.prefix, path);
      var i :| 0 <= i < |routes| && routes[i] == r;
      var j :| 0 <= j < |routes| && routes[j] == q;
      assert i == j;
    }
  }

  lemma {:induction false} ScanWins(table: seq<Route>, path: string)
    requires Descending(table)
    ensures IsWinner(table, path, Scan(table, path))
  {
    if table != [] {
      assert table == [table[0]] + table[1..];
      if table[0].prefix <= path {
        forall r | r in table ensures |r.prefix| <= |table[0].prefix| {
          var i :| 0 <= i < |table| && table[i] == r;
        }
      } else {
        ScanWins(table[1..], path);
      }
    }
  }

  // Membership is all the declarative meaning depends on.
  lemma WinnerIgnoresOrder(a: seq<Route>, b: seq<Route>, path: string, m: Option<Route>)
    requires multiset(a) == multiset(b)
    ensures IsWinner(a, path, m) <==> IsWinner(b, path, m)
  {
    assert forall r :: r in a <==> r in multiset(a);
    assert forall r :: r in b <==> r in multiset(b);
  }

  // First match on the stored table computes the longest configured prefix.
  lemma FirstMatchIsLongestPrefix(routes: seq<Route>, path: string, m: Option<Route>)
    requires Acceptable(routes)
    ensures Scan(StableSort(routes), path) == m <==> IsWinner(routes, path, m)
  {
    StableSortCorrect(routes);
    var table := StableSort(routes);
    ScanWins(table, path);
    WinnerIgnoresOrder(routes, table, path, Scan(table, path));
    if IsWinner(routes, path, m) {
      WinnerUnique(routes, path, m, Scan(table, path));
    }
  }

  // The same, spelled out: a stored table misses exactly the paths that start
  // with no configured prefix, and otherwise selects the longest that does.
  lemma StoredTableSelects(table: seq<Route>, path: string)
    requires Descending(table) && Distinct(table)
    ensures Scan(table, path) == None <==> forall r :: r in table ==> !(r.prefix <= path)
    ensures forall w :: Scan(table, path) == Some(w) <==>
              w in table && w.prefix <= path && forall r :: r in table && r.prefix <= path ==> |r.prefix| <= |w.prefix|
  {
    var m := Scan(table, path);
    ScanWins(table, path);
    forall w | IsWinner(table, path, Some(w)) ensures m == Some(w) {
      WinnerUnique(table, path, m, Some(w));
    }
  }

  lemma LongestPrefixWins(routes: seq<Route>, path: string)
    requires Acceptable(routes)
    ensures Scan(StableSort(routes), path) == None <==> forall r :: r in routes ==> !(r.prefix <= path)
    ensures forall w :: Scan(StableSort(routes), path) == Some(w) <==>
              w in routes && w.prefix <= path && forall r :: r in routes && r.prefix <= path ==> |r.prefix| <= |w.prefix|
  {
    var table := StableSort(routes);
    StableSortCorrect(routes);
    AcceptanceIgnoresOrder(routes, table);
    StoredTableSelects(table, path);
    assert forall r :: r in routes <==> r in multiset(routes);
    assert forall r :: r in table <==> r in multiset(table);
  }

  lemma OrderIndependence(a: seq<Route>, b: seq<Route>)
    requires multiset(a) == multiset(b)
    ensures Acceptable(a) <==> Acceptable(b)
    ensures Acceptable(a) ==> forall path :: Scan(StableSort(a), path) == Scan(StableSort(b), path)
  {
    AcceptanceIgnoresOrder(a, b);
    if Acceptable(a) {
      forall path ensures Scan(StableSort(a), path) == Scan(StableSort(b), path) {
        var m := Scan(StableSort(a), path);
        FirstMatchIsLongestPrefix(a, path, m);
        WinnerIgnoresOrder(a, b, path, m);
        FirstMatchIsLongestPrefix(b, path, m);
      }
    }
  }

  // ---------- Prefixes without a leading slash ----------

  predicate Slashed(r: Route) {
    "/" <= r.prefix
  }

  predicate AllSlashed(routes: seq<Route>) {
    forall i :: 0 <= i < |routes| ==> Slashed(routes[i])
  }

  function SlashedOnly(table: seq<Route>): seq<Route> {
    if table == [] then []
    else (if Slashed(table[0]) then [table[0]] else []) + SlashedOnly(table[1..])
  }

  lemma SlashedIgnoresOrder(a: seq<Route>, b: seq<Route>)
    requires multiset(a) == multiset(b)
    ensures AllSlashed(a) <==> AllSlashed(b)
  {
    assert forall r :: r in a <==> r in multiset(a);
    assert forall r :: r in b <==> r in multiset(b);
    assert AllSlashed(a) <==> forall r :: r in a ==> Slashed(r);
    assert AllSlashed(b) <==> forall r :: r in b ==> Slashed(r);
  }

  // A route without a leading slash is dead: whatever else is listed, leaving
  // all such routes out changes the route of no path that starts with one.
  lemma {:induction false} SlashlessIsDead(table: seq<Route>, path: string)
    requires "/" <= path && forall i :: 0 <= i < |table| ==> table[i].prefix != ""
    ensures Scan(table, path) == Scan(SlashedOnly(table), path)
    ensures Scan(table, path).Some? ==> Slashed(Scan(table, path).value)
  {
    if table != [] {
      var rest := SlashedOnly(table[1..]);
      SlashlessIsDead(table[1..], path);
      if Slashed(table[0]) {
        assert SlashedOnly(table) == [table[0]] + rest;
        assert SlashedOnly(table)[1..] == rest;
      } else {
        assert SlashedOnly(table) == rest;
        assert path[0] == '/' && table[0].prefix[0] != '/';
      }
    }
  }

  // ---------- How a change of table moves traffic ----------

  ghost predicate Unlisted(routes: seq<Route>, prefix: string) {
    forall r :: r in routes ==> r.prefix != prefix
  }

  lemma AddedIsAcceptable(routes: seq<Route>, r: Route, k: nat)
    requires Acceptable(routes) && Sound(r) && Unlisted(routes, r.prefix) && k <= |routes|
    ensures var added := routes[..k] + [r] + routes[k..];
            Acceptable(added) && forall q :: q in added <==> q == r || q in routes
  {
    var added := routes[..k] + [r] + routes[k..];
    assert routes == routes[..k] + routes[k..];
    assert multiset(added) == multiset([r] + routes);
    FrontIsAcceptable(routes, r);
    AcceptanceIgnoresOrder(added, [r] + routes);
  }

  lemma FrontIsAcceptable(routes: seq<Route>, r: Route)
    requires Acceptable(routes) && Sound(r) && Unlisted(routes, r.prefix)
    ensures Acceptable([r] + routes)
  {
    var added := [r] + routes;
    forall i, j | 0 <= i < j < |added| ensures added[i].prefix != added[j].prefix {
      assert added[j] == routes[j - 1];
      assert i == 0 || added[i] == routes[i - 1];
    }
  }

  // Adding one route with a fresh prefix, at any position, is accepted, and it
  // takes over exactly the paths it matches whose old winner was absent or
  // shorter; every other path keeps its route.
  lemma AddedRouteLocality(routes: seq<Route>, r: Route, k: nat, path: string)
    requires Acceptable(routes) && Sound(r) && Unlisted(routes, r.prefix) && k <= |routes|
    ensures var added := routes[..k] + [r] + routes[k..];
            var before, after := Scan(StableSort(routes), path), Scan(StableSort(added), path);
            && Acceptable(added)
            && (after != before <==>
                r.prefix <= path && (before.None? || |before.value.prefix| < |r.prefix|))
            && (after != before ==> after == Some(r))
  {
    var added := routes[..k] + [r] + routes[k..];
    AddedIsAcceptable(routes, r, k);
    var before := Scan(StableSort(routes), path);
    FirstMatchIsLongestPrefix(routes, path, before);
    var takes := r.prefix <= path && (before.None? || |before.value.prefix| < |r.prefix|);
    if before.Some? && r.prefix <= path {
      SameLengthSamePrefix(before.value.prefix, r.prefix, path);
    }
    var after := if takes then Some(r) else before;
    FirstMatchIsLongestPrefix(added, path, after);
    assert before != Some(r);
  }

  // Extending a path never loses its route for a shorter one.
  lemma LongerPathLongerPrefix(routes: seq<Route>, path: string, more: string)
    requires Acceptable(routes) && Scan(StableSort(routes), path).Some?
    ensures Scan(StableSort(routes), path + more).Some?
    ensures Scan(StableSort(routes), path).value.prefix <= Scan(StableSort(routes), path + more).value.prefix
  {
    var m, n := Scan(StableSort(routes), path), Scan(StableSort(routes), path + more);
    FirstMatchIsLongestPrefix(routes, path, m);
    FirstMatchIsLongestPrefix(routes, path + more, n);
    assert m.value.prefix <= path + more;
    assert n.Some?;
    assert n.value.prefix == (path + more)[..|n.value.prefix|];
    assert m.value.prefix == (path + more)[..|m.value.prefix|];
  }
}
