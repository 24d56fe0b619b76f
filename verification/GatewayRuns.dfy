/** What holds of every run of the gateway, in every interleaving. */
module GatewayRuns {
  import opened Wrappers
  import opened Routing
  import opened WriterStack
  import opened Proxy
  import opened RouteFlags
  import opened RoutesAdmin
  import opened CorrelationId
  import opened LogLines
  import opened Gateway
  import opened GatewayInvariant

  // The state the process starts serving in.
  function Boot(c: Config, routes: seq<Route>): State
    requires Backed(StableSort(routes))
  {
    var b := Build(StableSort(routes));
    State(c, b, [b], "", [], map[], map[], map[])
  }

  // Flags that parse, with no prefix given twice, boot into an initial state.
  lemma BootIsInitial(c: Config, specs: seq<string>, routes: seq<Route>)
    requires Parses(c.codec.parse, specs, Success(routes)) && Distinct(routes)
    ensures Backed(StableSort(routes)) && Initial(Boot(c, routes))
  {
    ParsedRoutes(c.codec.parse, specs, routes);
    StoredIsWellFormed(routes);
  }

  // `steps[i]` leads from `states[i]` to `states[i + 1]`.
  datatype Trace = Trace(states: seq<State>, steps: seq<(Tid, Act)>)

  ghost predicate IsRun(r: Trace) {
    && |r.states| == |r.steps| + 1
    && Initial(r.states[0])
    && forall i :: 0 <= i < |r.steps| ==> Follows(r, i)
  }

  ghost predicate Follows(r: Trace, i: nat)
    requires i < |r.steps| && |r.states| == |r.steps| + 1
  {
    Can(r.states[i], r.steps[i].0, r.steps[i].1)
    && r.states[i + 1] == Next(r.states[i], r.steps[i].0, r.steps[i].1)
  }

  lemma {:induction false} RunInv(r: Trace, i: nat)
    requires IsRun(r) && i < |r.states|
    ensures Inv(r.states[i])
  {
    if i == 0 {
      StartInv(r);
    } else {
      RunInv(r, i - 1);
      StepKeepsInv(r, i);
    }
  }

  lemma StartInv(r: Trace)
    requires IsRun(r)
    ensures Inv(r.states[0])
  {
    InitialInv(r.states[0]);
  }

  lemma StepKeepsInv(r: Trace, i: nat)
    requires IsRun(r) && 0 < i < |r.states| && Inv(r.states[i - 1])
    ensures Inv(r.states[i])
  {
    assert Follows(r, i - 1);
    InvStep(r.states[i - 1], r.steps[i - 1].0, r.steps[i - 1].1);
  }

  // A state that some run passes through.
  ghost predicate Reachable(s: State) {
    exists r: Trace, i :: IsRun(r) && 0 <= i < |r.states| && r.states[i] == s
  }

  lemma ReachableInv(s: State)
    requires Reachable(s)
    ensures Inv(s)
  {
    var r: Trace, i :| IsRun(r) && 0 <= i < |r.states| && r.states[i] == s;
    RunInv(r, i);
  }

  lemma LocalOf(s: State, t: Tid)
    requires Reachable(s) && t in s.threads
    ensures SoundHistory(s.history) && Local(s.cfg, s.history, s.threads[t])
  {
    ReachableInv(s);
  }

  // ---------- What a run never takes back ----------

  ghost predicate Later(th: Thread, th': Thread) {
    && th'.req == th.req && th'.role == th.role && th'.id == th.id && th'.born == th.born
    && (th.seen.Some? ==> th'.seen == th.seen)
    && (th.installed.Some? ==> th'.installed == th.installed)
    && (th.sent.Some? ==> th'.sent == th.sent)
  }

  lemma MoveIsLater(h: seq<Built>, c: Config, cur: Built, v: nat, th: Thread, act: Act)
    requires Timed(h, th) && CanMove(c, th, act)
    ensures Later(th, Move(c, cur, v, th, act))
  {}

  ghost predicate Extends(s: State, s': State) {
    && s'.cfg == s.cfg && s.history <= s'.history
    && forall t :: t in s.threads ==> t in s'.threads && Later(s.threads[t], s'.threads[t])
  }

  lemma StepExtends(s: State, t: Tid, act: Act)
    requires AllLocal(s) && Can(s, t, act)
    ensures Extends(s, Next(s, t, act))
  {
    NextShares(s, t, act);
    if !act.Arrive? {
      assert Local(s.cfg, s.history, s.threads[t]);
      MoveIsLater(s.history, s.cfg, s.current, Version(s), s.threads[t], act);
    }
    PutExtends(s, Next(s, t, act), t, Stepped(s, t, act));
  }

  lemma PutExtends(s: State, s': State, t: Tid, th': Thread)
    requires s'.cfg == s.cfg && s.history <= s'.history && s'.threads == s.threads[t := th']
    requires t in s.threads ==> Later(s.threads[t], th')
    ensures Extends(s, s')
  {}

  // One step of a run, as far as the run lemmas use it.
  lemma RunStep(r: Trace, i: nat)
    requires IsRun(r) && i < |r.steps|
    ensures Extends(r.states[i], r.states[i + 1])
  {
    RunInv(r, i);
    assert Follows(r, i);
    StepExtends(r.states[i], r.steps[i].0, r.steps[i].1);
  }

  lemma RunHeaded(r: Trace, i: nat)
    requires IsRun(r) && i < |r.states|
    ensures Headed(r.states[i])
  {
    RunInv(r, i);
  }

  lemma RunVersion(r: Trace, i: nat)
    requires IsRun(r) && i < |r.steps|
    ensures Version(r.states[i + 1]) == Version(r.states[i]) + if r.steps[i].1.Swap? then 1 else 0
    ensures r.states[i].history <= r.states[i + 1].history
  {
    RunInv(r, i);
    assert Follows(r, i);
    HistoryStep(r.states[i], r.steps[i].0, r.steps[i].1);
  }

  lemma ExtendsChain(a: State, b: State, c: State)
    requires Extends(a, b) && Extends(b, c)
    ensures Extends(a, c)
  {}

  lemma {:induction false} RunExtends(r: Trace, i: nat, j: nat)
    requires IsRun(r) && i <= j < |r.states|
    ensures Extends(r.states[i], r.states[j])
    decreases j
  {
    if i < j {
      RunExtends(r, i, j - 1);
      RunStep(r, j - 1);
      ExtendsChain(r.states[i], r.states[j - 1], r.states[j]);
    }
  }

  // A table of the history that lies between the versions of two states was
  // current at some state between them.
  lemma {:induction false} WasCurrent(r: Trace, i: nat, j: nat, v: nat) returns (k: nat)
    requires IsRun(r) && i <= j < |r.states|
    requires Version(r.states[i]) <= v <= Version(r.states[j])
    ensures i <= k <= j
    ensures v < |r.states[j].history| && r.states[k].current == r.states[j].history[v]
    decreases j
  {
    RunHeaded(r, j);
    if v == Version(r.states[j]) {
      k := j;
    } else {
      RunVersion(r, j - 1);
      k := WasCurrent(r, i, j - 1, v);
    }
  }

  // ---------- Routing in a run ----------

  // Hot reload is linearizable: the request goes to the backend that the
  // longest configured prefix selects in one installed table, and that table
  // was current at a moment between the request's arrival and its dispatch.
  lemma LinearizableDispatch(r: Trace, t: Tid, a: nat, d: nat, req: Inbound) returns (k: nat)
    requires IsRun(r) && a < d < |r.steps|
    requires r.steps[a] == (t, Arrive(req)) && r.steps[d] == (t, Dispatch)
    ensures a <= k <= d
    ensures t in r.states[d + 1].threads && r.states[d + 1].threads[t].sent.Some?
    ensures var sent, table := r.states[d + 1].threads[t].sent.value, r.states[k].current.table;
            && sent.route in table && sent.route.prefix <= req.path
            && (forall r :: r in table && r.prefix <= req.path ==> |r.prefix| <= |sent.route.prefix|)
            && (forall i, j :: 0 <= i < j < |table| ==> table[i].prefix != table[j].prefix)
            && sent.route.backend == Some(sent.target)
            && sent.header == Resolve(req.correlation, req.random) != ""
  {
    DispatchFacts(r, t, d);
    ArrivalIsRecorded(r, t, a, d + 1, req);
    ResolvedIsNotBlank(req.correlation, req.random);
    k := WasCurrent(r, a, d, r.states[d + 1].threads[t].seen.value);
    TableSelects(r, k, req.path);
  }

  // At its dispatch, a request's snapshot lies between arrival and now, and the
  // route and target follow from the table of that snapshot.
  lemma DispatchFacts(r: Trace, t: Tid, d: nat)
    requires IsRun(r) && d < |r.steps| && r.steps[d] == (t, Dispatch)
    ensures var h, s' := r.states[d].history, r.states[d + 1];
            && t in s'.threads && s'.threads[t].sent.Some? && s'.threads[t].seen.Some?
            && var th, sent := s'.threads[t], s'.threads[t].sent.value;
               && th.born <= th.seen.value <= Version(r.states[d]) && th.seen.value < |h|
               && Scan(h[th.seen.value].table, th.req.path) == Some(sent.route)
               && sent.route.backend == Some(sent.target)
               && sent.header == th.id == Resolve(th.req.correlation, th.req.random)
  {
    RunInv(r, d);
    assert Follows(r, d);
    DispatchLocally(r.states[d], t);
  }

  lemma DispatchLocally(s: State, t: Tid)
    requires Inv(s) && Can(s, t, Dispatch)
    ensures var th := Next(s, t, Dispatch).threads[t];
            && th.sent.Some? && th.seen.Some?
            && th.born <= th.seen.value <= Version(s) && th.seen.value < |s.history|
            && Scan(s.history[th.seen.value].table, th.req.path) == Some(th.sent.value.route)
            && th.sent.value.route.backend == Some(th.sent.value.target)
            && th.sent.value.header == th.id == Resolve(th.req.correlation, th.req.random)
  {
    NextShares(s, t, Dispatch);
    OwnStep(s, t, Dispatch);
  }

  // The scan of a table in force is its unique winner.
  lemma TableSelects(r: Trace, k: nat, path: string)
    requires IsRun(r) && k < |r.states|
    ensures Distinct(r.states[k].current.table)
    ensures IsWinner(r.states[k].current.table, path, Scan(r.states[k].current.table, path))
  {
    RunInv(r, k);
    assert IsStored(r.states[k].current);
    ScanWins(r.states[k].current.table, path);
  }

  // A request keeps what it arrived with, and the version current then.
  lemma ArrivalIsRecorded(r: Trace, t: Tid, a: nat, j: nat, req: Inbound)
    requires IsRun(r) && a < |r.steps| && a < j < |r.states| && r.steps[a] == (t, Arrive(req))
    ensures t in r.states[j].threads
    ensures r.states[j].threads[t].req == req && r.states[j].threads[t].born == Version(r.states[a])
  {
    assert Follows(r, a);
    assert t in r.states[a + 1].threads && r.states[a + 1].threads[t].req == req;
    assert r.states[a + 1].threads[t].born == Version(r.states[a]);
    RunExtends(r, a + 1, j);
  }

  // A miss is linearizable too: the 404 is justified by a table in which no
  // prefix matches and which was current after arrival and before the entry.
  lemma LinearizableMiss(r: Trace, t: Tid, a: nat, j: nat, req: Inbound) returns (k: nat)
    requires IsRun(r) && a < |r.steps| && a < j < |r.states| && r.steps[a] == (t, Arrive(req))
    requires t in r.states[j].threads && HasEntry(r.states[j].threads[t].phase)
    requires r.states[j].threads[t].role.Proxied? && r.states[j].threads[t].sent.None?
    ensures a <= k <= j
    ensures forall q :: q in r.states[k].current.table ==> !(q.prefix <= req.path)
    ensures r.states[j].threads[t].calls == NotFoundCalls()
    ensures r.states[j].threads[t].phase.entry.status == 404 && r.states[j].threads[t].phase.entry.route == ""
  {
    ArrivalIsRecorded(r, t, a, j, req);
    RunInv(r, j);
    var s := r.states[j];
    assert Local(s.cfg, s.history, s.threads[t]);
    k := WasCurrent(r, a, j, s.threads[t].seen.value);
    TableSelects(r, k, req.path);
  }

  // And so is a GET of the admin endpoint: what it lists is a table that was
  // current after its arrival and before its reply was complete.
  lemma LinearizableListing(r: Trace, t: Tid, a: nat, j: nat, req: Inbound) returns (k: nat)
    requires IsRun(r) && a < |r.steps| && a < j < |r.states| && r.steps[a] == (t, Arrive(req))
    requires r.states[j].cfg.admin && req.path == "/admin/routes" && req.verb == "GET"
    requires t in r.states[j].threads && HasEntry(r.states[j].threads[t].phase)
    ensures a <= k <= j
    ensures r.states[j].threads[t].calls == TableCalls(r.states[j].cfg.codec, r.states[k].current.table)
    ensures r.states[j].threads[t].phase.entry.status == 200
  {
    ArrivalIsRecorded(r, t, a, j, req);
    RunInv(r, j);
    var s := r.states[j];
    assert Local(s.cfg, s.history, s.threads[t]);
    ListerReplied(s.cfg, s.history, s.threads[t]);
    k := WasCurrent(r, a, j, s.threads[t].seen.value);
  }

  lemma ListerReplied(c: Config, h: seq<Built>, th: Thread)
    requires Local(c, h, th) && HasEntry(th.phase)
    requires c.admin && th.req.path == "/admin/routes" && th.req.verb == "GET"
    ensures th.seen.Some? && th.born <= th.seen.value < |h|
    ensures th.calls == TableCalls(c.codec, h[th.seen.value].table) && th.phase.entry.status == 200
  {}

  // ---------- Real-time order ----------

  // A snapshot taken after a Replace swapped its table uses that table or a
  // later one.
  lemma SnapshotAfterReplace(r: Trace, p: Tid, i: nat, t: Tid, c: nat)
    requires IsRun(r) && i <= c < |r.steps| && r.steps[c] == (t, Copy)
    requires p in r.states[i].threads && r.states[i].threads[p].installed.Some?
    ensures t in r.states[c + 1].threads && r.states[c + 1].threads[t].seen.Some?
    ensures r.states[i].threads[p].installed.value <= r.states[c + 1].threads[t].seen.value
  {
    RunInv(r, i);
    assert Local(r.states[i].cfg, r.states[i].history, r.states[i].threads[p]);
    RunExtends(r, i, c);
    assert Follows(r, c);
    CopyRecordsVersion(r.states[c], t);
  }

  lemma CopyRecordsVersion(s: State, t: Tid)
    requires Can(s, t, Copy)
    ensures Next(s, t, Copy).threads[t].seen == Some(Version(s))
  {}

  // Requests that do not overlap see tables in order: one that arrives after
  // another has copied its table copies that table or a later one.
  lemma NonOverlappingInOrder(r: Trace, t: Tid, d: nat, u: Tid, a: nat, j: nat, req: Inbound)
    requires IsRun(r) && d <= a < |r.steps| && a < j < |r.states|
    requires t in r.states[d].threads && r.states[d].threads[t].seen.Some?
    requires r.steps[a] == (u, Arrive(req))
    requires u in r.states[j].threads && r.states[j].threads[u].seen.Some?
    ensures r.states[d].threads[t].seen.value <= r.states[j].threads[u].seen.value
  {
    SeenIsInHistory(r, d, t);
    RunExtends(r, d, a);
    ArrivalIsRecorded(r, u, a, j, req);
    SeenIsInHistory(r, j, u);
  }

  lemma SeenIsInHistory(r: Trace, i: nat, t: Tid)
    requires IsRun(r) && i < |r.states| && t in r.states[i].threads && r.states[i].threads[t].seen.Some?
    ensures r.states[i].threads[t].born <= r.states[i].threads[t].seen.value < |r.states[i].history|
  {
    RunInv(r, i);
    assert Local(r.states[i].cfg, r.states[i].history, r.states[i].threads[t]);
  }

  // The table in force is that of the last swap, whenever it was built.
  lemma {:induction false} LastSwapWins(r: Trace, p: Tid, k: nat, j: nat)
    requires IsRun(r) && k < |r.steps| && k < j < |r.states| && r.steps[k] == (p, Swap)
    requires forall i :: k < i < j ==> !r.steps[i].1.Swap?
    ensures p in r.states[k].threads && r.states[k].threads[p].role.Installer?
    ensures r.states[j].current == r.states[k].threads[p].role.next
    decreases j
  {
    assert Follows(r, j - 1);
    if j - 1 == k {
      SwapInstalls(r.states[k], p);
    } else {
      LastSwapWins(r, p, k, j - 1);
      OnlySwapChangesTable(r.states[j - 1], r.steps[j - 1].0, r.steps[j - 1].1);
    }
  }

  lemma SwapInstalls(s: State, p: Tid)
    requires Can(s, p, Swap)
    ensures s.threads[p].role.Installer? && Next(s, p, Swap).current == s.threads[p].role.next
  {}

  lemma OnlySwapChangesTable(s: State, t: Tid, act: Act)
    requires Can(s, t, act) && !act.Swap?
    ensures Next(s, t, act).current == s.current && Next(s, t, act).history == s.history
  {}

  // A swap is only ever made by a POST to /admin/routes whose whole body is
  // valid, and it installs the stable sort of what the body lists.
  lemma SwapsAreValidPosts(s: State, p: Tid)
    requires Reachable(s) && Can(s, p, Swap)
    ensures var req := s.threads[p].req;
            && s.cfg.admin && req.path == "/admin/routes" && req.verb == "POST"
            && PlanPost(s.cfg.codec, req.body).Install?
            && Acceptable(PlanPost(s.cfg.codec, req.body).routes)
            && Next(s, p, Swap).current.table == StableSort(PlanPost(s.cfg.codec, req.body).routes)
  {
    LocalOf(s, p);
    SwapInstalls(s, p);
    SwapOf(s.cfg, s.history, s.threads[p]);
  }

  lemma SwapOf(c: Config, h: seq<Built>, th: Thread)
    requires Local(c, h, th) && CanMove(c, th, Swap)
    ensures c.admin && th.req.path == "/admin/routes" && th.req.verb == "POST"
    ensures var plan := PlanPost(c.codec, th.req.body);
            plan.Install? && Acceptable(plan.routes) && th.role.next.table == StableSort(plan.routes)
  {
    InstallsExactlyValidBodies(c.codec, th.req.body, PlanPost(c.codec, th.req.body).routes);
  }

  // ---------- The admin endpoint ----------

  // A finished POST answered 200 exactly when its body was valid; it then
  // installed its table and showed a table current at or after its own swap.
  // Otherwise it answered 400 and installed nothing. No POST answers 500.
  lemma PostOutcome(s: State, t: Tid)
    requires Reachable(s) && t in s.threads && HasEntry(s.threads[t].phase)
    requires s.cfg.admin && s.threads[t].req.path == "/admin/routes" && s.threads[t].req.verb == "POST"
    ensures var th := s.threads[t];
            var plan := PlanPost(s.cfg.codec, th.req.body);
            if plan.Install? then
              && th.phase.entry.status == 200
              && th.installed.Some? && th.seen.Some?
              && th.installed.value <= th.seen.value < |s.history|
              && s.history[th.installed.value].table == StableSort(plan.routes)
              && th.calls == TableCalls(s.cfg.codec, s.history[th.seen.value].table)
            else
              && th.phase.entry.status == 400 && th.installed.None?
              && Rejects(s.cfg.codec, th.req.body, plan.reason)
              && th.calls == ErrorCalls(s.cfg.codec, 400, plan.reason)
  {
    LocalOf(s, t);
    var plan := PlanPost(s.cfg.codec, s.threads[t].req.body);
    RefusesExactly(s.cfg.codec, s.threads[t].req.body, if plan.Refuse? then plan.reason else MalformedBody);
    PostOf(s.cfg, s.history, s.threads[t]);
  }

  lemma PostOf(c: Config, h: seq<Built>, th: Thread)
    requires Local(c, h, th) && HasEntry(th.phase)
    requires c.admin && th.req.path == "/admin/routes" && th.req.verb == "POST"
    ensures var plan := PlanPost(c.codec, th.req.body);
            if plan.Install? then
              && th.phase.entry.status == 200
              && th.installed.Some? && th.seen.Some?
              && th.installed.value <= th.seen.value < |h|
              && h[th.installed.value].table == StableSort(plan.routes)
              && th.calls == TableCalls(c.codec, h[th.seen.value].table)
            else
              && th.phase.entry.status == 400 && th.installed.None?
              && th.calls == ErrorCalls(c.codec, 400, plan.reason)
  {}

  lemma {:induction false} VersionCountsSwaps(r: Trace, i: nat, j: nat)
    requires IsRun(r) && i <= j < |r.states|
    ensures Version(r.states[i]) <= Version(r.states[j])
    ensures Version(r.states[i]) == Version(r.states[j]) <==> forall k :: i <= k < j ==> !r.steps[k].1.Swap?
    decreases j
  {
    if i < j {
      VersionCountsSwaps(r, i, j - 1);
      RunVersion(r, j - 1);
    }
  }

  lemma SwapRecordsVersion(s: State, p: Tid)
    requires Can(s, p, Swap)
    ensures Next(s, p, Swap).threads[p].installed == Some(Version(s) + 1)
  {}

  // A POST's reply shows its own table exactly when no other POST swapped
  // between its own swap and the copy it replies from.
  lemma ReplyIsOwnTable(r: Trace, p: Tid, k: nat, c: nat, j: nat)
    requires IsRun(r) && k < c < |r.steps| && c < j < |r.states|
    requires r.steps[k] == (p, Swap) && r.steps[c] == (p, Copy)
    ensures p in r.states[j].threads
    ensures var th := r.states[j].threads[p];
            && th.installed.Some? && th.seen.Some? && th.installed.value <= th.seen.value
            && (th.seen == th.installed <==> forall i :: k < i < c ==> !r.steps[i].1.Swap?)
  {
    SwapKept(r, p, k, j);
    CopyKept(r, p, c, j);
    VersionCountsSwaps(r, k + 1, c);
  }

  // What a request swapped in, and what it copied, stays on record.
  lemma SwapKept(r: Trace, p: Tid, k: nat, j: nat)
    requires IsRun(r) && k < |r.steps| && k < j < |r.states| && r.steps[k] == (p, Swap)
    ensures p in r.states[j].threads && r.states[j].threads[p].installed == Some(Version(r.states[k + 1]))
  {
    assert Follows(r, k);
    SwapRecordsVersion(r.states[k], p);
    RunVersion(r, k);
    RunExtends(r, k + 1, j);
  }

  lemma CopyKept(r: Trace, p: Tid, c: nat, j: nat)
    requires IsRun(r) && c < |r.steps| && c < j < |r.states| && r.steps[c] == (p, Copy)
    ensures p in r.states[j].threads && r.states[j].threads[p].seen == Some(Version(r.states[c]))
  {
    assert Follows(r, c);
    CopyRecordsVersion(r.states[c], p);
    RunExtends(r, c + 1, j);
  }

  // ---------- A reply that shows a later table ----------

  lemma ReachableNext(s: State, t: Tid, act: Act)
    requires Reachable(s) && Can(s, t, act)
    ensures Reachable(Next(s, t, act))
  {
    var r: Trace, i :| IsRun(r) && 0 <= i < |r.states| && r.states[i] == s;
    var longer := Trace(r.states[..i + 1] + [Next(s, t, act)], r.steps[..i] + [(t, act)]);
    forall k | 0 <= k < |longer.steps| ensures Follows(longer, k) {
      if k < i {
        assert Follows(r, k);
      }
    }
    assert IsRun(longer) && longer.states[i + 1] == Next(s, t, act);
  }

  lemma BootIsReachable(s: State)
    requires Initial(s)
    ensures Reachable(s)
  {
    var r := Trace([s], []);
    assert IsRun(r) && r.states[0] == s;
  }

  // One step of request `t`, seen from outside.
  lemma Takes(s: State, t: Tid, act: Act) returns (s': State)
    requires Reachable(s) && Can(s, t, act)
    ensures Reachable(s') && s'.cfg == s.cfg && s'.threads == s.threads[t := Stepped(s, t, act)]
    ensures !act.Swap? ==> s'.current == s.current && s'.history == s.history
    ensures act.Swap? ==> s.threads[t].role.Installer? && s'.current == s.threads[t].role.next
                          && s'.history == s.history + [s'.current]
  {
    ReachableNext(s, t, act);
    NextShares(s, t, act);
    s' := Next(s, t, act);
  }

  ghost predicate Unlocked(s: State) {
    forall u :: u in s.threads ==> !InLock(s.threads[u].phase)
  }

  // Nothing but request `t` moved, and no lock is held.
  ghost predicate Only(s: State, s': State, t: Tid) {
    && Reachable(s') && Unlocked(s') && s'.cfg == s.cfg
    && t in s.threads && t in s'.threads && s'.threads == s.threads[t := s'.threads[t]]
  }

  // A POST builds and installs its table without interruption.
  lemma InstallsAtOnce(s: State, t: Tid) returns (s': State)
    requires Reachable(s) && Unlocked(s) && t in s.threads
    requires s.threads[t].phase.Arrived? && s.threads[t].role.Installer?
    ensures Only(s, s', t)
    ensures s'.threads[t] == s.threads[t].(phase := Replaced, installed := Some(Version(s) + 1))
    ensures s'.history == s.history + [s'.current] && s'.current == s.threads[t].role.next
  {
    var s1 := LocksToWrite(s, t);
    var s2 := Takes(s1, t, Swap);
    s' := Takes(s2, t, UnlockWrite);
  }

  lemma LocksToWrite(s: State, t: Tid) returns (s': State)
    requires Reachable(s) && Unlocked(s) && t in s.threads
    requires s.threads[t].phase.Arrived? && s.threads[t].role.Installer?
    ensures Reachable(s') && s'.cfg == s.cfg && s'.current == s.current && s'.history == s.history
    ensures s'.threads == s.threads[t := s.threads[t].(phase := WriteLocked)]
  {
    var s1 := Takes(s, t, Prepare);
    s' := Takes(s1, t, LockWrite);
  }

  lemma {:induction false} EmitsAll(s: State, t: Tid) returns (s': State)
    requires Reachable(s) && Unlocked(s) && t in s.threads && s.threads[t].phase.Replying?
    ensures Only(s, s', t) && s'.history == s.history
    ensures s'.threads[t] == s.threads[t].(phase := Replying([]), calls := s'.threads[t].calls, w := s'.threads[t].w)
    decreases |s.threads[t].phase.rest|
  {
    if s.threads[t].phase.rest == [] {
      s' := s;
    } else {
      var s1 := Takes(s, t, EmitNext);
      s' := EmitsAll(s1, t);
    }
  }

  // It reads a table back and replies, again without interruption.
  lemma Replies200(s: State, t: Tid) returns (s': State)
    requires Reachable(s) && Unlocked(s) && t in s.threads
    requires s.threads[t].phase.Replaced? && s.threads[t].role.Installer?
    ensures Only(s, s', t) && s'.history == s.history
    ensures HasEntry(s'.threads[t].phase) && s'.threads[t].seen == Some(Version(s))
    ensures s'.threads[t].req == s.threads[t].req && s'.threads[t].installed == s.threads[t].installed
    ensures s'.threads[t].role == s.threads[t].role
  {
    var s1 := ReadsBack(s, t);
    var s2 := EmitsAll(s1, t);
    s' := Returns(s2, t);
  }

  lemma Returns(s: State, t: Tid) returns (s': State)
    requires Reachable(s) && Unlocked(s) && t in s.threads && s.threads[t].phase == Replying([])
    ensures Only(s, s', t) && s'.history == s.history && HasEntry(s'.threads[t].phase)
    ensures s'.threads[t] == s.threads[t].(phase := s'.threads[t].phase)
  {
    LocalOf(s, t);
    WriterIsALayer(s.cfg, s.history, s.threads[t]);
    s' := Takes(s, t, Return("\n"));
  }

  lemma WriterIsALayer(c: Config, h: seq<Built>, th: Thread)
    requires Local(c, h, th)
    ensures th.w.Layer?
  {
    CompositionsAgree(c.layers, Tagged(th.id), th.calls, 0);
  }

  lemma ReadsBack(s: State, t: Tid) returns (s': State)
    requires Reachable(s) && Unlocked(s) && t in s.threads
    requires s.threads[t].phase.Replaced? && s.threads[t].role.Installer?
    ensures Only(s, s', t) && s'.history == s.history
    ensures s'.threads[t].phase.Replying? && s'.threads[t].seen == Some(Version(s))
    ensures s'.threads[t].req == s.threads[t].req && s'.threads[t].installed == s.threads[t].installed
    ensures s'.threads[t].role == s.threads[t].role
  {
    var s1 := Copies(s, t);
    var s2 := Takes(s1, t, UnlockRead);
    s' := Takes(s2, t, List);
  }

  lemma Copies(s: State, t: Tid) returns (s': State)
    requires Reachable(s) && Unlocked(s) && t in s.threads && s.threads[t].phase.Replaced?
    ensures Reachable(s') && s'.cfg == s.cfg && s'.current == s.current && s'.history == s.history
    ensures s'.threads == s.threads[t := s.threads[t].(phase := Copied(s.current), seen := Some(Version(s)))]
  {
    var s1 := Takes(s, t, LockRead);
    s' := Takes(s1, t, Copy);
  }

  predicate IsValidPost(c: Config, req: Inbound) {
    c.admin && req.path == "/admin/routes" && req.verb == "POST" && Installed(c.codec, req.body).Some?
  }

  // The condition can fail: wherever no lock is held, two valid POSTs that
  // arrive can be scheduled so that the first replies with the second's table.
  lemma ReplyCanBeLater(s: State, mine: Inbound, other: Inbound, p: Tid, q: Tid) returns (s': State)
    requires Reachable(s) && Unlocked(s) && p !in s.threads && q !in s.threads && p != q
    requires IsValidPost(s.cfg, mine) && IsValidPost(s.cfg, other)
    ensures Reachable(s') && p in s'.threads && s'.threads[p].req == mine && HasEntry(s'.threads[p].phase)
    ensures var th := s'.threads[p];
            && th.installed.Some? && th.seen.Some? && th.installed.value < th.seen.value
            && th.calls == TableCalls(s.cfg.codec, Installed(s.cfg.codec, other.body).value.table)
  {
    var s1 := TwoInstall(s, mine, other, p, q);
    s' := Replies200(s1, p);
    LocalOf(s', p);
    PostShows(s'.cfg, s'.history, s'.threads[p]);
  }

  lemma TwoInstall(s: State, mine: Inbound, other: Inbound, p: Tid, q: Tid) returns (s': State)
    requires Reachable(s) && Unlocked(s) && p !in s.threads && q !in s.threads && p != q
    requires IsValidPost(s.cfg, mine) && IsValidPost(s.cfg, other)
    ensures Reachable(s') && Unlocked(s') && s'.cfg == s.cfg && p in s'.threads
    ensures var th := s'.threads[p];
            th.req == mine && th.phase.Replaced? && th.role.Installer?
            && th.installed.Some? && th.installed.value < Version(s')
    ensures s'.history != [] && s'.history[Version(s')] == Installed(s.cfg.codec, other.body).value
  {
    var s1 := ArrivesToPost(s, p, mine);
    var s2 := ArrivesToPost(s1, q, other);
    s' := OneThenOther(s2, p, q);
  }

  lemma OneThenOther(s: State, p: Tid, q: Tid) returns (s': State)
    requires Reachable(s) && Unlocked(s) && p in s.threads && q in s.threads && p != q && s.history != []
    requires s.threads[p].phase.Arrived? && s.threads[p].role.Installer?
    requires s.threads[q].phase.Arrived? && s.threads[q].role.Installer?
    ensures Reachable(s') && Unlocked(s') && s'.cfg == s.cfg && p in s'.threads
    ensures s'.threads[p] == s.threads[p].(phase := Replaced, installed := Some(Version(s) + 1))
    ensures Version(s') == Version(s) + 2 && s'.history != [] && s'.history[Version(s')] == s.threads[q].role.next
  {
    var s1 := InstallsAtOnce(s, p);
    s' := InstallsAtOnce(s1, q);
  }

  lemma ArrivesToPost(s: State, t: Tid, req: Inbound) returns (s': State)
    requires Reachable(s) && Unlocked(s) && t !in s.threads && IsValidPost(s.cfg, req)
    ensures Reachable(s') && Unlocked(s') && s'.cfg == s.cfg && s'.history == s.history != []
    ensures t in s'.threads && s'.threads == s.threads[t := s'.threads[t]]
    ensures var th := s'.threads[t];
            th.req == req && th.phase.Arrived? && th.role == Installer(Installed(s.cfg.codec, req.body).value)
  {
    HasHistory(s);
    ValidPostInstalls(s.cfg, req);
    NewArrival(s, t, req);
    s' := Takes(s, t, Arrive(req));
  }

  lemma NewArrival(s: State, t: Tid, req: Inbound)
    requires t !in s.threads
    ensures Can(s, t, Arrive(req))
    ensures var th := Stepped(s, t, Arrive(req));
            th.req == req && th.phase == Arrived && th.role == RoleOf(s.cfg, req)
  {}

  lemma HasHistory(s: State)
    requires Reachable(s)
    ensures s.history != []
  {
    ReachableInv(s);
  }

  lemma ValidPostInstalls(c: Config, req: Inbound)
    requires IsValidPost(c, req)
    ensures RoleOf(c, req) == Installer(Installed(c.codec, req.body).value)
  {}

  lemma PostShows(c: Config, h: seq<Built>, th: Thread)
    requires Local(c, h, th) && HasEntry(th.phase) && th.role.Installer?
    ensures th.seen.Some? && th.seen.value < |h| && th.calls == TableCalls(c.codec, h[th.seen.value].table)
  {}

  // ---------- Posting back what is served ----------

  // Posting the listing of the table in service changes nothing: whenever that
  // swap comes, if the table is still the one listed it stays, map and all.
  lemma RepostChangesNothing(s: State, p: Tid)
    requires Reachable(s) && Can(s, p, Swap)
    requires PrintsBack(s.cfg.codec, s.current.table)
    requires s.threads[p].req.body == Some(Listing(s.cfg.codec, s.current.table))
    ensures Next(s, p, Swap).current == s.current
  {
    LocalOf(s, p);
    ReachableInv(s);
    RepostInstalls(s.cfg, s.history, s.threads[p], s.current);
  }

  lemma RepostInstalls(c: Config, h: seq<Built>, th: Thread, b: Built)
    requires Local(c, h, th) && CanMove(c, th, Swap) && IsStored(b) && PrintsBack(c.codec, b.table)
    requires th.req.body == Some(Listing(c.codec, b.table))
    ensures th.role.next == b
  {
    RepostIsIdentity(c.codec, b);
  }

  // Such a POST is accepted from every reachable state, and what it builds is
  // the handler in service.
  lemma RepostIsAccepted(s: State)
    requires Reachable(s) && PrintsBack(s.cfg.codec, s.current.table)
    ensures Installed(s.cfg.codec, Some(Listing(s.cfg.codec, s.current.table))) == Some(s.current)
  {
    ReachableInv(s);
    RepostIsIdentity(s.cfg.codec, s.current);
  }

  // ---------- The leading slash ----------

  ghost predicate SlashedHistory(h: seq<Built>) {
    forall k :: 0 <= k < |h| ==> AllSlashed(h[k].table)
  }

  // The body of the POST that swaps at step `i`.
  ghost predicate SwapsSlashed(r: Trace, i: nat)
    requires i < |r.steps| < |r.states|
  {
    var s, p := r.states[i], r.steps[i].0;
    p in s.threads && s.threads[p].req.body.Some? && AllSlashedSpecs(s.threads[p].req.body.value)
  }

  // From a boot by flags, every table that ever served starts all its prefixes
  // with a slash exactly when every body swapped in so far does.
  lemma {:induction false} SlashedIffPostsAre(r: Trace, specs: seq<string>, routes: seq<Route>, j: nat)
    requires IsRun(r) && j < |r.states|
    requires Parses(r.states[0].cfg.codec.parse, specs, Success(routes)) && Distinct(routes)
    requires Backed(StableSort(routes)) && r.states[0] == Boot(r.states[0].cfg, routes)
    ensures SlashedHistory(r.states[j].history)
       <==> forall i :: 0 <= i < j && r.steps[i].1.Swap? ==> SwapsSlashed(r, i)
  {
    if j == 0 {
      BootIsSlashed(r.states[0].cfg, specs, routes);
    } else {
      SlashedIffPostsAre(r, specs, routes, j - 1);
      SlashStep(r, j - 1);
    }
  }

  lemma BootIsSlashed(c: Config, specs: seq<string>, routes: seq<Route>)
    requires Parses(c.codec.parse, specs, Success(routes)) && Backed(StableSort(routes))
    ensures SlashedHistory(Boot(c, routes).history)
  {
    ParsedRoutes(c.codec.parse, specs, routes);
    StableSortCorrect(routes);
    SlashedIgnoresOrder(routes, StableSort(routes));
  }

  lemma SlashStep(r: Trace, i: nat)
    requires IsRun(r) && i < |r.steps|
    ensures SlashedHistory(r.states[i + 1].history)
       <==> SlashedHistory(r.states[i].history) && (r.steps[i].1.Swap? ==> SwapsSlashed(r, i))
  {
    var s, p, act := r.states[i], r.steps[i].0, r.steps[i].1;
    RunInv(r, i);
    assert Follows(r, i);
    HistoryStep(s, p, act);
    if act.Swap? {
      assert Local(s.cfg, s.history, s.threads[p]);
      SwapFollowsBody(s.cfg, s.history, s.threads[p]);
      SlashedAppend(s.history, s.threads[p].role.next);
    }
  }

  lemma SlashedAppend(h: seq<Built>, b: Built)
    ensures SlashedHistory(h + [b]) <==> SlashedHistory(h) && AllSlashed(b.table)
  {
    assert forall k :: 0 <= k < |h| ==> (h + [b])[k] == h[k];
    assert (h + [b])[|h|] == b;
  }

  lemma SwapFollowsBody(c: Config, h: seq<Built>, th: Thread)
    requires Local(c, h, th) && CanMove(c, th, Swap)
    ensures th.req.body.Some? && (AllSlashed(th.role.next.table) <==> AllSlashedSpecs(th.req.body.value))
  {
    InstallsMeans(c, th.req);
    ListedSlashes(c.codec, th.req.body.value);
  }

  lemma ListedSlashes(codec: Codec, specs: seq<RouteSpec>)
    ensures AllSlashed(StableSort(Listed(codec, specs))) <==> AllSlashedSpecs(specs)
  {
    var routes := Listed(codec, specs);
    assert forall i :: 0 <= i < |specs| ==> routes[i].prefix == specs[i].prefix;
    StableSortCorrect(routes);
    SlashedIgnoresOrder(routes, StableSort(routes));
  }

  // And one such body is enough: wherever no lock is held, a valid POST with a
  // prefix without the slash can put that table in service.
  lemma SlashCanBeLost(s: State, p: Tid, req: Inbound) returns (s': State)
    requires Reachable(s) && Unlocked(s) && p !in s.threads
    requires IsValidPost(s.cfg, req) && req.body.Some? && !AllSlashedSpecs(req.body.value)
    ensures Reachable(s') && !AllSlashed(s'.current.table)
  {
    var s1 := ArrivesToPost(s, p, req);
    s' := InstallsAtOnce(s1, p);
    SlashFollowsBody(s.cfg.codec, req.body, PlanPost(s.cfg.codec, req.body).routes);
  }

  // ---------- Without the admin endpoint ----------

  // Without the admin endpoint the boot table serves for ever.
  lemma {:induction false} FixedWithoutAdmin(r: Trace, j: nat)
    requires IsRun(r) && j < |r.states| && !r.states[0].cfg.admin
    ensures r.states[j].current == r.states[0].current
    ensures r.states[j].cfg == r.states[0].cfg
  {
    if j != 0 {
      FixedWithoutAdmin(r, j - 1);
      RunStep(r, j - 1);
      NoSwapWithoutAdmin(r, j - 1);
      OnlySwapChangesTable(r.states[j - 1], r.steps[j - 1].0, r.steps[j - 1].1);
    }
  }

  lemma NoSwapWithoutAdmin(r: Trace, i: nat)
    requires IsRun(r) && i < |r.steps| && !r.states[i].cfg.admin
    ensures Follows(r, i) && !r.steps[i].1.Swap?
  {
    var s, t := r.states[i], r.steps[i].0;
    assert Follows(r, i);
    if t in s.threads {
      RunInv(r, i);
      assert Local(s.cfg, s.history, s.threads[t]);
      InstallersNeedAdmin(s.cfg, s.history, s.threads[t]);
    }
  }

  lemma InstallersNeedAdmin(c: Config, h: seq<Built>, th: Thread)
    requires Local(c, h, th) && !c.admin
    ensures !CanMove(c, th, Swap)
  {}

  // ---------- Every reachable state ----------

  // Every table that ever served was non-empty, sorted, free of duplicates and
  // empty prefixes, and backed throughout; the two indexes agreed, so a lookup
  // after a match never misses and the dispatch is always possible.
  lemma ServedTablesAreSound(s: State, k: nat)
    requires Reachable(s) && k < |s.history|
    ensures WellFormed(s.history[k].table)
    ensures Backed(s.history[k].table) && s.history[k].proxies == ProxyMap(s.history[k].table)
    ensures var b := s.history[k];
            && b.table != []
            && (forall i :: 0 <= i < |b.table| ==>
                  && b.table[i].prefix != "" && b.table[i].backend.Some?
                  && b.table[i].backend.value.scheme != "" && b.table[i].backend.value.host != ""
                  && b.table[i].prefix in b.proxies && b.proxies[b.table[i].prefix] == b.table[i].backend.value)
            && (forall i, j :: 0 <= i < j < |b.table| ==>
                  b.table[i].prefix != b.table[j].prefix && |b.table[i].prefix| >= |b.table[j].prefix|)
    ensures forall t :: t in s.threads && s.threads[t].phase.Stamped? ==> Can(s, t, Dispatch)
  {
    ReachableInv(s);
    assert IsStored(s.history[k]);
    TwoIndexesAgree(s.history[k].table);
    forall t | t in s.threads && s.threads[t].phase.Stamped? ensures Can(s, t, Dispatch) {
      LocalOf(s, t);
      DispatchIsEnabled(s.cfg, s.history, s.threads[t]);
    }
  }

  lemma DispatchIsEnabled(c: Config, h: seq<Built>, th: Thread)
    requires SoundHistory(h) && Local(c, h, th) && th.phase.Stamped?
    ensures CanMove(c, th, Dispatch)
  {
    assert IsStored(h[th.seen.value]);
    LookupFollowsMatch(th.phase.cur.table, th.req.path);
  }

  // No data race: while one request may swap the handler no other may read or
  // swap it, and only one request at a time may write to the log.
  lemma SwapIsAlone(s: State, t: Tid, u: Tid)
    requires Reachable(s) && Can(s, t, Swap) && (Can(s, u, Swap) || Can(s, u, Copy))
    ensures t == u
  {
    ReachableInv(s);
    SwapMeansWriting(s, t);
    InsideTheLock(s, u);
    OneWriter(s, t, u);
  }

  lemma SwapMeansWriting(s: State, t: Tid)
    requires Can(s, t, Swap)
    ensures t in s.threads && Writing(s.threads[t].phase)
  {}

  lemma InsideTheLock(s: State, u: Tid)
    requires Can(s, u, Swap) || Can(s, u, Copy)
    ensures u in s.threads && InLock(s.threads[u].phase)
  {}

  lemma OneWriter(s: State, t: Tid, u: Tid)
    requires Exclusive(s) && t in s.threads && u in s.threads
    requires Writing(s.threads[t].phase) && InLock(s.threads[u].phase)
    ensures t == u
  {}

  lemma LogWriterIsAlone(s: State, t: Tid, u: Tid)
    requires Reachable(s) && Can(s, t, PutByte) && Can(s, u, PutByte)
    ensures t == u
  {
    ReachableInv(s);
    ByteMeansLogging(s, t);
    ByteMeansLogging(s, u);
    OneLogger(s, t, u);
  }

  lemma ByteMeansLogging(s: State, t: Tid)
    requires Can(s, t, PutByte)
    ensures t in s.threads && s.threads[t].phase.Logging?
  {}

  lemma OneLogger(s: State, t: Tid, u: Tid)
    requires Exclusive(s) && t in s.threads && u in s.threads
    requires s.threads[t].phase.Logging? && s.threads[u].phase.Logging?
    ensures t == u
  {}

  // ---------- Log, metrics and the wire ----------

  // The entry, every writer layer, the metric label and the status line agree,
  // and the route is the prefix dispatched on, or empty when nothing was.
  lemma EverythingAgrees(s: State, t: Tid, k: nat)
    requires Reachable(s) && t in s.threads && HasEntry(s.threads[t].phase)
    requires k < |Kinds(s.cfg.layers)|
    ensures var th, e := s.threads[t], s.threads[t].phase.entry;
            && Depth(th.w) == |Kinds(s.cfg.layers)|
            && At(th.w, k).status == e.status && At(th.w, k).route == e.route
            && Base(Finish(th.w)).committed == Some(e.status)
            && Base(Finish(th.w)).sent == SentFields(Tagged(e.id), th.calls)
            && Base(Finish(th.w)).body == Bodies(th.calls)
            && e.route == (if th.sent.Some? then th.sent.value.route.prefix else "")
            && e.verb == th.req.verb && e.path == th.req.path
            && e.id == th.id == Resolve(th.req.correlation, th.req.random) != ""
            && (th.sent.Some? ==> th.sent.value.header == e.id)
            && (s.cfg.layers.metrics ==> MetricLabel(th) == LabelOf(e))
  {
    ReachableInv(s);
    var th := s.threads[t];
    assert Local(s.cfg, s.history, th);
    CompositionsAgree(s.cfg.layers, Tagged(th.id), th.calls, k);
    ResolvedIsNotBlank(th.req.correlation, th.req.random);
    if s.cfg.layers.metrics {
      LabelsAgree(s.cfg, s.history, th);
    }
  }

  // The first correlation ID on the response is the one in the log entry unless
  // a backend or probe Sets that field; added values come after it. What the
  // gateway answers itself carries that ID, JSON, and nothing else but the
  // methods allowed on a 405.
  lemma ResponseCarriesID(s: State, t: Tid)
    requires Reachable(s) && t in s.threads && HasEntry(s.threads[t].phase)
    ensures var th, id := s.threads[t], s.threads[t].phase.entry.id;
            var sent := Base(Finish(th.w)).sent;
            && "X-Correlation-Id" in sent && sent["X-Correlation-Id"] != []
            && sent["X-Correlation-Id"][0] == LastSet(id, "X-Correlation-Id", th.calls)
            && (NeverSets("X-Correlation-Id", th.calls) ==> sent["X-Correlation-Id"][0] == id)
            && (th.sent.None? && !th.role.Probe? ==>
                  sent == if th.phase.entry.status == 405
                          then map["X-Correlation-Id" := [id], "Allow" := ["GET, POST"], "Content-Type" := ["application/json"]]
                          else map["X-Correlation-Id" := [id], "Content-Type" := ["application/json"]])
  {
    LocalOf(s, t);
    var th := s.threads[t];
    EverythingAgrees(s, t, 0);
    FirstValue(Tagged(th.id), CORRELATION_HEADER, th.calls);
    if NeverSets(CORRELATION_HEADER, th.calls) {
      NeverSetKeeps(th.id, CORRELATION_HEADER, th.calls);
    }
    if th.sent.None? && !th.role.Probe? {
      OwnReplyFields(s.cfg, s.history, th, Tagged(th.id));
    }
  }

  lemma OwnReplyFields(c: Config, h: seq<Built>, th: Thread, f: Fields)
    requires Local(c, h, th) && HasEntry(th.phase) && th.sent.None? && !th.role.Probe?
    ensures SentFields(f, th.calls)
         == (if th.phase.entry.status == 405 then f["Allow" := ["GET, POST"]] else f)["Content-Type" := ["application/json"]]
  {
    assert th.phase.entry.status == FirstStatus(th.calls);
    if th.role.Refused? {
      assert th.calls == AdminReply(c.codec, th.req.verb, th.req.body, []);
    }
  }

  // A logged route is not empty exactly when the request went to a backend; what
  // the gateway answers itself, the admin endpoint included, has no route.
  lemma RouteLoggedIffDispatched(s: State, t: Tid)
    requires Reachable(s) && t in s.threads && HasEntry(s.threads[t].phase)
    ensures s.threads[t].phase.entry.route != "" <==> s.threads[t].sent.Some?
    ensures s.threads[t].sent.Some? ==> RoleOf(s.cfg, s.threads[t].req).Proxied?
  {
    LocalOf(s, t);
    var th := s.threads[t];
    if th.sent.Some? {
      var b := s.history[th.seen.value];
      assert IsStored(b);
      ScanWins(b.table, th.req.path);
      assert Sound(th.sent.value.route);
    }
  }

  // Conservation, per label and in every reachable state, and every route ever
  // recorded is empty or a prefix of some installed table.
  lemma Conservation(s: State, l: Label)
    requires Reachable(s)
    ensures s.cfg.layers.metrics ==>
              && Tally(s.log, l) == Get(s.counter, l) + |Waiting(s, l)|
              && Get(s.counter, l) == Get(s.durations, l) + |Observing(s, l)|
              && (Tally(s.log, l) == Get(s.counter, l) <==> Waiting(s, l) == {})
    ensures |s.log| == |Recorded(s)|
    ensures Tally(s.log, l) > 0 ==> l.route == "" || Configured(s.history, l.route)
  {
    ReachableInv(s);
    if s.cfg.layers.metrics {
      assert Balanced(s, l);
    }
    if Tally(s.log, l) > 0 {
      var k := TallyWitness(s.log, l);
    }
  }

  // And some are: right after an entry is complete, the log is ahead.
  lemma LogLeadsMetrics(s: State, t: Tid)
    requires Reachable(s) && s.cfg.layers.metrics && Can(s, t, UnlockLog)
    ensures var s', l := Next(s, t, UnlockLog), LabelOf(s.threads[t].phase.entry);
            Reachable(s') && Tally(s'.log, l) > Get(s'.counter, l)
  {
    var l := LabelOf(s.threads[t].phase.entry);
    ReachableNext(s, t, UnlockLog);
    NextShares(s, t, UnlockLog);
    Conservation(Next(s, t, UnlockLog), l);
    assert t in Waiting(Next(s, t, UnlockLog), l);
  }

  lemma {:induction false} TallyWitness(log: seq<Entry>, l: Label) returns (k: nat)
    requires Tally(log, l) > 0
    ensures k < |log| && LabelOf(log[k]) == l
  {
    if LabelOf(log[|log| - 1]) == l {
      k := |log| - 1;
    } else {
      k := TallyWitness(log[..|log| - 1], l);
    }
  }

  ghost predicate Quiet(s: State) {
    forall t :: t in s.threads ==> s.threads[t].phase.Done? || s.threads[t].phase.Aborted?
  }

  ghost function Finished(s: State): set<Tid> {
    set t | t in s.threads && s.threads[t].phase.Done?
  }

  // When nothing is in flight, log, counter and histogram agree on every
  // label, the sink is whole lines, one per request that was not aborted, and
  // it reads back as exactly those lines.
  lemma QuietAgreement(s: State, l: Label)
    requires Reachable(s) && Quiet(s)
    ensures s.cfg.layers.metrics ==> Tally(s.log, l) == Get(s.counter, l) == Get(s.durations, l)
    ensures |s.log| == |Finished(s)|
    ensures Split(s.sink) == (Lines(s.log), "")
  {
    ReachableInv(s);
    QuietSets(s, l);
    if s.cfg.layers.metrics {
      assert Balanced(s, l);
    }
    WholeSink(s);
  }

  lemma QuietSets(s: State, l: Label)
    requires Quiet(s)
    ensures Waiting(s, l) == {} && Observing(s, l) == {} && Recorded(s) == Finished(s)
    ensures forall t :: t in s.threads ==> !s.threads[t].phase.Logging?
  {}

  lemma WholeSink(s: State)
    requires Untorn(s) && forall t :: t in s.threads ==> !s.threads[t].phase.Logging?
    ensures Split(s.sink) == (Lines(s.log), "")
  {
    assert s.sink + "" == s.sink;
    LinesReadBack(Lines(s.log), "");
  }

  // In any state the complete lines in the sink are the entries logged, plus
  // the one whose last byte is written while its mutex is still held.
  lemma LogNeverTears(s: State)
    requires Reachable(s)
    ensures Split(s.sink).0 == Lines(s.log)
         || exists t :: t in s.threads && s.threads[t].phase.Logging?
                        && s.threads[t].phase.written == |s.threads[t].phase.entry.line|
                        && Split(s.sink) == (Lines(s.log) + [s.threads[t].phase.entry.line], "")
  {
    ReachableInv(s);
    if t :| t in s.threads && s.threads[t].phase.Logging? {
      assert Local(s.cfg, s.history, s.threads[t]);
      HolderLine(s, s.threads[t].phase.entry, s.threads[t].phase.written);
    } else {
      WholeSink(s);
    }
  }

  lemma HolderLine(s: State, e: Entry, n: nat)
    requires n <= |e.line| && IsLine(e.line) && (forall k :: 0 <= k < |s.log| ==> IsLine(s.log[k].line))
    requires s.sink == Concat(Lines(s.log)) + e.line[..n]
    ensures if n == |e.line| then Split(s.sink) == (Lines(s.log) + [e.line], "") else Split(s.sink).0 == Lines(s.log)
  {
    if n == |e.line| {
      assert e.line[..n] == e.line;
      LinesAppend(s.log, e);
      assert s.sink + "" == s.sink;
      LinesReadBack(Lines(s.log + [e]), "");
    } else {
      LinesReadBack(Lines(s.log), e.line[..n]);
    }
  }

  ghost predicate SameShared(s: State, s': State) {
    && s'.sink == s.sink && s'.log == s.log && s'.counter == s.counter && s'.durations == s.durations
    && s'.current == s.current && s'.history == s.history
  }

  // A request whose handler aborts leaves no trace, before or after: it never
  // had a log entry or installed a table, none of its steps changed the sink,
  // the log, a metric or the table, and from the abort on it makes no step.
  lemma AbortLeavesNoTrace(r: Trace, t: Tid, j: nat)
    requires IsRun(r) && j < |r.states|
    requires t in r.states[j].threads && r.states[j].threads[t].phase.Aborted?
    ensures forall i :: 0 <= i <= j && t in r.states[i].threads ==>
              !HasEntry(r.states[i].threads[t].phase) && r.states[i].threads[t].installed.None?
    ensures forall i :: 0 <= i < |r.steps| && r.steps[i].0 == t ==> i < j && SameShared(r.states[i], r.states[i + 1])
    ensures forall i :: j <= i < |r.states| ==>
              t in r.states[i].threads && r.states[i].threads[t] == r.states[j].threads[t]
  {
    forall i | 0 <= i <= j && t in r.states[i].threads
      ensures !HasEntry(r.states[i].threads[t].phase) && r.states[i].threads[t].installed.None?
    {
      NothingBeforeAbort(r, t, i, j);
    }
    forall i | j <= i < |r.states|
      ensures t in r.states[i].threads && r.states[i].threads[t] == r.states[j].threads[t]
    {
      AbortedStays(r, t, j, i);
    }
    forall i | 0 <= i < |r.steps| && r.steps[i].0 == t
      ensures i < j && SameShared(r.states[i], r.states[i + 1])
    {
      if j <= i {
        AbortedStays(r, t, j, i);
        AbortedIsStuck(r, t, i);
      } else {
        QuietBeforeAbort(r, t, i, j);
      }
    }
  }

  // A log entry, once there, stays: such a request never aborts.
  lemma {:induction false} EntryStays(r: Trace, t: Tid, i: nat, j: nat)
    requires IsRun(r) && i <= j < |r.states|
    requires t in r.states[i].threads && HasEntry(r.states[i].threads[t].phase)
    ensures t in r.states[j].threads && HasEntry(r.states[j].threads[t].phase)
    decreases j
  {
    if i < j {
      EntryStays(r, t, i, j - 1);
      assert Follows(r, j - 1);
      EntryStep(r.states[j - 1], r.steps[j - 1].0, r.steps[j - 1].1, t);
    }
  }

  lemma EntryStep(s: State, u: Tid, act: Act, t: Tid)
    requires Can(s, u, act) && t in s.threads && HasEntry(s.threads[t].phase)
    ensures t in Next(s, u, act).threads && HasEntry(Next(s, u, act).threads[t].phase)
  {}

  lemma NothingBeforeAbort(r: Trace, t: Tid, i: nat, j: nat)
    requires IsRun(r) && i <= j < |r.states| && t in r.states[i].threads
    requires t in r.states[j].threads && r.states[j].threads[t].phase.Aborted?
    ensures !HasEntry(r.states[i].threads[t].phase) && r.states[i].threads[t].installed.None?
  {
    if HasEntry(r.states[i].threads[t].phase) {
      EntryStays(r, t, i, j);
    }
    RunExtends(r, i, j);
    RunInv(r, j);
    assert Local(r.states[j].cfg, r.states[j].history, r.states[j].threads[t]);
  }

  // A step that changes shared state belongs to a request that installs a
  // table or has an entry afterwards.
  lemma MarkedStep(s: State, t: Tid, act: Act)
    requires Can(s, t, act)
    ensures var th := Next(s, t, act).threads[t];
            SameShared(s, Next(s, t, act)) || HasEntry(th.phase) || th.installed.Some?
  {}

  lemma QuietBeforeAbort(r: Trace, t: Tid, i: nat, j: nat)
    requires IsRun(r) && i < j < |r.states| && r.steps[i].0 == t
    requires t in r.states[j].threads && r.states[j].threads[t].phase.Aborted?
    ensures SameShared(r.states[i], r.states[i + 1])
  {
    assert Follows(r, i);
    MarkedStep(r.states[i], t, r.steps[i].1);
    NothingBeforeAbort(r, t, i + 1, j);
  }

  lemma {:induction false} AbortedStays(r: Trace, t: Tid, j: nat, i: nat)
    requires IsRun(r) && j <= i < |r.states|
    requires t in r.states[j].threads && r.states[j].threads[t].phase.Aborted?
    ensures t in r.states[i].threads && r.states[i].threads[t] == r.states[j].threads[t]
    decreases i
  {
    if j < i {
      AbortedStays(r, t, j, i - 1);
      AbortedIsStuck(r, t, i - 1);
      assert Follows(r, i - 1);
    }
  }

  lemma AbortedIsStuck(r: Trace, t: Tid, i: nat)
    requires IsRun(r) && i < |r.steps|
    requires t in r.states[i].threads && r.states[i].threads[t].phase.Aborted?
    ensures r.steps[i].0 != t
  {
    assert Follows(r, i);
  }

  // ---------- No deadlock ----------

  // While some request is unfinished, some request can make a step.
  lemma NoDeadlock(s: State)
    requires Reachable(s) && !Quiet(s)
    ensures exists t, act :: t in s.threads && Can(s, t, act)
  {
    var t := Unblocked(s);
    var act := OwnNext(s, t);
    MovableCan(s, t, act);
  }

  // Somebody inside a lock, or anybody unfinished when no lock is taken.
  lemma Unblocked(s: State) returns (t: Tid)
    requires !Quiet(s)
    ensures t in s.threads && !s.threads[t].phase.Done? && !s.threads[t].phase.Aborted?
    ensures InLock(s.threads[t].phase) || s.threads[t].phase.Logging?
            || forall u :: u in s.threads ==> !InLock(s.threads[u].phase) && !s.threads[u].phase.Logging?
  {
    if u :| u in s.threads && (InLock(s.threads[u].phase) || s.threads[u].phase.Logging?) {
      t := u;
    } else {
      t :| t in s.threads && !s.threads[t].phase.Done? && !s.threads[t].phase.Aborted?;
    }
  }

  lemma MovableCan(s: State, t: Tid, act: Act)
    requires t in s.threads && Movable(s.cfg, s.threads[t], act)
    requires InLock(s.threads[t].phase) || s.threads[t].phase.Logging?
             || forall u :: u in s.threads ==> !InLock(s.threads[u].phase) && !s.threads[u].phase.Logging?
    ensures Can(s, t, act)
  {}

  // A request whose next move needs no lock, or a lock it does not hold.
  ghost predicate Movable(c: Config, th: Thread, act: Act) {
    && CanMove(c, th, act) && !act.Arrive?
    && (InLock(th.phase) || th.phase.Logging? ==> !act.LockRead? && !act.LockWrite? && !act.LockLog?)
  }

  // The move a request can make on its own once the locks allow it.
  lemma OwnNext(s: State, t: Tid) returns (act: Act)
    requires Reachable(s) && t in s.threads && !s.threads[t].phase.Done? && !s.threads[t].phase.Aborted?
    ensures Movable(s.cfg, s.threads[t], act)
  {
    LocalOf(s, t);
    var th := s.threads[t];
    if th.phase.Stamped? {
      DispatchIsEnabled(s.cfg, s.history, th);
    }
    CompositionsAgree(s.cfg.layers, Tagged(th.id), th.calls, 0);
    act := NextOf(s.cfg, s.history, th);
  }

  lemma NextOf(c: Config, h: seq<Built>, th: Thread) returns (act: Act)
    requires Scripted(c, h, th) && Entered(c, th) && th.w.Layer? && !th.phase.Done? && !th.phase.Aborted?
    requires th.phase.Stamped? ==> CanMove(c, th, Dispatch)
    ensures Movable(c, th, act)
  {
    if BeforeCopy(th.phase) {
      act := NextBeforeCopy(c, h, th);
    } else if HoldsCopy(th.phase) {
      act := NextWithCopy(c, h, th);
    } else if HasEntry(th.phase) {
      act := NextWithEntry(c, th);
    } else {
      act := NextInHandler(c, th);
    }
  }

  lemma NextInHandler(c: Config, th: Thread) returns (act: Act)
    requires th.w.Layer? && (th.phase.Serving? || th.phase.Replying?)
    ensures Movable(c, th, act)
  {
    act := if th.phase.Replying? && th.phase.rest != [] then EmitNext else Return("\n");
  }

  lemma NextBeforeCopy(c: Config, h: seq<Built>, th: Thread) returns (act: Act)
    requires Scripted(c, h, th) && BeforeCopy(th.phase)
    ensures Movable(c, th, act)
  {
    match th.phase {
      case Arrived =>
        act := match th.role
          case Installer(_) => Prepare
          case Refused(_) => Act.Refuse
          case Probe => Answer
          case _ => LockRead;
      case Prepared => act := LockWrite;
      case WriteLocked => act := Swap;
      case Swapped => act := UnlockWrite;
      case ReadLocked => act := Copy;
      case _ => act := LockRead;
    }
  }

  lemma NextWithCopy(c: Config, h: seq<Built>, th: Thread) returns (act: Act)
    requires Scripted(c, h, th) && HoldsCopy(th.phase)
    requires th.phase.Stamped? ==> CanMove(c, th, Dispatch)
    ensures Movable(c, th, act)
  {
    act := if th.phase.Stamped? then Dispatch
           else if th.phase.Copied? then UnlockRead
           else if th.phase.Matched? then StampRoute
           else if th.role.Proxied? then Match else List;
  }

  lemma NextWithEntry(c: Config, th: Thread) returns (act: Act)
    requires Entered(c, th) && HasEntry(th.phase) && !th.phase.Done?
    ensures Movable(c, th, act)
  {
    act := match th.phase
      case Logging(e, n) => if n < |e.line| then PutByte else UnlockLog
      case Logged(_) => Count
      case Counted(_) => Observe
      case _ => LockLog;
  }
}
