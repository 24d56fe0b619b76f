/**
 What a run's steps, read off the trace, come to: the writes of a backend on the
 wire and in the log, each request's own log line and counter, and who may move.
 */
module GatewayTraces {
  import opened Wrappers
  import opened Routing
  import opened WriterStack
  import opened Proxy
  import opened RoutesAdmin
  import opened CorrelationId
  import opened LogLines
  import opened Gateway
  import opened GatewayInvariant
  import opened GatewayRuns

  // ---------- What a backend or probe wrote ----------

  // The calls of the Emit steps of request `t`, in order. They lie between its
  // Dispatch, or Answer, and its return.
  function EmitsOf(steps: seq<(Tid, Act)>, t: Tid): seq<Call> {
    if steps == [] then []
    else
      var (u, act) := steps[|steps| - 1];
      EmitsOf(steps[..|steps| - 1], t) + if u == t && act.Emit? then [act.call] else []
  }

  function Emitted(r: Trace, t: Tid, j: nat): seq<Call>
    requires j <= |r.steps|
  {
    EmitsOf(r.steps[..j], t)
  }

  lemma EmittedStep(r: Trace, t: Tid, j: nat)
    requires j < |r.steps|
    ensures Emitted(r, t, j + 1)
         == Emitted(r, t, j) + if r.steps[j].0 == t && r.steps[j].1.Emit? then [r.steps[j].1.call] else []
  {
    assert r.steps[..j + 1][..j] == r.steps[..j];
  }

  // The calls on record for a request are its route stamp, if it was sent on,
  // and then exactly what was emitted.
  ghost predicate Records(th: Thread, emitted: seq<Call>) {
    && (th.phase.Stamped? ==> th.calls == [Stamp(th.phase.route.prefix)] && emitted == [])
    && (th.sent.Some? ==> th.calls == [Stamp(th.sent.value.route.prefix)] + emitted)
    && (th.sent.None? && th.role.Probe? ==> th.calls == emitted)
    && (th.sent.None? && !th.role.Probe? ==> emitted == [])
  }

  lemma EmitRecorded(c: Config, h: seq<Built>, cur: Built, v: nat, th: Thread, call: Call, emitted: seq<Call>)
    requires Local(c, h, th) && CanMove(c, th, Emit(call)) && Records(th, emitted)
    ensures Records(Move(c, cur, v, th, Emit(call)), emitted + [call])
  {
    if th.sent.Some? {
      var stamp := [Stamp(th.sent.value.route.prefix)];
      assert stamp + emitted + [call] == stamp + (emitted + [call]);
    }
  }

  lemma OtherRecorded(c: Config, h: seq<Built>, cur: Built, v: nat, th: Thread, act: Act, emitted: seq<Call>)
    requires Local(c, h, th) && CanMove(c, th, act) && !act.Emit? && Records(th, emitted)
    ensures Records(Move(c, cur, v, th, act), emitted)
  {
    if act.Dispatch? {
      assert [Stamp(th.phase.route.prefix)] + [] == [Stamp(th.phase.route.prefix)];
    }
  }

  lemma RecordsMove(c: Config, h: seq<Built>, cur: Built, v: nat, th: Thread, act: Act, emitted: seq<Call>)
    requires Local(c, h, th) && CanMove(c, th, act) && Records(th, emitted)
    ensures Records(Move(c, cur, v, th, act), emitted + if act.Emit? then [act.call] else [])
  {
    if act.Emit? {
      EmitRecorded(c, h, cur, v, th, act.call, emitted);
    } else {
      OtherRecorded(c, h, cur, v, th, act, emitted);
      assert emitted + [] == emitted;
    }
  }

  ghost predicate RecordsAt(r: Trace, t: Tid, j: nat)
    requires j <= |r.steps| < |r.states|
  {
    if t in r.states[j].threads then Records(r.states[j].threads[t], Emitted(r, t, j))
    else Emitted(r, t, j) == []
  }

  lemma RecordsStep(r: Trace, t: Tid, j: nat)
    requires IsRun(r) && j < |r.steps| && RecordsAt(r, t, j)
    ensures RecordsAt(r, t, j + 1)
  {
    EmittedStep(r, t, j);
    assert Follows(r, j);
    var s, u, act := r.states[j], r.steps[j].0, r.steps[j].1;
    NextShares(s, u, act);
    if u == t && !act.Arrive? {
      RunInv(r, j);
      assert Local(s.cfg, s.history, s.threads[t]);
      RecordsMove(s.cfg, s.history, s.current, Version(s), s.threads[t], act, Emitted(r, t, j));
    }
  }

  lemma {:induction false} RunRecords(r: Trace, t: Tid, j: nat)
    requires IsRun(r) && j < |r.states|
    ensures RecordsAt(r, t, j)
    decreases j
  {
    if j != 0 {
      RunRecords(r, t, j - 1);
      RecordsStep(r, t, j - 1);
    }
  }

  lemma {:induction false} EmitsAreUnstamped(r: Trace, t: Tid, j: nat)
    requires IsRun(r) && j <= |r.steps|
    ensures Unstamped(Emitted(r, t, j))
    decreases j
  {
    if j != 0 {
      EmitsAreUnstamped(r, t, j - 1);
      EmittedStep(r, t, j - 1);
      assert Follows(r, j - 1);
    }
  }

  // A stamp ahead of them changes nothing the client sees of the calls.
  lemma StampIsSilent(route: string, calls: seq<Call>, f: Fields)
    requires Unstamped(calls)
    ensures var all := [Stamp(route)] + calls;
            && FirstStatus(all) == FirstStatus(calls) && Bodies(all) == Bodies(calls)
            && SentFields(f, all) == SentFields(f, calls) && LastStamp(all) == route
  {
    var stamp := [Stamp(route)];
    assert (stamp + calls)[1..] == calls;
    BodiesConcatenate(stamp, calls);
    BodiesLast(stamp);
    assert stamp[..0] == [];
    LastStampMeaning(stamp, calls);
  }

  // What a backend writes is what the client gets, and what the log says: the
  // status, fields and body on the wire are those of the emitted calls, and the
  // entry carries that status and the route dispatched on.
  lemma BackendReachesClient(r: Trace, t: Tid, j: nat)
    requires IsRun(r) && j < |r.states| && t in r.states[j].threads
    requires r.states[j].threads[t].sent.Some?
    ensures var th, upstream := r.states[j].threads[t], Emitted(r, t, j);
            && th.calls == [Stamp(th.sent.value.route.prefix)] + upstream
            && (HasEntry(th.phase) ==>
                  && th.phase.entry.status == FirstStatus(upstream)
                  && th.phase.entry.route == th.sent.value.route.prefix
                  && Base(Finish(th.w)).committed == Some(FirstStatus(upstream))
                  && Base(Finish(th.w)).body == Bodies(upstream)
                  && Base(Finish(th.w)).sent == SentFields(map["X-Correlation-Id" := [th.id]], upstream))
  {
    RunRecords(r, t, j);
    EmitsAreUnstamped(r, t, j);
    RunInv(r, j);
    var s := r.states[j];
    assert Local(s.cfg, s.history, s.threads[t]);
    Delivered(s.cfg, s.history, s.threads[t]);
    var th := s.threads[t];
    StampIsSilent(th.sent.value.route.prefix, Emitted(r, t, j), Tagged(th.id));
  }

  // The same for a probe, which carries no route.
  lemma ProbeReachesClient(r: Trace, t: Tid, j: nat)
    requires IsRun(r) && j < |r.states| && t in r.states[j].threads
    requires IsProbePath(r.states[j].cfg, r.states[j].threads[t].req.path)
    ensures var th, upstream := r.states[j].threads[t], Emitted(r, t, j);
            && th.calls == upstream && th.sent.None? && th.seen.None?
            && (HasEntry(th.phase) ==>
                  && th.phase.entry.status == FirstStatus(upstream) && th.phase.entry.route == ""
                  && Base(Finish(th.w)).committed == Some(FirstStatus(upstream))
                  && Base(Finish(th.w)).body == Bodies(upstream)
                  && Base(Finish(th.w)).sent == SentFields(map["X-Correlation-Id" := [th.id]], upstream))
  {
    RunRecords(r, t, j);
    EmitsAreUnstamped(r, t, j);
    RunInv(r, j);
    var s := r.states[j];
    assert Local(s.cfg, s.history, s.threads[t]);
    Delivered(s.cfg, s.history, s.threads[t]);
    ProbesReadNoTable(s.cfg, s.history, s.threads[t]);
    LastStampMeaning([], Emitted(r, t, j));
    assert [] + Emitted(r, t, j) == Emitted(r, t, j);
  }

  lemma ProbesReadNoTable(c: Config, h: seq<Built>, th: Thread)
    requires Local(c, h, th) && IsProbePath(c, th.req.path)
    ensures th.role.Probe? && th.sent.None? && th.seen.None?
  {}

  lemma Delivered(c: Config, h: seq<Built>, th: Thread)
    requires Local(c, h, th)
    ensures Base(Finish(th.w)).committed == Some(FirstStatus(th.calls))
    ensures Base(Finish(th.w)).body == Bodies(th.calls) && Base(Finish(th.w)).sent == SentFields(Tagged(th.id), th.calls)
    ensures HasEntry(th.phase) ==>
              th.phase.entry.status == FirstStatus(th.calls) && th.phase.entry.route == LastStamp(th.calls)
  {
    CompositionsAgree(c.layers, Tagged(th.id), th.calls, 0);
  }

  // ---------- One table, path by path ----------

  // In every interleaving a finished request did to its writer exactly what its
  // handler does alone over the one table it copied, with what its backend or
  // probe emitted; a request that copies none depends on none.
  lemma ActsOnOneTable(r: Trace, t: Tid, j: nat) returns (now: seq<Route>)
    requires IsRun(r) && j < |r.states| && t in r.states[j].threads && HasEntry(r.states[j].threads[t].phase)
    ensures var s, th, upstream := r.states[j], r.states[j].threads[t], Emitted(r, t, j);
            && th.calls == HandlerCalls(s.cfg, th.req, upstream, now)
            && Target(s.cfg, th.req, now) == (if th.sent.Some? then Some(th.sent.value.target) else None)
            && (th.seen.Some? ==>
                  th.born <= th.seen.value < |s.history| && now == s.history[th.seen.value].table)
            && (th.seen.None? ==> forall any ::
                  th.calls == HandlerCalls(s.cfg, th.req, upstream, any) && Target(s.cfg, th.req, any) == None)
  {
    RunRecords(r, t, j);
    RunInv(r, j);
    var s := r.states[j];
    assert Local(s.cfg, s.history, s.threads[t]);
    now := OneTable(s.cfg, s.history, s.threads[t], Emitted(r, t, j));
  }

  lemma OneTable(c: Config, h: seq<Built>, th: Thread, upstream: seq<Call>) returns (now: seq<Route>)
    requires Local(c, h, th) && HasEntry(th.phase) && Records(th, upstream)
    ensures th.calls == HandlerCalls(c, th.req, upstream, now)
    ensures Target(c, th.req, now) == if th.sent.Some? then Some(th.sent.value.target) else None
    ensures th.seen.Some? ==> th.born <= th.seen.value < |h| && now == h[th.seen.value].table
    ensures th.seen.None? ==> forall any ::
              th.calls == HandlerCalls(c, th.req, upstream, any) && Target(c, th.req, any) == None
  {
    now := if th.seen.Some? then h[th.seen.value].table else [];
  }

  // Path by path: every finished request got what its path calls for, from a
  // table that was in force at a moment between its arrival and its end.
  lemma FinishedByPath(r: Trace, t: Tid, a: nat, j: nat, req: Inbound) returns (k: nat)
    requires IsRun(r) && a < |r.steps| && a < j < |r.states| && r.steps[a] == (t, Arrive(req))
    requires t in r.states[j].threads && HasEntry(r.states[j].threads[t].phase)
    ensures a <= k <= j
    ensures var th := r.states[j].threads[t];
            HandledByPath(r.states[j].cfg, req, Emitted(r, t, j), r.states[k].current.table, th.calls,
                          if th.sent.Some? then Some(th.sent.value.target) else None)
  {
    ArrivalIsRecorded(r, t, a, j, req);
    var s := r.states[j];
    var now := ActsOnOneTable(r, t, j);
    if s.threads[t].seen.Some? {
      SeenIsInHistory(r, j, t);
      k := WasCurrent(r, a, j, s.threads[t].seen.value);
    } else {
      k := a;
    }
    InForce(r, k);
    HandledIsByPath(s.cfg, req, Emitted(r, t, j), r.states[k].current.table);
  }

  lemma InForce(r: Trace, k: nat)
    requires IsRun(r) && k < |r.states|
    ensures Descending(r.states[k].current.table) && Distinct(r.states[k].current.table)
  {
    RunInv(r, k);
    assert IsStored(r.states[k].current);
  }

  // Any other method on the admin endpoint is answered 405, with the methods
  // that are served.
  lemma OtherMethodsRefused(r: Trace, t: Tid, j: nat)
    requires IsRun(r) && j < |r.states| && t in r.states[j].threads && HasEntry(r.states[j].threads[t].phase)
    requires var req := r.states[j].threads[t].req;
             r.states[j].cfg.admin && req.path == "/admin/routes" && req.verb != "GET" && req.verb != "POST"
    ensures var th := r.states[j].threads[t];
            && th.phase.entry.status == 405 && th.phase.entry.route == "" && th.sent.None? && th.installed.None?
            && Base(Finish(th.w)).committed == Some(405)
            && Base(Finish(th.w)).body == r.states[j].cfg.codec.error(MethodNotAllowed)
            && Base(Finish(th.w)).sent == map["X-Correlation-Id" := [th.id], "Allow" := ["GET, POST"],
                                              "Content-Type" := ["application/json"]]
  {
    RunInv(r, j);
    var s := r.states[j];
    assert Local(s.cfg, s.history, s.threads[t]);
    RefusedOther(s.cfg, s.history, s.threads[t]);
    Delivered(s.cfg, s.history, s.threads[t]);
  }

  lemma RefusedOther(c: Config, h: seq<Built>, th: Thread)
    requires Local(c, h, th) && HasEntry(th.phase)
    requires c.admin && th.req.path == "/admin/routes" && th.req.verb != "GET" && th.req.verb != "POST"
    ensures th.calls == NotAllowedCalls(c.codec) && th.sent.None? && th.installed.None?
  {}

  // ---------- The log and the metrics, step by step ----------

  // The log grows by one entry when a request gives the mutex back, and at no
  // other step; the entry is that request's own, and its line the one encoded.
  lemma LogFollowsSteps(r: Trace, i: nat)
    requires IsRun(r) && i < |r.steps|
    ensures !r.steps[i].1.UnlockLog? ==> r.states[i + 1].log == r.states[i].log
    ensures r.steps[i].1.UnlockLog? ==>
              && r.steps[i].0 in r.states[i].threads
              && var th := r.states[i].threads[r.steps[i].0];
                 exists line ::
                   && (exists m :: 0 <= m < i && r.steps[m] == (r.steps[i].0, Return(line)))
                   && r.states[i + 1].log == r.states[i].log +
                        [Entry(th.req.verb, th.req.path, FirstStatus(th.calls), LastStamp(th.calls),
                               Resolve(th.req.correlation, th.req.random), line)]
  {
    assert Follows(r, i);
    var s, t := r.states[i], r.steps[i].0;
    NextShares(s, t, r.steps[i].1);
    if r.steps[i].1.UnlockLog? {
      RunInv(r, i);
      assert Local(s.cfg, s.history, s.threads[t]);
      var m := EntryWasReturned(r, t, i);
      assert r.steps[m] == (t, Return(s.threads[t].phase.entry.line));
    }
  }

  lemma {:induction false} EntryWasReturned(r: Trace, t: Tid, j: nat) returns (m: nat)
    requires IsRun(r) && j < |r.states| && t in r.states[j].threads && HasEntry(r.states[j].threads[t].phase)
    ensures m < j && r.steps[m] == (t, Return(r.states[j].threads[t].phase.entry.line))
    decreases j
  {
    assert j != 0;
    assert Follows(r, j - 1);
    var s, u, act := r.states[j - 1], r.steps[j - 1].0, r.steps[j - 1].1;
    if u == t && act.Return? {
      m := j - 1;
    } else {
      EntryFromBefore(s, u, act, t);
      m := EntryWasReturned(r, t, j - 1);
    }
  }

  lemma EntryFromBefore(s: State, u: Tid, act: Act, t: Tid)
    requires Can(s, u, act) && t in Next(s, u, act).threads && HasEntry(Next(s, u, act).threads[t].phase)
    requires u != t || !act.Return?
    ensures t in s.threads && HasEntry(s.threads[t].phase)
    ensures s.threads[t].phase.entry == Next(s, u, act).threads[t].phase.entry
  {}

  // Counter and histogram each move by one, for the request's method, route and
  // status, at its own step, and at no other.
  lemma CounterFollowsSteps(r: Trace, i: nat)
    requires IsRun(r) && i < |r.steps|
    ensures !r.steps[i].1.Count? ==> r.states[i + 1].counter == r.states[i].counter
    ensures r.steps[i].1.Count? ==>
              && r.steps[i].0 in r.states[i].threads
              && var th, m := r.states[i].threads[r.steps[i].0], r.states[i].counter;
                 var tag := Label(th.req.verb, LastStamp(th.calls), FirstStatus(th.calls));
                 r.states[i + 1].counter == m[tag := 1 + if tag in m then m[tag] else 0]
  {
    assert Follows(r, i);
    NextShares(r.states[i], r.steps[i].0, r.steps[i].1);
    if r.steps[i].1.Count? {
      TagAtStep(r, i);
    }
  }

  lemma DurationsFollowSteps(r: Trace, i: nat)
    requires IsRun(r) && i < |r.steps|
    ensures !r.steps[i].1.Observe? ==> r.states[i + 1].durations == r.states[i].durations
    ensures r.steps[i].1.Observe? ==>
              && r.steps[i].0 in r.states[i].threads
              && var th, m := r.states[i].threads[r.steps[i].0], r.states[i].durations;
                 var tag := Label(th.req.verb, LastStamp(th.calls), FirstStatus(th.calls));
                 r.states[i + 1].durations == m[tag := 1 + if tag in m then m[tag] else 0]
  {
    assert Follows(r, i);
    NextShares(r.states[i], r.steps[i].0, r.steps[i].1);
    if r.steps[i].1.Observe? {
      TagAtStep(r, i);
    }
  }

  lemma TagAtStep(r: Trace, i: nat)
    requires IsRun(r) && i < |r.steps| && (r.steps[i].1.Count? || r.steps[i].1.Observe?)
    ensures r.steps[i].0 in r.states[i].threads
    ensures var th := r.states[i].threads[r.steps[i].0];
            MetricLabel(th) == Label(th.req.verb, LastStamp(th.calls), FirstStatus(th.calls))
  {
    assert Follows(r, i);
    RunInv(r, i);
    var s, t := r.states[i], r.steps[i].0;
    assert Local(s.cfg, s.history, s.threads[t]);
    TagOf(s.cfg, s.history, s.threads[t], r.steps[i].1);
  }

  lemma TagOf(c: Config, h: seq<Built>, th: Thread, act: Act)
    requires Local(c, h, th) && CanMove(c, th, act) && (act.Count? || act.Observe?)
    ensures MetricLabel(th) == Label(th.req.verb, LastStamp(th.calls), FirstStatus(th.calls))
  {
    LabelsAgree(c, h, th);
  }

  // ---------- Who may move ----------

  // A client may arrive at any time; a backend or probe may write anything but
  // a stamp, return with any line, or abort.
  lemma OutsideIsFree(s: State, t: Tid, req: Inbound, call: Call, line: string)
    requires Reachable(s)
    ensures t !in s.threads ==> Can(s, t, Arrive(req))
    ensures t in s.threads && s.threads[t].phase.Serving? ==>
              && (Can(s, t, Emit(call)) <==> !call.Stamp?)
              && (Can(s, t, Return(line)) <==> IsLine(line)) && Can(s, t, Abort)
  {
    if t in s.threads {
      LocalOf(s, t);
      WriterIsALayer(s.cfg, s.history, s.threads[t]);
    }
  }

  // Readers share the holder's lock and are kept out by a writer only; a writer
  // waits for everybody; and the log's mutex has one owner.
  lemma LocksExclude(s: State, t: Tid)
    requires t in s.threads
    ensures s.threads[t].phase.Replaced? ==>
              (Can(s, t, LockRead) <==>
               forall u :: u in s.threads ==> !s.threads[u].phase.WriteLocked? && !s.threads[u].phase.Swapped?)
    ensures s.threads[t].phase.Arrived? && (s.threads[t].role.Proxied? || s.threads[t].role.Lister?) ==>
              (Can(s, t, LockRead) <==>
               forall u :: u in s.threads ==> !s.threads[u].phase.WriteLocked? && !s.threads[u].phase.Swapped?)
    ensures s.threads[t].phase.Prepared? ==>
              (Can(s, t, LockWrite) <==>
               forall u :: u in s.threads ==>
                 && !s.threads[u].phase.WriteLocked? && !s.threads[u].phase.Swapped?
                 && !s.threads[u].phase.ReadLocked? && !s.threads[u].phase.Copied?)
    ensures s.threads[t].phase.Returned? ==>
              (Can(s, t, LockLog) <==> forall u :: u in s.threads ==> !s.threads[u].phase.Logging?)
  {}
}
