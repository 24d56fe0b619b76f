/** What every reachable state of the gateway keeps, and that each step keeps it. */
module GatewayInvariant {
  import opened Wrappers
  import opened Routing
  import opened WriterStack
  import opened Proxy
  import opened RoutesAdmin
  import opened CorrelationId
  import opened LogLines
  import opened Gateway

  // ---------- The history of installed tables ----------

  ghost predicate SoundHistory(h: seq<Built>) {
    h != [] && forall k :: 0 <= k < |h| ==> IsStored(h[k])
  }

  // The current handler is the last one installed.
  ghost predicate Headed(s: State) {
    s.history != [] && s.current == s.history[|s.history| - 1]
  }

  ghost predicate History(s: State) {
    SoundHistory(s.history) && Headed(s)
  }

  // ---------- One request, given the history ----------

  predicate BeforeCopy(ph: Phase) {
    ph.Arrived? || ph.Prepared? || ph.WriteLocked? || ph.Swapped? || ph.Replaced? || ph.ReadLocked?
  }

  predicate HoldsCopy(ph: Phase) {
    ph.Copied? || ph.Snapped? || ph.Matched? || ph.Stamped?
  }

  predicate HasEntry(ph: Phase) {
    ph.Returned? || ph.Logging? || ph.Logged? || ph.Counted? || ph.Done?
  }

  // Which table of the history each step of the request refers to.
  ghost predicate Timed(h: seq<Built>, th: Thread) {
    var ph := th.phase;
    && th.born < |h|
    && (th.seen.Some? ==> th.born <= th.seen.value < |h|)
    && (th.installed.Some? ==> th.born < th.installed.value < |h|)
    && (th.installed.Some? && th.seen.Some? ==> th.installed.value <= th.seen.value)
    && (th.sent.Some? ==> th.seen.Some? && th.seen.value <= th.sent.value.version < |h|)
    && (BeforeCopy(ph) ==> th.seen.None? && th.sent.None?)
    && (ph.Arrived? || ph.Prepared? || ph.WriteLocked? ==> th.installed.None?)
    && (HoldsCopy(ph) ==> th.sent.None? && th.seen.Some? && ph.cur == h[th.seen.value])
  }

  ghost predicate Unstamped(calls: seq<Call>) {
    forall k :: 0 <= k < |calls| ==> !calls[k].Stamp?
  }

  function RouteOf(th: Thread): string {
    if th.sent.Some? then th.sent.value.route.prefix
    else if th.phase.Stamped? then th.phase.route.prefix
    else ""
  }

  // Matching, stamping and dispatching follow the one table that was copied,
  // and the correlation ID is the one resolved at arrival.
  ghost predicate Routed(c: Config, h: seq<Built>, th: Thread) {
    var ph := th.phase;
    && th.id != ""
    && th.w == Run(Composed(c.layers, Tagged(th.id)), th.calls)
    && LastStamp(th.calls) == RouteOf(th)
    && (ph.Matched? || ph.Stamped? ==>
          th.role.Proxied? && Scan(ph.cur.table, th.req.path) == Some(ph.route))
    && (th.sent.Some? ==>
          && th.role.Proxied?
          && th.seen.Some? && th.seen.value < |h|
          && Scan(h[th.seen.value].table, th.req.path) == Some(th.sent.value.route)
          && th.sent.value.route.backend == Some(th.sent.value.target)
          && th.sent.value.header == th.id)
    && (ph.Serving? ==> th.sent.Some? || th.role.Probe?)
    && (ph.Replying? ==> th.sent.None? && Unstamped(ph.rest))
    && (th.role.Refused? ==> Unstamped(th.role.reply))
  }

  // The fixed reply of a request that is not proxied: the table it copied, an
  // admin error, or the 404 of a miss.
  ghost predicate Replies(c: Config, h: seq<Built>, role: Role, req: Inbound,
                          seen: Option<nat>, installed: Option<nat>, calls: seq<Call>)
  {
    match role
    case Lister => seen.Some? && seen.value < |h| && calls == TableCalls(c.codec, h[seen.value].table)
    case Installer(_) =>
      installed.Some? && seen.Some? && seen.value < |h| && calls == TableCalls(c.codec, h[seen.value].table)
    case Refused(reply) => calls == reply
    case Probe => false
    case Proxied =>
      seen.Some? && seen.value < |h| && Scan(h[seen.value].table, req.path) == None && calls == NotFoundCalls()
  }

  // How an admin request or a miss got to its reply.
  ghost predicate Scripted(c: Config, h: seq<Built>, th: Thread) {
    var ph := th.phase;
    && (ph.Prepared? || ph.WriteLocked? ==> th.role.Installer?)
    && (ph.Swapped? || ph.Replaced? ==> th.installed.Some?)
    && (th.installed.Some? ==>
          th.role.Installer? && th.installed.value < |h| && h[th.installed.value] == th.role.next)
    && (ph.ReadLocked? || ph.Copied? || ph.Snapped? ==> th.role.Lister? || th.role.Proxied? || th.installed.Some?)
    && (BeforeCopy(ph) || ph.Copied? || ph.Snapped? || ph.Matched? ==> th.calls == [])
    && (ph.Aborted? ==> th.installed.None?)
    && (th.seen.Some? ==> !th.role.Probe? && !th.role.Refused?)
    && (ph.Replying? ==> Replies(c, h, th.role, th.req, th.seen, th.installed, th.calls + ph.rest))
    && (HasEntry(ph) && th.sent.None? && !th.role.Probe? ==> Replies(c, h, th.role, th.req, th.seen, th.installed, th.calls))
  }

  // One stamp at most, ahead of everything the backend writes.
  ghost predicate Spoken(th: Thread) {
    if th.sent.Some? || th.phase.Stamped?
    then th.calls != [] && th.calls[0] == Stamp(RouteOf(th)) && Unstamped(th.calls[1..])
    else Unstamped(th.calls)
  }

  // The log entry says what was sent to the client.
  ghost predicate Entered(c: Config, th: Thread) {
    var ph := th.phase;
    && (HasEntry(ph) ==>
          && ph.entry.verb == th.req.verb && ph.entry.path == th.req.path && ph.entry.id == th.id
          && ph.entry.status == FirstStatus(th.calls) && ph.entry.route == LastStamp(th.calls)
          && IsLine(ph.entry.line))
    && (ph.Logging? ==> ph.written <= |ph.entry.line|)
    && (ph.Logged? || ph.Counted? ==> c.layers.metrics)
  }

  ghost predicate Local(c: Config, h: seq<Built>, th: Thread) {
    && th.role == RoleOf(c, th.req) && th.id == Resolve(th.req.correlation, th.req.random)
    && Timed(h, th) && Routed(c, h, th) && Scripted(c, h, th) && Entered(c, th)
    && Spoken(th)
  }

  // Nothing a request relies on changes when another table is installed.
  lemma LocalStable(c: Config, h: seq<Built>, b: Built, th: Thread)
    requires Local(c, h, th)
    ensures Local(c, h + [b], th)
  {
    var g := h + [b];
    assert forall k :: 0 <= k < |h| ==> g[k] == h[k];
    assert Timed(g, th);
    assert Routed(c, g, th);
    assert Scripted(c, g, th);
  }

  // ---------- One request's step keeps what is said about it ----------

  function Moved(c: Config, h: seq<Built>, th: Thread, act: Act): Thread
    requires h != [] && CanMove(c, th, act)
  {
    Move(c, h[|h| - 1], |h| - 1, th, act)
  }

  lemma TimedStep(h: seq<Built>, c: Config, th: Thread, act: Act)
    requires h != [] && Timed(h, th) && CanMove(c, th, act) && !act.Swap?
    ensures Timed(h, Moved(c, h, th, act))
  {
    var th' := Moved(c, h, th, act);
    if !act.Copy? && !act.Dispatch? {
      assert th'.(phase := th.phase, calls := th.calls, w := th.w) == th;
      if HoldsCopy(th'.phase) {
        assert HoldsCopy(th.phase) && th'.phase.cur == th.phase.cur;
      }
    }
  }

  lemma RoutedStep(c: Config, h: seq<Built>, th: Thread, act: Act)
    requires h != [] && Timed(h, th) && Routed(c, h, th) && CanMove(c, th, act)
    requires act.Dispatch? ==> WellFormed(th.phase.cur.table) && th.phase.cur == Build(th.phase.cur.table)
    ensures Routed(c, h, Moved(c, h, th, act))
  {
    if act.StampRoute? || act.Emit? || act.EmitNext? {
      RoutedWrite(c, h, th, act);
    } else if act.Dispatch? {
      LookupFollowsMatch(th.phase.cur.table, th.req.path);
    }
  }

  lemma RoutedWrite(c: Config, h: seq<Built>, th: Thread, act: Act)
    requires h != [] && Timed(h, th) && Routed(c, h, th) && CanMove(c, th, act)
    requires act.StampRoute? || act.Emit? || act.EmitNext?
    ensures Routed(c, h, Moved(c, h, th, act))
  {
    var call := if act.StampRoute? then Stamp(th.phase.route.prefix)
                else if act.Emit? then act.call else th.phase.rest[0];
    WriteIsRun(Composed(c.layers, Tagged(th.id)), th.calls, call);
  }

  lemma WriteIsRun(s: Stack, calls: seq<Call>, call: Call)
    ensures Do(Run(s, calls), call) == Run(s, calls + [call])
    ensures LastStamp(calls + [call]) == if call.Stamp? then call.route else LastStamp(calls)
  {
    RunAppend(s, calls, call);
    assert (calls + [call])[..|calls|] == calls;
  }

  lemma SpokenWrite(th: Thread, th': Thread, call: Call)
    requires Spoken(th) && !call.Stamp? && th'.calls == th.calls + [call]
    requires th'.sent == th.sent && !th.phase.Stamped? && !th'.phase.Stamped?
    ensures Spoken(th')
  {
    if th.sent.Some? {
      assert th'.calls[1..] == th.calls[1..] + [call];
    }
  }

  lemma SpokenStep(c: Config, h: seq<Built>, th: Thread, act: Act)
    requires Ready(c, h, th, act) && Spoken(th)
    ensures Spoken(Moved(c, h, th, act))
  {
    var th' := Moved(c, h, th, act);
    if act.StampRoute? {
      assert th'.calls == [Stamp(th.phase.route.prefix)];
    } else if act.Emit? || act.EmitNext? {
      SpokenWrite(th, th', if act.Emit? then act.call else th.phase.rest[0]);
    } else {
      assert th'.calls == th.calls;
    }
  }

  ghost predicate Ready(c: Config, h: seq<Built>, th: Thread, act: Act) {
    h != [] && Timed(h, th) && Routed(c, h, th) && Scripted(c, h, th) && CanMove(c, th, act)
  }

  lemma ScriptedPost(c: Config, h: seq<Built>, th: Thread, act: Act)
    requires Ready(c, h, th, act) && (act.Prepare? || act.LockWrite? || act.UnlockWrite?)
    ensures Scripted(c, h, Moved(c, h, th, act))
  {}

  lemma ScriptedRead(c: Config, h: seq<Built>, th: Thread, act: Act)
    requires Ready(c, h, th, act) && (act.LockRead? || act.Copy? || act.UnlockRead?)
    ensures Scripted(c, h, Moved(c, h, th, act))
  {}

  lemma ScriptedReply(c: Config, h: seq<Built>, th: Thread, act: Act)
    requires Ready(c, h, th, act) && (act.Match? || act.List? || act.Refuse?)
    ensures Scripted(c, h, Moved(c, h, th, act))
  {
    var th' := Moved(c, h, th, act);
    if th'.phase.Replying? {
      assert th'.calls + th'.phase.rest == th'.phase.rest;
    }
  }

  lemma ScriptedEmit(c: Config, h: seq<Built>, th: Thread)
    requires Ready(c, h, th, EmitNext)
    ensures Scripted(c, h, Moved(c, h, th, EmitNext))
  {
    var th' := Moved(c, h, th, EmitNext);
    assert th'.calls + th'.phase.rest == th.calls + th.phase.rest;
  }

  lemma ScriptedServe(c: Config, h: seq<Built>, th: Thread, act: Act)
    requires Ready(c, h, th, act) && (act.StampRoute? || act.Dispatch? || act.Answer? || act.Emit?)
    ensures Scripted(c, h, Moved(c, h, th, act))
  {}

  lemma ScriptedEnd(c: Config, h: seq<Built>, th: Thread, act: Act)
    requires Ready(c, h, th, act) && (act.Return? || act.Abort?)
    ensures Scripted(c, h, Moved(c, h, th, act))
  {
    if th.phase.Replying? {
      assert th.phase.rest == [] ==> th.calls + th.phase.rest == th.calls;
    }
  }

  lemma ScriptedLog(c: Config, h: seq<Built>, th: Thread, act: Act)
    requires Ready(c, h, th, act) && (act.LockLog? || act.PutByte? || act.UnlockLog?)
    ensures Scripted(c, h, Moved(c, h, th, act))
  {}

  lemma ScriptedCount(c: Config, h: seq<Built>, th: Thread, act: Act)
    requires Ready(c, h, th, act) && (act.Count? || act.Observe?)
    ensures Scripted(c, h, Moved(c, h, th, act))
  {}

  lemma ScriptedStep(c: Config, h: seq<Built>, th: Thread, act: Act)
    requires Ready(c, h, th, act) && !act.Swap?
    ensures Scripted(c, h, Moved(c, h, th, act))
  {
    match act {
      case Prepare | LockWrite | UnlockWrite => ScriptedPost(c, h, th, act);
      case LockRead | Copy | UnlockRead => ScriptedRead(c, h, th, act);
      case Match | List | Refuse => ScriptedReply(c, h, th, act);
      case EmitNext => ScriptedEmit(c, h, th);
      case StampRoute | Dispatch | Answer | Emit(_) => ScriptedServe(c, h, th, act);
      case Return(_) | Abort => ScriptedEnd(c, h, th, act);
      case LockLog | PutByte | UnlockLog => ScriptedLog(c, h, th, act);
      case Count | Observe => ScriptedCount(c, h, th, act);
      case _ =>
    }
  }

  lemma EnteredReturn(c: Config, h: seq<Built>, th: Thread, act: Act)
    requires h != [] && Routed(c, h, th) && CanMove(c, th, act) && act.Return?
    ensures Entered(c, Moved(c, h, th, act))
  {
    CompositionsAgree(c.layers, Tagged(th.id), th.calls, 0);
  }

  lemma EnteredLog(c: Config, h: seq<Built>, th: Thread, act: Act)
    requires h != [] && Entered(c, th) && CanMove(c, th, act)
    requires act.LockLog? || act.PutByte? || act.UnlockLog? || act.Count? || act.Observe?
    ensures Entered(c, Moved(c, h, th, act))
  {}

  lemma EnteredStep(c: Config, h: seq<Built>, th: Thread, act: Act)
    requires h != [] && Routed(c, h, th) && Entered(c, th) && CanMove(c, th, act)
    ensures Entered(c, Moved(c, h, th, act))
  {
    if act.Return? {
      EnteredReturn(c, h, th, act);
    } else if act.LockLog? || act.PutByte? || act.UnlockLog? || act.Count? || act.Observe? {
      EnteredLog(c, h, th, act);
    } else {
      assert !HasEntry(Moved(c, h, th, act).phase);
    }
  }

  // Swap: the history grows by the handler that the request had prepared.
  lemma SwapStep(c: Config, h: seq<Built>, th: Thread)
    requires h != [] && Local(c, h, th) && CanMove(c, th, Swap)
    ensures Local(c, h + [th.role.next], Moved(c, h, th, Swap))
  {
    LocalStable(c, h, th.role.next, th);
  }

  lemma LocalStep(c: Config, h: seq<Built>, th: Thread, act: Act)
    requires SoundHistory(h) && Local(c, h, th) && CanMove(c, th, act) && !act.Swap?
    ensures Local(c, h, Moved(c, h, th, act))
  {
    TimedStep(h, c, th, act);
    if act.Dispatch? {
      assert IsStored(h[th.seen.value]);
    }
    RoutedStep(c, h, th, act);
    ScriptedStep(c, h, th, act);
    SpokenStep(c, h, th, act);
    EnteredStep(c, h, th, act);
  }

  lemma ArrivalIsLocal(s: State, t: Tid, req: Inbound)
    requires History(s) && Can(s, t, Arrive(req))
    ensures Local(s.cfg, s.history, Next(s, t, Arrive(req)).threads[t])
  {
    ResolvedIsNotBlank(req.correlation, req.random);
    if RoleOf(s.cfg, req).Refused? {
      assert Unstamped(AdminReply(s.cfg.codec, req.verb, req.body, []));
    }
  }

  // ---------- The whole state ----------

  ghost predicate AllLocal(s: State) {
    forall t :: t in s.threads ==> Local(s.cfg, s.history, s.threads[t])
  }

  // A writer is alone in the holder's lock, a log writer alone in the mutex.
  ghost predicate Exclusive(s: State) {
    && (forall t, u :: t in s.threads && u in s.threads && t != u && Writing(s.threads[t].phase) ==>
          !Writing(s.threads[u].phase) && !Reading(s.threads[u].phase))
    && (forall t, u :: t in s.threads && u in s.threads && t != u && s.threads[t].phase.Logging? ==>
          !s.threads[u].phase.Logging?)
  }

  function Lines(log: seq<Entry>): seq<string> {
    seq(|log|, k requires 0 <= k < |log| => log[k].line)
  }

  ghost predicate Configured(h: seq<Built>, route: string) {
    exists k :: 0 <= k < |h| && HasPrefix(h[k], route)
  }

  ghost predicate HasPrefix(b: Built, route: string) {
    exists i :: 0 <= i < |b.table| && b.table[i].prefix == route
  }

  // The sink is whole lines, one per entry, followed by what the holder of the
  // mutex, if any, has written of its own line so far.
  ghost predicate Untorn(s: State) {
    && (forall k :: 0 <= k < |s.log| ==> IsLine(s.log[k].line))
    && (forall t :: t in s.threads && s.threads[t].phase.Logging? ==>
          var ph := s.threads[t].phase;
          ph.written <= |ph.entry.line| && s.sink == Concat(Lines(s.log)) + ph.entry.line[..ph.written])
    && ((forall t :: t in s.threads ==> !s.threads[t].phase.Logging?) ==> s.sink == Concat(Lines(s.log)))
  }

  ghost predicate Labelled(s: State) {
    forall k :: 0 <= k < |s.log| ==> s.log[k].route == "" || Configured(s.history, s.log[k].route)
  }

  function LabelOf(e: Entry): Label {
    Label(e.verb, e.route, e.status)
  }

  function Tally(log: seq<Entry>, l: Label): nat {
    if log == [] then 0
    else Tally(log[..|log| - 1], l) + if LabelOf(log[|log| - 1]) == l then 1 else 0
  }

  // The entry is in the log and the counter is still to be incremented.
  predicate Uncounted(ph: Phase, l: Label) {
    ph.Logged? && LabelOf(ph.entry) == l
  }

  // The counter is incremented and the duration still to be observed.
  predicate Unobserved(ph: Phase, l: Label) {
    ph.Counted? && LabelOf(ph.entry) == l
  }

  predicate IsRecorded(ph: Phase) {
    ph.Logged? || ph.Counted? || ph.Done?
  }

  ghost function Waiting(s: State, l: Label): set<Tid> {
    set t | t in s.threads && Uncounted(s.threads[t].phase, l)
  }

  ghost function Observing(s: State, l: Label): set<Tid> {
    set t | t in s.threads && Unobserved(s.threads[t].phase, l)
  }

  ghost function Recorded(s: State): set<Tid> {
    set t | t in s.threads && IsRecorded(s.threads[t].phase)
  }

  ghost predicate Balanced(s: State, l: Label) {
    && Tally(s.log, l) == Get(s.counter, l) + |Waiting(s, l)|
    && Get(s.counter, l) == Get(s.durations, l) + |Observing(s, l)|
  }

  // Per label: logged = counted + waiting to be counted, and counted =
  // observed + waiting to be observed; one entry per request that got so far.
  ghost predicate Ledger(s: State) {
    && |s.log| == |Recorded(s)|
    && (s.cfg.layers.metrics ==> forall l :: Balanced(s, l))
    && (!s.cfg.layers.metrics ==> s.counter == map[] && s.durations == map[])
  }

  ghost predicate Inv(s: State) {
    History(s) && AllLocal(s) && Exclusive(s) && Untorn(s) && Labelled(s) && Ledger(s)
  }

  lemma InitialInv(s: State)
    requires Initial(s)
    ensures Inv(s)
  {
    assert Lines(s.log) == [];
    assert Concat(Lines(s.log)) == "";
    assert Recorded(s) == {};
    forall l: Label ensures Waiting(s, l) == {} && Observing(s, l) == {} {}
  }

  // ---------- How a step moves a request through the locks and the log ----------

  predicate InLock(ph: Phase) { Reading(ph) || Writing(ph) }

  ghost predicate LockShape(ph: Phase, ph': Phase, act: Act) {
    match act
    case LockRead => !InLock(ph) && Reading(ph')
    case Copy => Reading(ph) && Reading(ph')
    case LockWrite => !InLock(ph) && Writing(ph')
    case Swap => Writing(ph) && Writing(ph')
    case _ => !InLock(ph')
  }

  predicate Accounted(ph: Phase) { ph.Logging? || ph.Logged? || ph.Counted? || ph.Done? }

  ghost predicate LogShape(metrics: bool, ph: Phase, ph': Phase, act: Act) {
    match act
    case LockLog => ph.Returned? && ph' == Logging(ph.entry, 0)
    case PutByte => ph.Logging? && ph.written < |ph.entry.line| && ph' == Logging(ph.entry, ph.written + 1)
    case UnlockLog =>
      && ph.Logging? && ph.written == |ph.entry.line|
      && ph' == if metrics then Logged(ph.entry) else Done(ph.entry)
    case Count => ph.Logged? && ph' == Counted(ph.entry)
    case Observe => ph.Counted? && ph' == Done(ph.entry)
    case _ => !Accounted(ph) && !Accounted(ph')
  }

  lemma Shapes(c: Config, cur: Built, v: nat, th: Thread, act: Act)
    requires CanMove(c, th, act)
    ensures LockShape(th.phase, Move(c, cur, v, th, act).phase, act)
    ensures LogShape(c.layers.metrics, th.phase, Move(c, cur, v, th, act).phase, act)
  {}

  // The phase a request is in before a step; a request that is about to arrive
  // is in none of the critical ones.
  function PhaseBefore(s: State, t: Tid): Phase {
    if t in s.threads then s.threads[t].phase else Aborted
  }

  // What the lemmas below use of a step.
  ghost predicate Stride(s: State, s': State, t: Tid, th': Thread, act: Act) {
    var ph := PhaseBefore(s, t);
    && s'.cfg == s.cfg && s'.threads == s.threads[t := th'] && s.history <= s'.history
    && Free(s, act)
    && LockShape(ph, th'.phase, act) && LogShape(s.cfg.layers.metrics, ph, th'.phase, act)
    && s'.sink == (if act.PutByte? then s.sink + [ph.entry.line[ph.written]] else s.sink)
    && s'.log == (if act.UnlockLog? then s.log + [ph.entry] else s.log)
    && s'.counter == (if act.Count? then Bump(s.counter, LabelOf(ph.entry)) else s.counter)
    && s'.durations == (if act.Observe? then Bump(s.durations, LabelOf(ph.entry)) else s.durations)
  }

  // The metrics layer carries the same route and status as the log entry.
  lemma LabelsAgree(c: Config, h: seq<Built>, th: Thread)
    requires Local(c, h, th) && HasEntry(th.phase) && c.layers.metrics
    ensures MetricLabel(th) == LabelOf(th.phase.entry)
  {
    CompositionsAgree(c.layers, Tagged(th.id), th.calls, 1);
  }

  lemma NextShares(s: State, t: Tid, act: Act)
    requires Can(s, t, act)
    ensures var s', ph := Next(s, t, act), PhaseBefore(s, t);
            && s'.cfg == s.cfg && s'.threads == s.threads[t := Stepped(s, t, act)] && s.history <= s'.history
            && s'.sink == (if act.PutByte? then s.sink + [ph.entry.line[ph.written]] else s.sink)
            && s'.log == (if act.UnlockLog? then s.log + [ph.entry] else s.log)
            && s'.counter == (if act.Count? then Bump(s.counter, MetricLabel(s.threads[t])) else s.counter)
            && s'.durations == (if act.Observe? then Bump(s.durations, MetricLabel(s.threads[t])) else s.durations)
  {}

  lemma NextStrides(s: State, t: Tid, act: Act)
    requires AllLocal(s) && Can(s, t, act)
    ensures Stride(s, Next(s, t, act), t, Stepped(s, t, act), act)
  {
    NextShares(s, t, act);
    if !act.Arrive? {
      Shapes(s.cfg, s.current, Version(s), s.threads[t], act);
    }
    if act.Count? || act.Observe? {
      assert Local(s.cfg, s.history, s.threads[t]);
      LabelsAgree(s.cfg, s.history, s.threads[t]);
    }
  }

  lemma ExclusiveStep(s: State, s': State, t: Tid, th': Thread, act: Act)
    requires Exclusive(s) && Stride(s, s', t, th', act)
    ensures Exclusive(s')
  {}

  lemma LinesAppend(log: seq<Entry>, e: Entry)
    ensures Lines(log + [e]) == Lines(log) + [e.line]
    ensures Concat(Lines(log + [e])) == Concat(Lines(log)) + e.line
  {
    assert (Lines(log) + [e.line])[..|log|] == Lines(log);
  }

  lemma UntornByte(s: State, s': State, t: Tid, th': Thread)
    requires Exclusive(s) && Untorn(s) && Stride(s, s', t, th', PutByte)
    ensures Untorn(s')
  {
    var ph := PhaseBefore(s, t);
    assert t in s'.threads && s'.threads[t] == th';
    assert ph.entry.line[..ph.written + 1] == ph.entry.line[..ph.written] + [ph.entry.line[ph.written]];
  }

  lemma UntornLock(s: State, s': State, t: Tid, th': Thread)
    requires Exclusive(s) && Untorn(s) && Stride(s, s', t, th', LockLog)
    ensures Untorn(s')
  {
    assert t in s'.threads && s'.threads[t] == th';
    assert s.sink == Concat(Lines(s.log)) + PhaseBefore(s, t).entry.line[..0];
  }

  lemma UntornUnlock(s: State, s': State, t: Tid, th': Thread)
    requires Exclusive(s) && Untorn(s) && Stride(s, s', t, th', UnlockLog)
    requires IsLine(PhaseBefore(s, t).entry.line)
    ensures Untorn(s')
  {
    var ph := PhaseBefore(s, t);
    LinesAppend(s.log, ph.entry);
    assert ph.entry.line[..|ph.entry.line|] == ph.entry.line;
  }

  lemma UntornStep(s: State, s': State, t: Tid, th': Thread, act: Act)
    requires Exclusive(s) && Untorn(s) && Stride(s, s', t, th', act)
    requires act.UnlockLog? ==> IsLine(PhaseBefore(s, t).entry.line)
    ensures Untorn(s')
  {
    if act.UnlockLog? {
      UntornUnlock(s, s', t, th');
    } else if act.PutByte? {
      UntornByte(s, s', t, th');
    } else if act.LockLog? {
      UntornLock(s, s', t, th');
    } else {
      assert !th'.phase.Logging? && !PhaseBefore(s, t).Logging?;
      assert forall u :: u in s.threads && s.threads[u].phase.Logging? <==> u in s'.threads && s'.threads[u].phase.Logging?;
    }
  }

  lemma LabelsConfigured(c: Config, h: seq<Built>, th: Thread)
    requires SoundHistory(h) && Local(c, h, th) && HasEntry(th.phase)
    ensures LineIsGood(h, th.phase.entry)
  {
    if th.sent.Some? {
      var b := h[th.seen.value];
      assert IsStored(b);
      ScanWins(b.table, th.req.path);
      assert HasPrefix(b, th.sent.value.route.prefix);
    }
  }

  // The line is whole, and its route is empty or was configured.
  ghost predicate LineIsGood(h: seq<Built>, e: Entry) {
    IsLine(e.line) && (e.route == "" || Configured(h, e.route))
  }

  lemma LabelledStep(s: State, s': State, t: Tid, th': Thread, act: Act)
    requires Labelled(s) && Stride(s, s', t, th', act)
    requires act.UnlockLog? ==>
               var route := PhaseBefore(s, t).entry.route; route == "" || Configured(s.history, route)
    ensures Labelled(s')
  {
    forall k | 0 <= k < |s'.log| && s'.log[k].route != ""
      ensures Configured(s'.history, s'.log[k].route)
    {
      var i :| 0 <= i < |s.history| && HasPrefix(s.history[i], s'.log[k].route);
      assert s'.history[i] == s.history[i];
    }
  }

  // How the sets of requests at each stage change when one request moves.
  lemma SetsAfter(s: State, s': State, t: Tid, th': Thread, l: Label)
    requires s'.threads == s.threads[t := th']
    ensures Waiting(s', l) == Waiting(s, l) - {t} + if Uncounted(th'.phase, l) then {t} else {}
    ensures Observing(s', l) == Observing(s, l) - {t} + if Unobserved(th'.phase, l) then {t} else {}
    ensures Recorded(s') == Recorded(s) - {t} + if IsRecorded(th'.phase) then {t} else {}
    ensures t in Waiting(s, l) <==> Uncounted(PhaseBefore(s, t), l)
    ensures t in Observing(s, l) <==> Unobserved(PhaseBefore(s, t), l)
    ensures t in Recorded(s) <==> IsRecorded(PhaseBefore(s, t))
  {}

  lemma Resize(a: set<Tid>, t: Tid, was: bool, now: bool)
    requires t in a <==> was
    ensures |a - {t} + if now then {t} else {}| == |a| - (if was then 1 else 0) + (if now then 1 else 0)
  {
    assert |a - {t}| == |a| - if was then 1 else 0;
  }

  // The same in numbers.
  lemma CountsAfter(s: State, s': State, t: Tid, th': Thread, l: Label)
    requires s'.threads == s.threads[t := th']
    ensures var ph, ph' := PhaseBefore(s, t), th'.phase;
            && |Waiting(s', l)| == |Waiting(s, l)| - (if Uncounted(ph, l) then 1 else 0) + (if Uncounted(ph', l) then 1 else 0)
            && |Observing(s', l)| == |Observing(s, l)| - (if Unobserved(ph, l) then 1 else 0) + (if Unobserved(ph', l) then 1 else 0)
            && |Recorded(s')| == |Recorded(s)| - (if IsRecorded(ph) then 1 else 0) + (if IsRecorded(ph') then 1 else 0)
  {
    var ph, ph' := PhaseBefore(s, t), th'.phase;
    SetsAfter(s, s', t, th', l);
    Resize(Waiting(s, l), t, Uncounted(ph, l), Uncounted(ph', l));
    Resize(Observing(s, l), t, Unobserved(ph, l), Unobserved(ph', l));
    Resize(Recorded(s), t, IsRecorded(ph), IsRecorded(ph'));
  }

  lemma RecordedStep(s: State, s': State, t: Tid, th': Thread, act: Act)
    requires Stride(s, s', t, th', act) && |s.log| == |Recorded(s)|
    ensures |s'.log| == |Recorded(s')|
  {
    CountsAfter(s, s', t, th', Label("", "", 200));
  }

  lemma TallyAppend(log: seq<Entry>, e: Entry, l: Label)
    ensures Tally(log + [e], l) == Tally(log, l) + if LabelOf(e) == l then 1 else 0
  {
    assert (log + [e])[..|log|] == log;
  }

  lemma BalanceStep(s: State, s': State, t: Tid, th': Thread, act: Act, l: Label)
    requires Stride(s, s', t, th', act) && s.cfg.layers.metrics && Balanced(s, l)
    ensures Balanced(s', l)
  {
    if act.UnlockLog? {
      BalanceUnlock(s, s', t, th', l);
    } else if act.Count? {
      BalanceCount(s, s', t, th', l);
    } else if act.Observe? {
      BalanceObserve(s, s', t, th', l);
    } else {
      CountsAfter(s, s', t, th', l);
    }
  }

  lemma BalanceUnlock(s: State, s': State, t: Tid, th': Thread, l: Label)
    requires Stride(s, s', t, th', UnlockLog) && s.cfg.layers.metrics && Balanced(s, l)
    ensures Balanced(s', l)
  {
    CountsAfter(s, s', t, th', l);
    TallyAppend(s.log, PhaseBefore(s, t).entry, l);
  }

  lemma BalanceCount(s: State, s': State, t: Tid, th': Thread, l: Label)
    requires Stride(s, s', t, th', Count) && Balanced(s, l)
    ensures Balanced(s', l)
  {
    CountsAfter(s, s', t, th', l);
  }

  lemma BalanceObserve(s: State, s': State, t: Tid, th': Thread, l: Label)
    requires Stride(s, s', t, th', Observe) && Balanced(s, l)
    ensures Balanced(s', l)
  {
    CountsAfter(s, s', t, th', l);
  }

  lemma LedgerStep(s: State, s': State, t: Tid, th': Thread, act: Act)
    requires Ledger(s) && Stride(s, s', t, th', act)
    requires act.Count? || act.Observe? ==> s.cfg.layers.metrics
    ensures Ledger(s')
  {
    RecordedStep(s, s', t, th', act);
    if s.cfg.layers.metrics {
      forall l: Label ensures Balanced(s', l) {
        BalanceStep(s, s', t, th', act, l);
      }
    }
  }

  lemma HistoryStep(s: State, t: Tid, act: Act)
    requires History(s) && AllLocal(s) && Can(s, t, act)
    ensures History(Next(s, t, act)) && Next(s, t, act).cfg == s.cfg
    ensures Next(s, t, act).history
         == if act.Swap? then s.history + [s.threads[t].role.next] else s.history
  {
    NextTable(s, t, act);
    if act.Swap? {
      assert Local(s.cfg, s.history, s.threads[t]);
      SwapInstallsStored(s.cfg, s.history, s.threads[t]);
      SoundAppend(s.history, s.threads[t].role.next);
    }
  }

  lemma NextTable(s: State, t: Tid, act: Act)
    requires Can(s, t, act)
    ensures Next(s, t, act).cfg == s.cfg
    ensures act.Swap? ==>
              && s.threads[t].role.Installer? && Next(s, t, act).current == s.threads[t].role.next
              && Next(s, t, act).history == s.history + [s.threads[t].role.next]
    ensures !act.Swap? ==> Next(s, t, act).current == s.current && Next(s, t, act).history == s.history
  {}

  lemma SoundAppend(h: seq<Built>, b: Built)
    requires SoundHistory(h) && IsStored(b)
    ensures SoundHistory(h + [b])
  {}

  lemma SwapInstallsStored(c: Config, h: seq<Built>, th: Thread)
    requires Local(c, h, th) && CanMove(c, th, Swap)
    ensures IsStored(th.role.next)
  {
    InstalledIsStored(c.codec, th.req.body);
  }

  lemma OwnStep(s: State, t: Tid, act: Act)
    requires History(s) && AllLocal(s) && Can(s, t, act)
    ensures Local(s.cfg, if act.Swap? then s.history + [s.threads[t].role.next] else s.history, Stepped(s, t, act))
  {
    if act.Arrive? {
      ArrivalIsLocal(s, t, act.req);
    } else {
      assert Local(s.cfg, s.history, s.threads[t]);
      MovedIsLocal(s.cfg, s.history, s.threads[t], act);
      SteppedIsMoved(s, t, act);
    }
  }

  lemma SteppedIsMoved(s: State, t: Tid, act: Act)
    requires Headed(s) && Can(s, t, act) && !act.Arrive?
    ensures Stepped(s, t, act) == Moved(s.cfg, s.history, s.threads[t], act)
  {}

  lemma MovedIsLocal(c: Config, h: seq<Built>, th: Thread, act: Act)
    requires SoundHistory(h) && Local(c, h, th) && CanMove(c, th, act)
    ensures Local(c, if act.Swap? then h + [th.role.next] else h, Moved(c, h, th, act))
  {
    if act.Swap? {
      SwapStep(c, h, th);
    } else {
      LocalStep(c, h, th, act);
    }
  }

  lemma OthersStep(s: State, h: seq<Built>, b: Built, u: Tid)
    requires AllLocal(s) && u in s.threads && (h == s.history || h == s.history + [b])
    ensures Local(s.cfg, h, s.threads[u])
  {
    LocalStable(s.cfg, s.history, b, s.threads[u]);
  }

  lemma AllLocalStep(s: State, t: Tid, act: Act)
    requires History(s) && AllLocal(s) && Can(s, t, act)
    ensures AllLocal(Next(s, t, act))
  {
    var s' := Next(s, t, act);
    HistoryStep(s, t, act);
    OwnStep(s, t, act);
    assert s'.threads == s.threads[t := Stepped(s, t, act)];
    forall u | u in s'.threads && u != t ensures Local(s'.cfg, s'.history, s'.threads[u]) {
      OthersStep(s, s'.history, if act.Swap? then s.threads[t].role.next else s.current, u);
    }
  }

  lemma SharedStep(s: State, s': State, t: Tid, th': Thread, act: Act)
    requires Exclusive(s) && Untorn(s) && Labelled(s) && Ledger(s) && Stride(s, s', t, th', act)
    requires act.UnlockLog? ==> LineIsGood(s.history, PhaseBefore(s, t).entry)
    requires act.Count? || act.Observe? ==> s.cfg.layers.metrics
    ensures Exclusive(s') && Untorn(s') && Labelled(s') && Ledger(s')
  {
    ExclusiveStep(s, s', t, th', act);
    UntornStep(s, s', t, th', act);
    LabelledStep(s, s', t, th', act);
    LedgerStep(s, s', t, th', act);
  }

  lemma EntriesAreGood(s: State, t: Tid, act: Act)
    requires History(s) && AllLocal(s) && Can(s, t, act)
    ensures act.UnlockLog? ==> LineIsGood(s.history, PhaseBefore(s, t).entry)
    ensures act.Count? || act.Observe? ==> s.cfg.layers.metrics
  {
    if t in s.threads {
      assert Local(s.cfg, s.history, s.threads[t]);
      EntryIsGood(s.cfg, s.history, s.threads[t], act);
    }
  }

  lemma EntryIsGood(c: Config, h: seq<Built>, th: Thread, act: Act)
    requires SoundHistory(h) && Local(c, h, th) && CanMove(c, th, act)
    ensures act.UnlockLog? ==> LineIsGood(h, th.phase.entry)
    ensures act.Count? || act.Observe? ==> c.layers.metrics
  {
    if act.UnlockLog? {
      LabelsConfigured(c, h, th);
    }
  }

  // Every step keeps the invariant.
  lemma InvStep(s: State, t: Tid, act: Act)
    requires Inv(s) && Can(s, t, act)
    ensures Inv(Next(s, t, act))
  {
    HistoryStep(s, t, act);
    AllLocalStep(s, t, act);
    NextStrides(s, t, act);
    EntriesAreGood(s, t, act);
    SharedStep(s, Next(s, t, act), t, Stepped(s, t, act), act);
  }
}
