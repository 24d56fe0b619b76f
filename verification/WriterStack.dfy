/**
 The meaning of a stack of response writers: the wrappers of the access log,
 the metrics and the tracing middleware over the server's own writer. A stack
 may be of any depth and order; the gateway's four compositions are instances.
 */
module WriterStack {
  import opened Wrappers

  // Final status codes.
  type Status = s: int | 200 <= s <= 999 witness 200

  datatype Kind = AccessLog | Metrics | Tracing

  // A header map; names are in canonical form.
  type Fields = map<string, seq<string>>

  // What a handler may do with its writer: WriteHeader, Write, SetMatchedRoute,
  // and Header().Set and Header().Add.
  datatype Call =
    | Header(code: Status)
    | Body(bytes: string)
    | Stamp(route: string)
    | Set(name: string, value: string)
    | Add(name: string, value: string)

  // `header` is the map that handlers edit, `sent` the copy that went out with
  // the status.
  datatype Stack =
    | Net(committed: Option<Status>, header: Fields, sent: Fields, body: string)
    | Layer(kind: Kind, status: Status, wrote: bool, route: string, below: Stack)

  // The tracing writer neither ignores a second WriteHeader nor forwards stamps.
  predicate Guards(k: Kind) { k != Tracing }

  predicate Forwards(k: Kind) { k != Tracing }

  // What a call does to the header map.
  function Edit(f: Fields, c: Call): Fields {
    match c
    case Set(name, value) => f[name := [value]]
    case Add(name, value) => f[name := (if name in f then f[name] else []) + [value]]
    case _ => f
  }

  // The server's writer sends status and header map once.
  function Commit(s: Stack, code: Status): Stack
    requires s.Net?
  {
    if s.committed.None? then s.(committed := Some(code), sent := s.header) else s
  }

  function Do(s: Stack, c: Call): Stack {
    match s
    case Net(committed, header, sent, body) => (
      match c
      case Header(code) => Commit(s, code)
      case Body(bytes) => Commit(s, 200).(body := body + bytes)
      case Stamp(_) => s
      case _ => s.(header := Edit(header, c)))
    case Layer(kind, _, wrote, _, below) => (
      match c
      case Header(code) =>
        if Guards(kind) && wrote then s
        else s.(status := code, wrote := Guards(kind), below := Do(below, c))
      case Body(_) => s.(wrote := Guards(kind), below := Do(below, c))
      case Stamp(route) => s.(route := route, below := if Forwards(kind) then Do(below, c) else below)
      case _ => s.(below := Do(below, c)))
  }

  function Run(s: Stack, calls: seq<Call>): Stack
    decreases |calls|
  {
    if calls == [] then s else Run(Do(s, calls[0]), calls[1..])
  }

  // When the handler returns, the server commits 200 if nothing was committed.
  function Finish(s: Stack): Stack {
    match s
    case Net(_, _, _, _) => Commit(s, 200)
    case Layer(_, _, _, _, below) => s.(below := Finish(below))
  }

  // Wrappers over a server's writer on which `header` has been set so far.
  function Fresh(kinds: seq<Kind>, header: Fields): Stack {
    if kinds == [] then Net(None, header, map[], "")
    else Layer(kinds[0], 200, false, "", Fresh(kinds[1..], header))
  }

  function Base(s: Stack): (b: Stack)
    ensures b.Net?
  {
    if s.Net? then s else Base(s.below)
  }

  function Depth(s: Stack): nat {
    if s.Net? then 0 else 1 + Depth(s.below)
  }

  // The `k`-th layer from the handler's side.
  function At(s: Stack, k: nat): (l: Stack)
    requires k < Depth(s)
    ensures l.Layer?
  {
    if k == 0 then s else At(s.below, k - 1)
  }

  // ---------- What a call sequence says ----------

  // The calls that make the server send its status and header map.
  predicate Commits(c: Call) {
    c.Header? || c.Body?
  }

  predicate HasCommit(calls: seq<Call>) {
    exists i :: 0 <= i < |calls| && Commits(calls[i])
  }

  // The status that a server which commits once must send.
  function FirstStatus(calls: seq<Call>): Status {
    if calls == [] then 200
    else match calls[0]
      case Header(code) => code
      case Body(_) => 200
      case _ => FirstStatus(calls[1..])
  }

  // The last code passed to WriteHeader, 200 when there is none.
  function LastHeader(calls: seq<Call>): Status {
    if calls == [] then 200
    else match calls[|calls| - 1]
      case Header(code) => code
      case _ => LastHeader(calls[..|calls| - 1])
  }

  // The last route stamped, empty when there is none.
  function LastStamp(calls: seq<Call>): string {
    if calls == [] then ""
    else match calls[|calls| - 1]
      case Stamp(route) => route
      case _ => LastStamp(calls[..|calls| - 1])
  }

  function Bodies(calls: seq<Call>): string {
    if calls == [] then ""
    else match calls[|calls| - 1]
      case Body(bytes) => Bodies(calls[..|calls| - 1]) + bytes
      case _ => Bodies(calls[..|calls| - 1])
  }

  // The header map that must go out: `f` with the edits made before the first
  // call that commits.
  function SentFields(f: Fields, calls: seq<Call>): Fields
    decreases |calls|
  {
    if calls == [] || Commits(calls[0]) then f
    else SentFields(Edit(f, calls[0]), calls[1..])
  }

  // The value that the last Set of `name` before that call gave it, `was` if
  // there is none.
  function LastSet(was: string, name: string, calls: seq<Call>): string
    decreases |calls|
  {
    if calls == [] || Commits(calls[0]) then was
    else LastSet(if calls[0].Set? && calls[0].name == name then calls[0].value else was, name, calls[1..])
  }

  lemma {:induction false} RunAppend(s: Stack, calls: seq<Call>, c: Call)
    ensures Run(s, calls + [c]) == Do(Run(s, calls), c)
    decreases |calls|
  {
    if calls == [] {
      assert [c][1..] == [];
      assert Run(Do(s, c), []) == Do(s, c);
    } else {
      assert (calls + [c])[1..] == calls[1..] + [c];
      RunAppend(Do(s, calls[0]), calls[1..], c);
    }
  }

  lemma RunOne(s: Stack, c: Call)
    ensures Run(s, [c]) == Do(s, c)
  {
    assert Run(Do(s, c), []) == Do(s, c);
    assert [c][1..] == [];
  }

  lemma RunTwo(s: Stack, c: Call, d: Call)
    ensures Run(s, [c, d]) == Do(Do(s, c), d)
  {
    RunOne(Do(s, c), d);
    assert [c, d][1..] == [d];
  }

  lemma RunThree(s: Stack, b: Call, c: Call, d: Call)
    ensures Run(s, [b, c, d]) == Do(Do(Do(s, b), c), d)
  {
    RunTwo(Do(s, b), c, d);
    assert [b, c, d][1..] == [c, d];
  }

  // ---------- Status agreement ----------

  // Every layer has recorded `code`, and so has the server's writer.
  predicate AllRecord(s: Stack, code: Status) {
    match s
    case Net(committed, _, _, _) => committed == Some(code)
    case Layer(_, status, _, _, below) => status == code && AllRecord(below, code)
  }

  // No header has been written yet.
  predicate Untouched(s: Stack) {
    match s
    case Net(committed, _, _, _) => committed.None?
    case Layer(_, status, wrote, _, below) => status == 200 && !wrote && Untouched(below)
  }

  lemma FreshIsUntouched(kinds: seq<Kind>, header: Fields)
    ensures Untouched(Fresh(kinds, header))
  {}

  lemma UntouchedDo(s: Stack, c: Call)
    requires Untouched(s)
    ensures c.Header? ==> AllRecord(Do(s, c), c.code)
    ensures c.Body? ==> AllRecord(Do(s, c), 200)
    ensures !Commits(c) ==> Untouched(Do(s, c))
  {}

  lemma RecordedKept(s: Stack, c: Call, code: Status)
    requires AllRecord(s, code) && !c.Header?
    ensures AllRecord(Do(s, c), code)
  {}

  // A guarding layer on top lets at most one header through, the first, and
  // only before any body byte.
  lemma {:induction false} GuardedRun(s: Stack, calls: seq<Call>, code: Status)
    requires s.Layer? && Guards(s.kind)
    requires if s.wrote then AllRecord(s, code) else Untouched(s) && code == FirstStatus(calls)
    ensures AllRecord(Finish(Run(s, calls)), code)
    decreases |calls|
  {
    if calls == [] {
      FinishAgrees(s, code);
    } else {
      var c := calls[0];
      if !s.wrote {
        UntouchedDo(s, c);
      } else if c.Header? {
        assert Do(s, c) == s;
      } else {
        RecordedKept(s, c, code);
      }
      GuardedRun(Do(s, c), calls[1..], code);
    }
  }

  lemma FinishAgrees(s: Stack, code: Status)
    requires AllRecord(s, code) || (Untouched(s) && code == 200)
    ensures AllRecord(Finish(s), code)
  {}

  lemma {:induction false} BaseCommitsFirst(s: Stack, calls: seq<Call>)
    ensures Base(Finish(Run(s, calls))).committed.Some?
    ensures Untouched(s) ==> Base(Finish(Run(s, calls))).committed == Some(FirstStatus(calls))
    ensures Base(s).committed.Some? ==> Base(Finish(Run(s, calls))).committed == Base(s).committed
    decreases |calls|
  {
    if calls == [] {
      FinishBase(s);
    } else {
      BaseCommitsFirst(Do(s, calls[0]), calls[1..]);
      DoBase(s, calls[0]);
    }
  }

  lemma FinishBase(s: Stack)
    ensures Base(Finish(s)) == Finish(Base(s))
    ensures Untouched(s) ==> Base(s).committed.None?
  {}

  lemma DoBase(s: Stack, c: Call)
    ensures Base(s).committed.Some? ==> Base(Do(s, c)).committed == Base(s).committed
    ensures Base(Do(s, c)).body == Base(s).body + (if c.Body? then c.bytes else "")
    ensures Untouched(s) && c.Header? ==> Base(Do(s, c)).committed == Some(c.code)
    ensures Untouched(s) && c.Body? ==> Base(Do(s, c)).committed == Some(200)
    ensures Untouched(s) && !Commits(c) ==> Untouched(Do(s, c))
  {}

  // A run seen through an unguarded layer on top.
  function WithoutStamps(calls: seq<Call>): seq<Call> {
    if calls == [] then []
    else if calls[|calls| - 1].Stamp? then WithoutStamps(calls[..|calls| - 1])
    else WithoutStamps(calls[..|calls| - 1]) + [calls[|calls| - 1]]
  }

  lemma {:induction false} UnguardedRun(s: Stack, calls: seq<Call>)
    requires s.Layer? && s.kind == Tracing && !s.wrote && s.status == 200
    ensures var e := Run(s, calls);
            && e.Layer? && e.kind == Tracing && !e.wrote
            && e.status == LastHeader(calls)
            && e.below == Run(s.below, WithoutStamps(calls))
  {
    if calls != [] {
      var front, c := calls[..|calls| - 1], calls[|calls| - 1];
      assert calls == front + [c];
      UnguardedRun(s, front);
      RunAppend(s, front, c);
      RunAppend(s.below, WithoutStamps(front), c);
    }
  }

  lemma {:induction false} FirstStatusAppend(calls: seq<Call>, c: Call)
    ensures FirstStatus(calls + [c])
         == if HasCommit(calls) then FirstStatus(calls) else FirstStatus([c])
    ensures !HasCommit(calls) ==> FirstStatus(calls) == 200
  {
    if calls == [] {
      assert [] + [c] == [c];
    } else {
      assert (calls + [c])[1..] == calls[1..] + [c];
      FirstStatusAppend(calls[1..], c);
      if !Commits(calls[0]) {
        if i :| 0 <= i < |calls| && Commits(calls[i]) {
          assert Commits(calls[1..][i - 1]);
        }
        if i :| 0 <= i < |calls[1..]| && Commits(calls[1..][i]) {
          assert Commits(calls[i + 1]);
        }
      }
    }
  }

  lemma {:induction false} StampsCarryNoStatus(calls: seq<Call>)
    ensures LastHeader(WithoutStamps(calls)) == LastHeader(calls)
    ensures FirstStatus(WithoutStamps(calls)) == FirstStatus(calls)
    ensures HasCommit(calls) <==> HasCommit(WithoutStamps(calls))
  {
    if calls != [] {
      var front, c := calls[..|calls| - 1], calls[|calls| - 1];
      assert calls == front + [c];
      StampsCarryNoStatus(front);
      var w := WithoutStamps(front);
      FirstStatusAppend(front, c);
      FirstStatusAppend(w, c);
      CommitsAppend(front, c);
      CommitsAppend(w, c);
      if !c.Stamp? {
        assert (w + [c])[..|w|] == w;
      }
    }
  }

  lemma CommitsAppend(calls: seq<Call>, c: Call)
    ensures HasCommit(calls + [c]) <==> HasCommit(calls) || Commits(c)
  {
    if i :| 0 <= i < |calls| && Commits(calls[i]) {
      assert Commits((calls + [c])[i]);
    }
    if Commits(c) {
      assert Commits((calls + [c])[|calls|]);
    }
  }

  // The exact condition under which all recorders and the server agree: the
  // handler-facing layer guards WriteHeader, or the last header code happens
  // to be the one that was sent.
  lemma {:induction false} StatusAgreement(kinds: seq<Kind>, header: Fields, calls: seq<Call>)
    ensures var end := Finish(Run(Fresh(kinds, header), calls));
            && Base(end).committed == Some(FirstStatus(calls))
            && (AllRecord(end, FirstStatus(calls)) <==>
                kinds == [] || Guards(kinds[0]) || LastHeader(calls) == FirstStatus(calls))
  {
    var s := Fresh(kinds, header);
    FreshIsUntouched(kinds, header);
    BaseCommitsFirst(s, calls);
    if kinds == [] {
      BareRun(s, calls);
    } else if Guards(kinds[0]) {
      GuardedRun(s, calls, FirstStatus(calls));
    } else {
      UnguardedRun(s, calls);
      StampsCarryNoStatus(calls);
      StatusAgreement(kinds[1..], header, WithoutStamps(calls));
    }
  }

  // The condition can fail: the tracing writer alone records a second header
  // that the server never sends.
  lemma UnguardedDisagrees(header: Fields)
    ensures var end := Finish(Run(Fresh([Tracing], header), [Header(200), Header(500)]));
            Base(end).committed == Some(200) && At(end, 0).status == 500
  {
    var s := Fresh([Tracing], header);
    assert [Tracing][1..] == [] && Fresh([], header) == Net(None, header, map[], "");
    assert s == Layer(Tracing, 200, false, "", Net(None, header, map[], ""));
    RunTwo(s, Header(200), Header(500));
  }

  lemma {:induction false} BareRun(s: Stack, calls: seq<Call>)
    requires s.Net?
    ensures Run(s, calls).Net?
    decreases |calls|
  {
    if calls != [] {
      BareRun(Do(s, calls[0]), calls[1..]);
    }
  }

  // Whatever the stack, the body bytes reach the server in order and unchanged.
  lemma {:induction false} BodyReachesServer(s: Stack, calls: seq<Call>)
    ensures Base(Run(s, calls)).body == Base(s).body + Bodies(calls)
  {
    if calls != [] {
      var front, c := calls[..|calls| - 1], calls[|calls| - 1];
      assert calls == front + [c];
      BodyReachesServer(s, front);
      RunAppend(s, front, c);
      DoBase(Run(s, front), c);
    }
  }

  // ---------- The header map on the wire ----------

  lemma EditBase(s: Stack, c: Call)
    ensures Base(Do(s, c)).header == Edit(Base(s).header, c)
    ensures Base(s).committed.Some? ==> Base(Do(s, c)).sent == Base(s).sent
    ensures Untouched(s) && Commits(c) ==>
              Base(Do(s, c)).committed.Some? && Base(Do(s, c)).sent == Base(s).header
  {}

  lemma {:induction false} SentOnce(s: Stack, calls: seq<Call>)
    requires Base(s).committed.Some?
    ensures Base(Finish(Run(s, calls))).sent == Base(s).sent
    decreases |calls|
  {
    if calls == [] {
      FinishBase(s);
    } else {
      EditBase(s, calls[0]);
      DoBase(s, calls[0]);
      SentOnce(Do(s, calls[0]), calls[1..]);
    }
  }

  // Through any stack, what goes out is the header map as it stood at the first
  // header or body write; later edits are lost.
  lemma {:induction false} FieldsReachServer(s: Stack, calls: seq<Call>)
    requires Untouched(s)
    ensures Base(Finish(Run(s, calls))).sent == SentFields(Base(s).header, calls)
    decreases |calls|
  {
    if calls == [] {
      FinishBase(s);
    } else {
      EditBase(s, calls[0]);
      UntouchedDo(s, calls[0]);
      if Commits(calls[0]) {
        SentOnce(Do(s, calls[0]), calls[1..]);
      } else {
        FieldsReachServer(Do(s, calls[0]), calls[1..]);
      }
    }
  }

  // The first value of a field that was there at the start is the one last Set;
  // values that are added come after it.
  lemma {:induction false} FirstValue(f: Fields, name: string, calls: seq<Call>)
    requires name in f && f[name] != []
    ensures var sent := SentFields(f, calls);
            name in sent && sent[name] != [] && sent[name][0] == LastSet(f[name][0], name, calls)
    decreases |calls|
  {
    if calls != [] && !Commits(calls[0]) {
      FirstValue(Edit(f, calls[0]), name, calls[1..]);
    }
  }

  predicate NeverSets(name: string, calls: seq<Call>) {
    forall k :: 0 <= k < |calls| && calls[k].Set? ==> calls[k].name != name
  }

  lemma {:induction false} NeverSetKeeps(was: string, name: string, calls: seq<Call>)
    requires NeverSets(name, calls)
    ensures LastSet(was, name, calls) == was
  {
    if calls != [] && !Commits(calls[0]) {
      forall k | 0 <= k < |calls[1..]| && calls[1..][k].Set? ensures calls[1..][k].name != name {
        assert calls[k + 1].name != name;
      }
      NeverSetKeeps(was, name, calls[1..]);
    }
  }

  // The values that Adds give a name, in order.
  function Added(name: string, calls: seq<Call>): seq<string> {
    if calls == [] then []
    else OneAdd(name, calls[0]) + Added(name, calls[1..])
  }

  lemma {:induction false} SentAppend(f: Fields, pre: seq<Call>, rest: seq<Call>)
    requires forall k :: 0 <= k < |pre| ==> !Commits(pre[k])
    ensures SentFields(f, pre + rest) == SentFields(SentFields(f, pre), rest)
    decreases |pre|
  {
    if pre == [] {
      assert pre + rest == rest;
    } else {
      assert (pre + rest)[1..] == pre[1..] + rest;
      SentAppend(Edit(f, pre[0]), pre[1..], rest);
    }
  }

  function ValuesOf(f: Fields, name: string): seq<string> {
    if name in f then f[name] else []
  }

  lemma {:induction false} OnlyAdds(f: Fields, name: string, calls: seq<Call>)
    requires NeverSets(name, calls) && forall k :: 0 <= k < |calls| ==> !Commits(calls[k])
    ensures ValuesOf(SentFields(f, calls), name) == ValuesOf(f, name) + Added(name, calls)
    decreases |calls|
  {
    if calls != [] {
      var c, rest := calls[0], calls[1..];
      assert forall k :: 0 <= k < |rest| ==> rest[k] == calls[k + 1];
      assert !c.Set? || c.name != name;
      OnlyAdds(Edit(f, c), name, rest);
      EditAdds(f, name, c);
      assert (ValuesOf(f, name) + OneAdd(name, c)) + Added(name, rest) == ValuesOf(f, name) + (OneAdd(name, c) + Added(name, rest));
    }
  }

  function OneAdd(name: string, c: Call): seq<string> {
    if c.Add? && c.name == name then [c.value] else []
  }

  lemma EditAdds(f: Fields, name: string, c: Call)
    requires !c.Set? || c.name != name
    ensures ValuesOf(Edit(f, c), name) == ValuesOf(f, name) + OneAdd(name, c)
  {}

  // What goes out under a name: the value last Set, then every value added
  // since, up to the first header or body write.
  lemma SentValues(f: Fields, name: string, value: string, pre: seq<Call>, post: seq<Call>, rest: seq<Call>)
    requires forall k :: 0 <= k < |pre| ==> !Commits(pre[k])
    requires NeverSets(name, post) && forall k :: 0 <= k < |post| ==> !Commits(post[k])
    requires rest == [] || Commits(rest[0])
    ensures var sent := SentFields(f, pre + [Set(name, value)] + post + rest);
            name in sent && sent[name] == [value] + Added(name, post)
  {
    var fix := [Set(name, value)];
    var g := SentFields(f, pre);
    assert pre + fix + post + rest == pre + (fix + (post + rest));
    SentAppend(f, pre, fix + (post + rest));
    SentAppend(g, fix, post + rest);
    assert fix[1..] == [] && SentFields(g, fix) == SentFields(Edit(g, fix[0]), []);
    var h := g[name := [value]];
    SentAppend(h, post, rest);
    OnlyAdds(h, name, post);
    FirstValue(h, name, post);
  }

  // ---------- What the readings of a call sequence mean ----------

  // The status is that of the first header or body write, and 200 without one.
  lemma {:induction false} FirstStatusMeaning(pre: seq<Call>, rest: seq<Call>)
    requires forall k :: 0 <= k < |pre| ==> !pre[k].Header? && !pre[k].Body?
    requires rest == [] || rest[0].Header? || rest[0].Body?
    ensures FirstStatus(pre + rest) == if rest != [] && rest[0].Header? then rest[0].code else 200
  {
    if pre == [] {
      assert pre + rest == rest;
    } else {
      assert (pre + rest)[1..] == pre[1..] + rest;
      FirstStatusMeaning(pre[1..], rest);
    }
  }

  lemma {:induction false} LastStampMeaning(pre: seq<Call>, post: seq<Call>)
    requires forall k :: 0 <= k < |post| ==> !post[k].Stamp?
    requires pre == [] || pre[|pre| - 1].Stamp?
    ensures LastStamp(pre + post) == if pre == [] then "" else pre[|pre| - 1].route
  {
    if post == [] {
      assert pre + post == pre;
    } else {
      LastStampMeaning(pre, post[..|post| - 1]);
      assert (pre + post)[..|pre + post| - 1] == pre + post[..|post| - 1];
    }
  }

  lemma {:induction false} LastHeaderMeaning(pre: seq<Call>, post: seq<Call>)
    requires forall k :: 0 <= k < |post| ==> !post[k].Header?
    requires pre == [] || pre[|pre| - 1].Header?
    ensures LastHeader(pre + post) == if pre == [] then 200 else pre[|pre| - 1].code
  {
    if post == [] {
      assert pre + post == pre;
    } else {
      LastHeaderMeaning(pre, post[..|post| - 1]);
      assert (pre + post)[..|pre + post| - 1] == pre + post[..|post| - 1];
    }
  }

  lemma {:induction false} BodiesConcatenate(a: seq<Call>, b: seq<Call>)
    ensures Bodies(a + b) == Bodies(a) + Bodies(b)
  {
    if b == [] {
      assert a + b == a;
    } else {
      var front, c := b[..|b| - 1], b[|b| - 1];
      BodiesConcatenate(a, front);
      assert (a + b)[..|a + b| - 1] == a + front;
      assert Bodies(a) + (Bodies(front) + OneBody(c)) == Bodies(a) + Bodies(front) + OneBody(c);
      BodiesLast(a + b);
      BodiesLast(b);
    }
  }

  function OneBody(c: Call): string {
    if c.Body? then c.bytes else ""
  }

  lemma BodiesLast(calls: seq<Call>)
    requires calls != []
    ensures Bodies(calls) == Bodies(calls[..|calls| - 1]) + OneBody(calls[|calls| - 1])
  {}

  // ---------- Route-stamp reach ----------

  // How many layers, from the handler's side, a stamp gets to: down to and
  // including the first that does not forward.
  function Reach(s: Stack): nat {
    if s.Net? then 0 else if Forwards(s.kind) then 1 + Reach(s.below) else 1
  }

  // Every layer above the `k`-th passes stamps on.
  predicate AllForward(s: Stack, k: nat)
    requires k < Depth(s)
  {
    forall j :: 0 <= j < k ==> Forwards(At(s, j).kind)
  }

  lemma {:induction false} ReachMeaning(s: Stack, k: nat)
    requires k < Depth(s)
    ensures k < Reach(s) <==> AllForward(s, k)
  {
    if k != 0 {
      ReachMeaning(s.below, k - 1);
      if AllForward(s, k) {
        assert Forwards(At(s, 0).kind);
        forall j | 0 <= j < k - 1 ensures Forwards(At(s.below, j).kind) {
          assert Forwards(At(s, j + 1).kind);
        }
      }
      if Forwards(s.kind) && AllForward(s.below, k - 1) {
        forall j | 0 <= j < k ensures Forwards(At(s, j).kind) {
          assert j == 0 || Forwards(At(s.below, j - 1).kind);
        }
      }
    }
  }

  lemma ShapeKept(s: Stack, c: Call)
    ensures Depth(Do(s, c)) == Depth(s) && Reach(Do(s, c)) == Reach(s)
  {}

  lemma {:induction false} StampReach(s: Stack, route: string, k: nat)
    requires k < Depth(s)
    ensures Depth(Do(s, Stamp(route))) == Depth(s)
    ensures var l, was := At(Do(s, Stamp(route)), k), At(s, k);
            && l.route == (if AllForward(s, k) then route else was.route)
            && l.kind == was.kind && l.status == was.status && l.wrote == was.wrote
  {
    ShapeKept(s, Stamp(route));
    ReachMeaning(s, k);
    StampReaches(s, route, k);
  }

  lemma {:induction false} StampReaches(s: Stack, route: string, k: nat)
    requires k < Depth(s)
    ensures Depth(Do(s, Stamp(route))) == Depth(s)
    ensures var l, was := At(Do(s, Stamp(route)), k), At(s, k);
            && l.route == (if k < Reach(s) then route else was.route)
            && l.kind == was.kind && l.status == was.status && l.wrote == was.wrote
  {
    ShapeKept(s, Stamp(route));
    if k != 0 && Forwards(s.kind) {
      StampReaches(s.below, route, k - 1);
    }
  }

  lemma {:induction false} OnlyStampsRoute(s: Stack, c: Call, k: nat)
    requires k < Depth(s) && !c.Stamp?
    ensures Depth(Do(s, c)) == Depth(s)
    ensures At(Do(s, c), k).kind == At(s, k).kind && At(Do(s, c), k).route == At(s, k).route
  {
    ShapeKept(s, c);
    if k != 0 {
      OnlyStampsRoute(s.below, c, k - 1);
    }
  }

  lemma {:induction false} RunRoute(s: Stack, calls: seq<Call>, k: nat)
    requires k < Depth(s) && At(s, k).route == ""
    ensures Depth(Run(s, calls)) == Depth(s) && Reach(Run(s, calls)) == Reach(s)
    ensures At(Run(s, calls), k).kind == At(s, k).kind
    ensures At(Run(s, calls), k).route == if k < Reach(s) then LastStamp(calls) else ""
  {
    if calls != [] {
      var front, c := calls[..|calls| - 1], calls[|calls| - 1];
      assert calls == front + [c];
      RunRoute(s, front, k);
      RunAppend(s, front, c);
      ShapeKept(Run(s, front), c);
      if c.Stamp? {
        StampReaches(Run(s, front), c.route, k);
      } else {
        OnlyStampsRoute(Run(s, front), c, k);
      }
    }
  }

  // ---------- The gateway's compositions ----------

  datatype Layers = Layers(metrics: bool, tracing: bool)

  // From the handler down to the server: the access log innermost in the
  // middleware chain, hence on top of the writers; tracing next to the server.
  function Kinds(c: Layers): seq<Kind> {
    [AccessLog] + (if c.metrics then [Metrics] else []) + (if c.tracing then [Tracing] else [])
  }

  function Composed(c: Layers, header: Fields): (s: Stack)
    ensures s.Layer? && s.kind == AccessLog
    ensures Depth(s) == |Kinds(c)|
  {
    FreshShape(Kinds(c), header);
    Fresh(Kinds(c), header)
  }

  lemma FreshShape(kinds: seq<Kind>, header: Fields)
    ensures Depth(Fresh(kinds, header)) == |kinds|
    ensures forall k :: 0 <= k < |kinds| ==>
              At(Fresh(kinds, header), k).kind == kinds[k] && At(Fresh(kinds, header), k).route == ""
  {}

  // In every composition and after every call sequence, the status in the
  // log, in the metric label, on the span and on the wire are one and the
  // same, and so are the routes in the log, the label and the span.
  lemma CompositionsAgree(c: Layers, header: Fields, calls: seq<Call>, k: nat)
    requires k < |Kinds(c)|
    ensures var end := Finish(Run(Composed(c, header), calls));
            && Depth(end) == |Kinds(c)| && At(end, k).kind == Kinds(c)[k]
            && At(end, k).status == FirstStatus(calls)
            && Base(end).committed == Some(FirstStatus(calls))
            && Base(end).sent == SentFields(header, calls)
            && Base(end).body == Bodies(calls)
            && At(end, k).route == LastStamp(calls)
    ensures var ran := Run(Composed(c, header), calls);
            && Depth(ran) == |Kinds(c)|
            && At(ran, k).status == FirstStatus(calls) && At(ran, k).route == LastStamp(calls)
  {
    var s := Composed(c, header);
    var e := Run(s, calls);
    StatusAgreement(Kinds(c), header, calls);
    FreshShape(Kinds(c), header);
    FreshReach(Kinds(c), header);
    RunRoute(s, calls, k);
    FinishShape(e, k);
    AgreeAt(Finish(e), k, FirstStatus(calls));
    ComposedBase(c, header, calls);
  }

  lemma ComposedBase(c: Layers, header: Fields, calls: seq<Call>)
    ensures var end := Base(Finish(Run(Composed(c, header), calls)));
            end.sent == SentFields(header, calls) && end.body == Bodies(calls)
  {
    var s := Composed(c, header);
    FreshIsUntouched(Kinds(c), header);
    FreshBase(Kinds(c), header);
    FieldsReachServer(s, calls);
    BodyReachesServer(s, calls);
    FinishBase(Run(s, calls));
  }

  // A stamp gets past every layer but the last unless one before it stops it.
  lemma FreshReach(kinds: seq<Kind>, header: Fields)
    ensures (forall k :: 0 <= k < |kinds| - 1 ==> Forwards(kinds[k])) ==> Reach(Fresh(kinds, header)) == |kinds|
  {}

  lemma FreshBase(kinds: seq<Kind>, header: Fields)
    ensures Base(Fresh(kinds, header)) == Net(None, header, map[], "")
  {}

  lemma {:induction false} FinishShape(s: Stack, k: nat)
    requires k < Depth(s)
    ensures Depth(Finish(s)) == Depth(s)
    ensures var l, was := At(Finish(s), k), At(s, k);
            l.route == was.route && l.kind == was.kind && l.status == was.status
  {
    FinishDepth(s);
    if k != 0 {
      FinishShape(s.below, k - 1);
    }
  }

  lemma FinishDepth(s: Stack)
    ensures Depth(Finish(s)) == Depth(s)
  {}

  lemma AgreeAt(s: Stack, k: nat, code: Status)
    requires k < Depth(s) && AllRecord(s, code)
    ensures At(s, k).status == code
  {}
}
