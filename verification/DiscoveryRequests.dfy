/** Concurrent requests to the guarded proxy, as a state machine over the atomic
    sections of the source: `ServeHTTP` with its deferred release, and the two copying
    directions of `tunnel`. What is in flight and what is still to be written are sums
    over the requests. internal/discovery/proxy.go. */
module DiscoveryRequests {
  import opened DiscoveryProxy
  import opened Text
  import opened Wrappers

  // One copying direction. `Holding` was read and fitted the budget, `Spent` was
  // read and did not.
  datatype Flow = Ready | Holding(count: nat) | Spent | Closed

  datatype Phase =
    | Asking(host: Str)
    // About to be recorded as refused, with nothing reserved.
    | Turned(host: Str, reason: Reason)
    | Counted(host: Str)
    | Admitted(host: Str)
    | Open(host: Str, up: Flow, down: Flow)
    | Leaving(host: Str)
    | Done

  // `passed` says that the request was within the request budget.
  datatype Request = Request(passed: bool, phase: Phase)

  datatype State = State(table: Table, requests: seq<Request>, forwarded: nat)

  datatype Act =
    | Arrive(host: Str)
    | ArriveRefused(host: Str, reason: Reason)
    | Refuse(id: nat)
    | Count(id: nat)
    | Admit(id: nat)
    | Fail(id: nat, why: Reason)
    | Connect(id: nat)
    | Abandon(id: nat)
    | Read(id: nat, up: bool, read: nat)
    | Write(id: nat, up: bool, written: nat, ok: bool)
    | RefuseBytes(id: nat, up: bool)
    | Close(id: nat, up: bool)
    | Finish(id: nat)
    | Release(id: nat)
    | BeginStep(step: Str, component: Str, document: Str)

  predicate Internal(a: Act) {
    !a.Arrive? && !a.ArriveRefused? && !a.BeginStep?
  }

  function FlowOf(p: Phase, up: bool): Flow
    requires p.Open?
  {
    if up then p.up else p.down
  }

  function WithFlow(p: Phase, up: bool, f: Flow): Phase
    requires p.Open?
  {
    if up then p.(up := f) else p.(down := f)
  }

  /** What request `p` may do next. A write that fails may have written a part; a
      tunnel that never starts is left right after the contact. */
  predicate May(p: Phase, a: Act) {
    match a
    case Arrive(_) => true
    case ArriveRefused(_, reason) => reason.Plaintext? || reason.InvalidHost?
    case BeginStep(_, _, _) => true
    case Refuse(_) => p.Turned?
    case Count(_) => p.Asking?
    case Admit(_) => p.Counted?
    case Fail(_, why) => p.Admitted? && (why.LocalDestination? || why.Unresolvable?)
    case Connect(_) => p.Admitted?
    case Abandon(_) => p.Open? && p.up == Ready && p.down == Ready
    case Read(_, up, read) => p.Open? && FlowOf(p, up) == Ready && read > 0
    case Write(_, up, written, ok) =>
      && p.Open? && FlowOf(p, up).Holding? && written <= FlowOf(p, up).count
      && (ok ==> written == FlowOf(p, up).count)
    case RefuseBytes(_, up) => p.Open? && FlowOf(p, up) == Spent
    case Close(_, up) => p.Open? && FlowOf(p, up) == Ready
    case Finish(_) => p.Open? && p.up == Closed && p.down == Closed
    case Release(_) => p.Leaving?
  }

  predicate Enabled(s: State, a: Act) {
    if Internal(a) then a.id < |s.requests| && May(s.requests[a.id].phase, a) else May(Done, a)
  }

  /** Where the request gets to. */
  function NextPhase(t: Table, l: Limits, p: Phase, a: Act): Phase
    requires Internal(a) && May(p, a)
  {
    match a
    case Refuse(_) => Done
    case Count(_) => if t.requests < l.requests then Counted(p.host) else Turned(p.host, RequestLimit)
    case Admit(_) => if Crowded(t, l, p.host) then Done else Admitted(p.host)
    case Fail(_, _) => Leaving(p.host)
    case Connect(_) => Open(p.host, Ready, Ready)
    case Abandon(_) => Leaving(p.host)
    case Read(_, up, read) => WithFlow(p, up, if t.bytes + read <= l.bytes then Holding(read) else Spent)
    case Write(_, up, _, ok) => WithFlow(p, up, if ok then Ready else Closed)
    case RefuseBytes(_, up) => WithFlow(p, up, Closed)
    case Close(_, up) => WithFlow(p, up, Closed)
    case Finish(_) => Leaving(p.host)
    case Release(_) => Done
  }

  /** What the proxy remembers afterwards: the section of `GuardedProxy` that runs. */
  function NextTable(t: Table, l: Limits, p: Phase, a: Act): Table
    requires May(p, a)
  {
    match a
    case Refuse(_) => WithRefusal(t, l, p.host, p.reason)
    case Count(_) => t.(requests := t.requests + 1)
    case Admit(_) => WithAttempt(t, l, p.host)
    case Fail(_, why) => WithRefusal(t, l, p.host, why)
    case Connect(_) => WithContact(t, l, p.host)
    case Read(_, _, read) => t.(bytes := t.bytes + read)
    case RefuseBytes(_, _) => WithRefusal(t, l, [], ByteLimit)
    case Release(_) => WithoutAttempt(t, p.host)
    case BeginStep(step, component, document) => WithStep(t, step, component, document)
    case _ => t
  }

  function Arrived(l: Limits, a: Act): Phase
    requires a.Arrive? || a.ArriveRefused?
  {
    if a.ArriveRefused? then Turned(a.host, a.reason)
    else if a.host in l.background then Turned(a.host, Background)
    else Asking(a.host)
  }

  function Take(l: Limits, s: State, a: Act): State
    requires Enabled(s, a)
  {
    if Internal(a) then
      var r := s.requests[a.id];
      var passed := r.passed || (a.Count? && s.table.requests < l.requests);
      State(NextTable(s.table, l, r.phase, a), s.requests[a.id := Request(passed, NextPhase(s.table, l, r.phase, a))],
        if a.Write? then s.forwarded + a.written else s.forwarded)
    else if a.BeginStep? then s.(table := NextTable(s.table, l, Done, a))
    else s.(requests := s.requests + [Request(false, Arrived(l, a))])
  }

  const START := State(EMPTY, [], 0)

  predicate Runs(l: Limits, acts: seq<Act>)
    decreases |acts|, 0
  {
    acts == [] || (Runs(l, acts[..|acts| - 1]) && Enabled(Ran(l, acts[..|acts| - 1]), acts[|acts| - 1]))
  }

  function Ran(l: Limits, acts: seq<Act>): State
    requires Runs(l, acts)
    decreases |acts|, 1
  {
    if acts == [] then START else Take(l, Ran(l, acts[..|acts| - 1]), acts[|acts| - 1])
  }

  // -------------------------------------------------------------- sums over the requests

  /** The attempt a request holds until its deferred release. */
  function Held(p: Phase): multiset<Str> {
    if p.Admitted? || p.Open? || p.Leaving? then multiset{p.host} else multiset{}
  }

  function FlowCredit(f: Flow): nat {
    if f.Holding? then f.count else 0
  }

  function Credit(p: Phase): nat {
    if p.Open? then FlowCredit(p.up) + FlowCredit(p.down) else 0
  }

  function InFlight(rs: seq<Request>): multiset<Str> {
    if rs == [] then multiset{} else InFlight(rs[..|rs| - 1]) + Held(rs[|rs| - 1].phase)
  }

  /** Bytes within the budget that are still to be written. */
  function Outstanding(rs: seq<Request>): nat {
    if rs == [] then 0 else Outstanding(rs[..|rs| - 1]) + Credit(rs[|rs| - 1].phase)
  }

  function Passed(rs: seq<Request>): nat {
    if rs == [] then 0 else Passed(rs[..|rs| - 1]) + if rs[|rs| - 1].passed then 1 else 0
  }

  /** Replacing one request replaces its share of every sum. */
  lemma {:induction false} SumsMove(rs: seq<Request>, i: nat, r: Request)
    requires i < |rs|
    ensures Held(rs[i].phase) <= InFlight(rs)
    ensures InFlight(rs[i := r]) == InFlight(rs) - Held(rs[i].phase) + Held(r.phase)
    ensures Outstanding(rs[i := r]) == Outstanding(rs) - Credit(rs[i].phase) + Credit(r.phase)
    ensures Passed(rs[i := r]) == Passed(rs) - (if rs[i].passed then 1 else 0) + if r.passed then 1 else 0
  {
    hide Held, Credit;
    var n := |rs| - 1;
    if i == n {
      assert rs[i := r][..n] == rs[..n];
    } else {
      assert rs[i := r][..n] == rs[..n][i := r];
      SumsMove(rs[..n], i, r);
    }
  }

  lemma SumsGrow(rs: seq<Request>, r: Request)
    requires Held(r.phase) == multiset{} && Credit(r.phase) == 0 && !r.passed
    ensures InFlight(rs + [r]) == InFlight(rs) && Outstanding(rs + [r]) == Outstanding(rs)
    ensures Passed(rs + [r]) == Passed(rs)
  {
    assert (rs + [r])[..|rs|] == rs;
  }

  // -------------------------------------------------------------- invariants

  function Smaller(a: nat, b: nat): nat {
    if a < b then a else b
  }

  /** A request that was let through names no background host and has passed the
      counter; one that is still to be counted, or was turned away, has not. */
  predicate Foreground(l: Limits, r: Request) {
    && (r.phase.Done? || r.phase.Turned? || r.phase.host !in l.background)
    && (r.phase.Asking? || r.phase.Turned? ==> !r.passed)
    && (r.phase.Counted? || r.phase.Admitted? || r.phase.Open? || r.phase.Leaving? ==> r.passed)
  }

  ghost predicate Kept(l: Limits, s: State) {
    && Reserved(s.table, InFlight(s.requests), l.hosts)
    && |s.table.blocked| <= l.requests
    && Passed(s.requests) == Smaller(s.table.requests, l.requests)
    && s.forwarded + Outstanding(s.requests) <= Smaller(s.table.bytes, l.bytes)
    && (forall i :: 0 <= i < |s.requests| ==> Foreground(l, s.requests[i]))
    && s.table.hosts.Keys !! l.background
    && WellAttributed(s.table.trail, s.table.hosts.Keys)
  }

  /** Which sections leave contacts and reservations alone. */
  lemma QuietSections(t: Table, l: Limits, p: Phase, a: Act)
    requires May(p, a) && !a.Admit? && !a.Connect? && !a.Release?
    ensures NextTable(t, l, p, a).hosts == t.hosts && NextTable(t, l, p, a).pending == t.pending
  {
    hide WithAttempt, WithContact, WithoutAttempt, WithRefusal, FlowOf;
    match a
    case Refuse(_) => RefusalFrame(t, l, p.host, p.reason);
    case Fail(_, why) => RefusalFrame(t, l, p.host, why);
    case RefuseBytes(_, _) => RefusalFrame(t, l, [], ByteLimit);
    case _ =>
  }

  lemma QuietPhases(t: Table, l: Limits, p: Phase, a: Act)
    requires Internal(a) && May(p, a) && !a.Admit? && !a.Connect? && !a.Release?
    ensures Held(NextPhase(t, l, p, a)) == Held(p)
  {
    hide Crowded;
  }

  /** A step of request `a.id` in terms of sums. */
  lemma StepSums(l: Limits, s: State, a: Act)
    requires Internal(a) && Enabled(s, a)
    ensures var p, t := s.requests[a.id].phase, Take(l, s, a);
      && t.table == NextTable(s.table, l, p, a)
      && Held(p) <= InFlight(s.requests)
      && InFlight(t.requests) == InFlight(s.requests) - Held(p) + Held(NextPhase(s.table, l, p, a))
  {
    hide NextPhase, NextTable, Held, InFlight, Credit, Passed, Outstanding, May;
    SumsMove(s.requests, a.id, Take(l, s, a).requests[a.id]);
  }

  lemma ReservingSections(t: Table, l: Limits, p: Phase, a: Act)
    requires Internal(a) && May(p, a)
    ensures a.Admit? ==>
      && NextTable(t, l, p, a) == WithAttempt(t, l, p.host) && Held(p) == multiset{}
      && Held(NextPhase(t, l, p, a)) == if Crowded(t, l, p.host) then multiset{} else multiset{p.host}
    ensures a.Connect? ==>
      && NextTable(t, l, p, a) == WithContact(t, l, p.host)
      && Held(p) == Held(NextPhase(t, l, p, a)) == multiset{p.host}
    ensures a.Release? ==>
      && NextTable(t, l, p, a) == WithoutAttempt(t, p.host)
      && Held(p) == multiset{p.host} && Held(NextPhase(t, l, p, a)) == multiset{}
  {
    hide WithAttempt, WithContact, WithoutAttempt, Crowded;
  }

  lemma ReservationMoves(t: Table, l: Limits, inFlight: multiset<Str>, p: Phase, a: Act)
    requires Internal(a) && May(p, a) && Held(p) <= inFlight && Reserved(t, inFlight, l.hosts)
    ensures Reserved(NextTable(t, l, p, a), inFlight - Held(p) + Held(NextPhase(t, l, p, a)), l.hosts)
  {
    hide WithAttempt, WithContact, WithoutAttempt, Crowded, Reserved, NextTable, NextPhase, Held;
    var after := inFlight - Held(p) + Held(NextPhase(t, l, p, a));
    ReservingSections(t, l, p, a);
    if a.Admit? {
      AttemptKeepsRoom(t, l, inFlight, p.host);
      assert after == if Crowded(t, l, p.host) then inFlight else inFlight + multiset{p.host};
    } else if a.Connect? {
      assert p.host in Held(p);
      ContactKeepsRoom(t, l, inFlight, p.host);
      assert after == inFlight;
    } else if a.Release? {
      assert p.host in Held(p);
      ReleaseKeepsRoom(t, l, inFlight, p.host);
      assert after == inFlight - multiset{p.host};
    } else {
      QuietReserved(t, l, inFlight, p, a);
    }
  }

  lemma QuietReserved(t: Table, l: Limits, inFlight: multiset<Str>, p: Phase, a: Act)
    requires Internal(a) && May(p, a) && !a.Admit? && !a.Connect? && !a.Release?
    requires Held(p) <= inFlight && Reserved(t, inFlight, l.hosts)
    ensures Reserved(NextTable(t, l, p, a), inFlight - Held(p) + Held(NextPhase(t, l, p, a)), l.hosts)
  {
    hide NextTable, NextPhase, Reserved, Held, May;
    QuietSections(t, l, p, a);
    QuietPhases(t, l, p, a);
    ReservedAlike(t, NextTable(t, l, p, a), inFlight, l.hosts);
    assert inFlight - Held(p) + Held(p) == inFlight;
  }

  lemma ReservedAlike(t: Table, u: Table, inFlight: multiset<Str>, room: nat)
    requires t.hosts == u.hosts && t.pending == u.pending
    ensures Reserved(t, inFlight, room) <==> Reserved(u, inFlight, room)
  {
  }

  lemma BoundedRefusals(t: Table, l: Limits, p: Phase, a: Act)
    requires May(p, a) && |t.blocked| <= l.requests
    ensures |NextTable(t, l, p, a).blocked| <= l.requests
  {
    hide Crowded, WithRefusal, Stepped, Loaded;
    match a
    case Refuse(_) => RefusalStaysBounded(t, l, p.host, p.reason);
    case Fail(_, why) => RefusalStaysBounded(t, l, p.host, why);
    case Admit(_) => RefusalStaysBounded(t, l, p.host, HostLimit);
    case RefuseBytes(_, _) => RefusalStaysBounded(t, l, [], ByteLimit);
    case _ =>
  }

  /** What a step adds to the counters is what it adds to the sums, or more. */
  lemma CountersMove(t: Table, l: Limits, p: Phase, a: Act)
    requires May(p, a)
    ensures NextTable(t, l, p, a).requests == t.requests + if a.Count? then 1 else 0
    ensures NextTable(t, l, p, a).bytes == t.bytes + if a.Read? then a.read else 0
    ensures Internal(a) ==>
      Credit(NextPhase(t, l, p, a)) + (if a.Write? then a.written else 0)
        <= Credit(p) + if a.Read? && t.bytes + a.read <= l.bytes then a.read else 0
  {
    hide Crowded, Without, Stepped, Loaded;
  }

  lemma CountedBudgets(l: Limits, s: State, a: Act)
    requires Internal(a) && Enabled(s, a) && Kept(l, s)
    ensures var t := Take(l, s, a);
      && Passed(t.requests) == Smaller(t.table.requests, l.requests)
      && t.forwarded + Outstanding(t.requests) <= Smaller(t.table.bytes, l.bytes)
  {
    hide NextPhase, NextTable, Passed, Outstanding, InFlight, Held, Credit, Reserved, WellAttributed;
    CountersMove(s.table, l, s.requests[a.id].phase, a);
    SumsMove(s.requests, a.id, Take(l, s, a).requests[a.id]);
    assert Foreground(l, s.requests[a.id]);
  }

  lemma StaysForeground(t: Table, l: Limits, r: Request, a: Act, passed: bool)
    requires Internal(a) && May(r.phase, a) && Foreground(l, r)
    requires passed == (r.passed || (a.Count? && t.requests < l.requests))
    ensures Foreground(l, Request(passed, NextPhase(t, l, r.phase, a)))
    ensures t.hosts.Keys !! l.background ==> NextTable(t, l, r.phase, a).hosts.Keys !! l.background
  {
    hide Crowded, Without, Stepped, Loaded, WithRefusal, WithAttempt, WithoutAttempt;
    if !a.Connect? {
      OtherSections(t, l, r.phase, a);
    }
  }

  lemma OtherSections(t: Table, l: Limits, p: Phase, a: Act)
    requires May(p, a) && !a.Connect?
    ensures NextTable(t, l, p, a).hosts == t.hosts
    ensures a.BeginStep? || NextTable(t, l, p, a).trail == t.trail
  {
    hide Without, WithRefusal, Crowded, FlowOf;
    match a
    case Refuse(_) => RefusalFrame(t, l, p.host, p.reason);
    case Fail(_, why) => RefusalFrame(t, l, p.host, why);
    case RefuseBytes(_, _) => RefusalFrame(t, l, [], ByteLimit);
    case Admit(_) => RefusalFrame(t, l, p.host, HostLimit);
    case _ =>
  }

  lemma StepKeepsTrail(t: Table, l: Limits, p: Phase, a: Act)
    requires May(p, a) && WellAttributed(t.trail, t.hosts.Keys)
    ensures WellAttributed(NextTable(t, l, p, a).trail, NextTable(t, l, p, a).hosts.Keys)
  {
    if a.Connect? {
      ContactIsAttributed(t, l, p.host);
    } else {
      OtherSections(t, l, p, a);
      TrailAlike(t, NextTable(t, l, p, a), a);
    }
  }

  lemma TrailAlike(t: Table, u: Table, a: Act)
    requires t.hosts == u.hosts &&
      (t.trail == u.trail || (a.BeginStep? && u == WithStep(t, a.step, a.component, a.document)))
    requires WellAttributed(t.trail, t.hosts.Keys)
    ensures WellAttributed(u.trail, u.hosts.Keys)
  {
  }

  lemma StepKeeps(l: Limits, s: State, a: Act)
    requires Kept(l, s) && Enabled(s, a)
    ensures Kept(l, Take(l, s, a))
  {
    hide NextPhase, NextTable, May, Reserved, WellAttributed, Passed, Outstanding, InFlight, Foreground;
    var t := Take(l, s, a);
    if Internal(a) {
      var r := s.requests[a.id];
      StepSums(l, s, a);
      ReservationMoves(s.table, l, InFlight(s.requests), r.phase, a);
      CountedBudgets(l, s, a);
      BoundedRefusals(s.table, l, r.phase, a);
      StaysForeground(s.table, l, r, a, t.requests[a.id].passed);
      StepKeepsTrail(s.table, l, r.phase, a);
      forall i | 0 <= i < |t.requests| ensures Foreground(l, t.requests[i]) {
        assert Foreground(l, s.requests[i]);
      }
    } else {
      ArrivalKeeps(l, s, a);
    }
  }

  lemma ArrivalKeeps(l: Limits, s: State, a: Act)
    requires Kept(l, s) && Enabled(s, a) && !Internal(a)
    ensures Kept(l, Take(l, s, a))
  {
    hide Reserved, WellAttributed, Passed, Outstanding, InFlight;
    var t := Take(l, s, a);
    if a.BeginStep? {
      StepKeepsTrail(s.table, l, Done, a);
      ReservedAlike(s.table, t.table, InFlight(s.requests), l.hosts);
    } else {
      SumsGrow(s.requests, t.requests[|s.requests|]);
    }
  }

  // -------------------------------------------------------------- the theorems

  /** Admission conserves capacity in every interleaving of any number of requests.
      For each host not yet contacted the reservation is the number of its attempts
      in flight; contacted and reserved hosts stay within the bound; exactly the
      first `requests` requests pass the counter; what is written and what is still
      to be written stay within the byte budget; no background host is contacted. */
  lemma {:induction false} CapacityIsConserved(l: Limits, acts: seq<Act>)
    requires Runs(l, acts)
    ensures Kept(l, Ran(l, acts))
  {
    hide Take, Enabled;
    if acts == [] {
      NothingYet(l);
    } else {
      var n := |acts| - 1;
      CapacityIsConserved(l, acts[..n]);
      StepKeeps(l, Ran(l, acts[..n]), acts[n]);
    }
  }

  lemma NothingYet(l: Limits)
    ensures Kept(l, START)
  {
  }

  /** The hosts that a step puts into both answers of `observed`: it refuses a host
      that was contacted, and remembers it. */
  function Doubled(l: Limits, s: State, a: Act): set<Str> {
    if !Enabled(s, a) || !(a.Refuse? || a.Fail?) then {}
    else
      var h := s.requests[a.id].phase.host;
      if h in s.table.hosts && Fits(s.table, l, h) then {h} else {}
  }

  /** The host that a step contacts. */
  function Reached(s: State, a: Act): set<Str> {
    if Enabled(s, a) && a.Connect? then {s.requests[a.id].phase.host} else {}
  }

  lemma BothMoves(l: Limits, s: State, a: Act)
    requires Enabled(s, a)
    ensures Both(Take(l, s, a).table) == Both(s.table) + Doubled(l, s, a) - Reached(s, a)
  {
    hide WithRefusal, WithAttempt, WithContact, WithoutAttempt, Crowded, Fits;
    var p := if Internal(a) then s.requests[a.id].phase else Done;
    assert Take(l, s, a).table == if a.Arrive? || a.ArriveRefused? then s.table else NextTable(s.table, l, p, a);
    match a
    case Refuse(_) => RefusedExactly(s.table, l, p.host, p.reason);
    case Fail(_, why) => RefusedExactly(s.table, l, p.host, why);
    case RefuseBytes(_, _) => UnnamedRefusal(s.table, l);
    case Admit(_) => BothAfter(s.table, l, p.host);
    case Connect(_) => BothAfter(s.table, l, p.host);
    case Release(_) => BothAfter(s.table, l, p.host);
    case _ =>
  }

  lemma UnnamedRefusal(t: Table, l: Limits)
    ensures Both(WithRefusal(t, l, [], ByteLimit)) == Both(t)
  {
  }

  /** The state after the first `n` steps. */
  function At(l: Limits, acts: seq<Act>, n: nat): State
    requires Runs(l, acts) && n <= |acts|
  {
    RunsBefore(l, acts, n);
    Ran(l, acts[..n])
  }

  lemma {:induction false} RunsBefore(l: Limits, acts: seq<Act>, n: nat)
    requires Runs(l, acts) && n <= |acts|
    ensures Runs(l, acts[..n])
    ensures n < |acts| ==> Enabled(Ran(l, acts[..n]), acts[n])
    ensures n < |acts| ==> Runs(l, acts[..n + 1]) && Ran(l, acts[..n + 1]) == Take(l, Ran(l, acts[..n]), acts[n])
  {
    hide Take, Enabled;
    if n == |acts| {
      assert acts[..n] == acts;
    } else if n + 1 == |acts| {
      assert acts[..n + 1] == acts;
    } else {
      var m := |acts| - 1;
      RunsBefore(l, acts[..m], n);
      assert acts[..m][..n] == acts[..n] && acts[..m][..n + 1] == acts[..n + 1];
    }
  }

  /** `h` was refused while contacted, and not contacted again before step `n`. */
  ghost predicate StillDoubled(l: Limits, acts: seq<Act>, n: nat, h: Str)
    requires Runs(l, acts) && n <= |acts|
  {
    exists k :: 0 <= k < n && h in Doubled(l, At(l, acts, k), acts[k]) &&
      forall m :: k < m < n ==> h !in Reached(At(l, acts, m), acts[m])
  }

  /** `observed` reports a host both as contacted and as refused exactly when some
      refusal of the contacted host was remembered and the host was not contacted
      since. */
  lemma {:induction false} BothExactly(l: Limits, acts: seq<Act>, n: nat, h: Str)
    requires Runs(l, acts) && n <= |acts|
    ensures h in Both(At(l, acts, n).table) <==> StillDoubled(l, acts, n, h)
    decreases n
  {
    hide Take, Enabled, Doubled, Reached, Runs, Both, At, StillDoubled;
    if n == 0 {
      NoneYet(l, acts);
    } else {
      BothExactly(l, acts, n - 1, h);
      AtMoves(l, acts, n - 1);
      DoubledNext(l, acts, n - 1, h);
    }
  }

  lemma DoubledNext(l: Limits, acts: seq<Act>, n: nat, h: Str)
    requires Runs(l, acts) && n < |acts|
    requires Doubled(l, At(l, acts, n), acts[n]) == {} || Reached(At(l, acts, n), acts[n]) == {}
    ensures var s, a := At(l, acts, n), acts[n];
      StillDoubled(l, acts, n + 1, h) <==>
        h in Doubled(l, s, a) || (StillDoubled(l, acts, n, h) && h !in Reached(s, a))
  {
    hide Runs, At, Doubled, Reached;
    if h in Doubled(l, At(l, acts, n), acts[n]) {
    } else if StillDoubled(l, acts, n, h) && h !in Reached(At(l, acts, n), acts[n]) {
      var k :| 0 <= k < n && h in Doubled(l, At(l, acts, k), acts[k]) &&
        forall m :: k < m < n ==> h !in Reached(At(l, acts, m), acts[m]);
      assert forall m :: k < m < n + 1 ==> h !in Reached(At(l, acts, m), acts[m]);
    }
  }

  lemma NoneYet(l: Limits, acts: seq<Act>)
    requires Runs(l, acts)
    ensures Both(At(l, acts, 0).table) == {} && forall h :: !StillDoubled(l, acts, 0, h)
  {
  }

  /** The step that contacts a host does not refuse it. */
  lemma AtMoves(l: Limits, acts: seq<Act>, n: nat)
    requires Runs(l, acts) && n < |acts|
    ensures var s, a := At(l, acts, n), acts[n];
      && Both(At(l, acts, n + 1).table) == Both(s.table) + Doubled(l, s, a) - Reached(s, a)
      && (Doubled(l, s, a) == {} || Reached(s, a) == {})
  {
    hide Take, Enabled, Both, Fits;
    RunsBefore(l, acts, n);
    BothMoves(l, At(l, acts, n), acts[n]);
  }

  /** No step of the run refuses a contacted host that has a usable name while there
      is room to remember it. */
  ghost predicate NeverDoubles(l: Limits, acts: seq<Act>)
    requires Runs(l, acts)
  {
    forall n :: 0 <= n < |acts| ==> Doubled(l, At(l, acts, n), acts[n]) == {}
  }

  ghost predicate ApartThroughout(l: Limits, acts: seq<Act>)
    requires Runs(l, acts)
  {
    forall n :: 0 <= n <= |acts| ==> Both(At(l, acts, n).table) == {}
  }

  lemma ApartExactly(l: Limits, acts: seq<Act>)
    requires Runs(l, acts)
    ensures ApartThroughout(l, acts) <==> NeverDoubles(l, acts)
  {
    hide Take, Enabled, Both, Doubled, Reached, Runs, At;
    if NeverDoubles(l, acts) {
      forall n | 0 <= n <= |acts| ensures Both(At(l, acts, n).table) == {} {
        forall h ensures h !in Both(At(l, acts, n).table) {
          BothExactly(l, acts, n, h);
        }
      }
    }
    if ApartThroughout(l, acts) {
      forall n | 0 <= n < |acts| ensures Doubled(l, At(l, acts, n), acts[n]) == {} {
        AtMoves(l, acts, n);
        assert Both(At(l, acts, n + 1).table) == {};
      }
    }
  }

  // -------------------------------------------------------------- progress

  lemma RunsMore(l: Limits, acts: seq<Act>, a: Act)
    requires Runs(l, acts) && Enabled(Ran(l, acts), a)
    ensures Runs(l, acts + [a]) && Ran(l, acts + [a]) == Take(l, Ran(l, acts), a)
  {
    hide Enabled, Take;
    assert (acts + [a])[..|acts|] == acts;
  }

  /** After any run, a request for a host that is not a background host passes as long
      as the request budget lasts and there is room for the host, and its connection
      stands. */
  lemma RequestGoesThrough(l: Limits, acts: seq<Act>, host: Str) returns (more: seq<Act>)
    requires Runs(l, acts) && host !in l.background
    requires Ran(l, acts).table.requests < l.requests
    requires var t := Ran(l, acts).table;
      host in t.hosts || (host in t.pending && t.pending[host] > 0) || |t.hosts| + |t.pending| < l.hosts
    ensures Runs(l, more)
    ensures var s, end := Ran(l, acts), Ran(l, more);
      && |end.requests| == |s.requests| + 1 && end.requests[..|s.requests|] == s.requests
      && end.requests[|s.requests|] == Request(true, Open(host, Ready, Ready))
      && end.table.hosts == s.table.hosts[host := CountOf(s.table.hosts, host) + 1]
      && end.table.requests == s.table.requests + 1 && end.table.bytes == s.table.bytes
      && end.forwarded == s.forwarded
  {
    hide Runs, Ran, Crowded, Stepped, Loaded, Without;
    assert !Crowded(Ran(l, acts).table, l, host) by {
      HasRoom(Ran(l, acts).table, l, host);
    }
    var id := |Ran(l, acts).requests|;
    more := acts;
    RunsMore(l, more, Arrive(host));
    more := more + [Arrive(host)];
    RunsMore(l, more, Count(id));
    assert !Crowded(Take(l, Ran(l, more), Count(id)).table, l, host) by {
      SameRoom(Ran(l, acts).table, Take(l, Ran(l, more), Count(id)).table, l, host);
    }
    more := more + [Count(id)];
    RunsMore(l, more, Admit(id));
    more := more + [Admit(id)];
    RunsMore(l, more, Connect(id));
    more := more + [Connect(id)];
  }

  lemma HasRoom(t: Table, l: Limits, h: Str)
    requires h in t.hosts || (h in t.pending && t.pending[h] > 0) || |t.hosts| + |t.pending| < l.hosts
    ensures !Crowded(t, l, h)
  {
  }

  lemma SameRoom(t: Table, u: Table, l: Limits, h: Str)
    requires t.hosts == u.hosts && t.pending == u.pending
    ensures Crowded(t, l, h) == Crowded(u, l, h)
  {
  }

  /** Through an open tunnel everything within the byte budget is forwarded, in either
      direction; what would pass the budget is not, and ends the direction. */
  lemma BytesGoThrough(l: Limits, acts: seq<Act>, id: nat, up: bool, count: nat) returns (more: seq<Act>)
    requires Runs(l, acts) && id < |Ran(l, acts).requests| && count > 0
    requires var p := Ran(l, acts).requests[id].phase; p.Open? && FlowOf(p, up) == Ready
    ensures Runs(l, more)
    ensures var s, end := Ran(l, acts), Ran(l, more);
      && end.table.bytes == s.table.bytes + count
      && (s.table.bytes + count <= l.bytes ==>
        end.forwarded == s.forwarded + count && end.requests == s.requests)
      && (s.table.bytes + count > l.bytes ==>
        && end.forwarded == s.forwarded
        && end.requests == s.requests[id := s.requests[id].(phase := WithFlow(s.requests[id].phase, up, Closed))])
  {
    hide Runs, Ran;
    more := acts;
    RunsMore(l, more, Read(id, up, count));
    more := more + [Read(id, up, count)];
    if Ran(l, acts).table.bytes + count <= l.bytes {
      RunsMore(l, more, Write(id, up, count, true));
      more := more + [Write(id, up, count, true)];
    } else {
      RunsMore(l, more, RefuseBytes(id, up));
      more := more + [RefuseBytes(id, up)];
    }
  }

  /** One step of request `id` towards its end. */
  function Onwards(p: Phase, id: nat): Act
    requires !p.Done?
  {
    match p
    case Asking(_) => Count(id)
    case Turned(_, _) => Refuse(id)
    case Counted(_) => Admit(id)
    case Admitted(_) => Fail(id, Unresolvable)
    case Leaving(_) => Release(id)
    case Open(_, up, down) =>
      if up == Closed && down == Closed then Finish(id)
      else
        var first := up != Closed;
        var flow := if first then up else down;
        if flow.Holding? then Write(id, first, 0, false)
        else if flow.Spent? then RefuseBytes(id, first)
        else Close(id, first)
  }

  function StepsLeft(p: Phase): nat {
    match p
    case Done => 0
    case Turned(_, _) => 1
    case Leaving(_) => 1
    case Admitted(_) => 2
    case Open(_, up, down) => 2 + (if up == Closed then 0 else 1) + if down == Closed then 0 else 1
    case Counted(_) => 3
    case Asking(_) => 4
  }

  lemma OneStepCloser(t: Table, l: Limits, p: Phase, id: nat)
    requires !p.Done?
    ensures Internal(Onwards(p, id)) && Onwards(p, id).id == id && May(p, Onwards(p, id))
    ensures StepsLeft(NextPhase(t, l, p, Onwards(p, id))) < StepsLeft(p)
  {
    hide Crowded;
  }

  /** After any run every request can be brought to its end, whatever the others do, and
      then it holds no attempt. */
  lemma {:induction false} EveryRequestCanFinish(l: Limits, acts: seq<Act>, id: nat) returns (more: seq<Act>)
    requires Runs(l, acts) && id < |Ran(l, acts).requests|
    ensures Runs(l, more)
    ensures var rs, rs' := Ran(l, acts).requests, Ran(l, more).requests;
      && |rs'| == |rs| && rs' == rs[id := rs'[id]] && rs'[id].phase == Done
      && InFlight(rs') == InFlight(rs) - Held(rs[id].phase)
    decreases StepsLeft(Ran(l, acts).requests[id].phase)
  {
    hide Runs, Ran, InFlight, NextTable, NextPhase, May, Onwards, StepsLeft, Held;
    var s := Ran(l, acts);
    var p := s.requests[id].phase;
    more := acts;
    if p.Done? {
      NothingHeld();
      assert s.requests == s.requests[id := s.requests[id]];
    } else {
      var a := Onwards(p, id);
      OneStepCloser(s.table, l, p, id);
      RunsMore(l, acts, a);
      more := EveryRequestCanFinish(l, acts + [a], id);
      var r := Ran(l, more).requests[id];
      assert Ran(l, more).requests == s.requests[id := r];
      SumsMove(s.requests, id, r);
      NothingHeld();
    }
  }

  lemma NothingHeld()
    ensures Held(Done) == multiset{}
  {
  }

  /** A connection that stands and has carried nothing may be given up at once. */
  lemma UnusedConnectionsCanBeLeft(s: State, l: Limits, id: nat, host: Str)
    requires id < |s.requests| && s.requests[id].phase == Open(host, Ready, Ready)
    ensures Enabled(s, Abandon(id))
    ensures Take(l, s, Abandon(id)) ==
      s.(requests := s.requests[id := s.requests[id].(phase := Leaving(host))])
  {
  }
}
