/** The delivery gate as a state machine: one token in a channel of capacity one,
    any number of callers, cancellation that races with the token, and releases
    that may be called again. What a scheduled send re-checked under the gate stays
    true until it ends. internal/application/delivery_gate.go,
    automatic_delivery.go, and the wrappers in cmd/routevane/serve.go. */
module DeliveryGate {
  import opened Text

  type Pid = nat

  const CAPACITY := 1

  /** A scheduled send, or any other operation that takes the gate: binding, device,
      consent and credential changes, retirements, imports, manual sends. */
  datatype Job = Deliver(output: Str, device: Str) | Mutate

  datatype Stage = Begun | OutputMatches | Sending | Finished

  datatype Caller =
    | Idle
    | Arrived(job: Job)
    | Waiting(job: Job)
    // The token is received, the context not yet checked again.
    | Taken(job: Job)
    | Working(job: Job, stage: Stage)
    // The release function was called at least once.
    | Released

  // Bindings of outputs to devices ([] is none), and consent per device.
  datatype State = State(tokens: nat, callers: map<Pid, Caller>, canceled: set<Pid>,
    outputs: map<Str, Str>, consent: map<Str, bool>)

  datatype Act =
    | Arrive(pid: Pid, job: Job)
    | Cancel(pid: Pid)
    | CheckFirst(pid: Pid)
    | SeeDone(pid: Pid)
    | Receive(pid: Pid)
    | CheckAgain(pid: Pid)
    | ReadOutput(pid: Pid)
    | ReadDevice(pid: Pid)
    | EndSend(pid: Pid)
    | Change(pid: Pid, outputs: map<Str, Str>, consent: map<Str, bool>)
    | Release(pid: Pid)
    | Leave(pid: Pid)
    // Without the gate: a new device has no consent, a new output no device.
    | RegisterDevice(device: Str)
    | AddOutput(output: Str)

  function CallerOf(s: State, p: Pid): Caller {
    if p in s.callers then s.callers[p] else Idle
  }

  predicate Holds(c: Caller) {
    c.Taken? || c.Working?
  }

  function Holders(s: State): set<Pid> {
    set p | p in s.callers && Holds(s.callers[p])
  }

  function Moved(s: State, p: Pid, c: Caller): State {
    s.(callers := s.callers[p := c])
  }

  predicate Bound(s: State, o: Str, d: Str) {
    o in s.outputs && s.outputs[o] == d
  }

  predicate Consents(s: State, d: Str) {
    d in s.consent && s.consent[d]
  }

  predicate Enabled(s: State, a: Act) {
    match a
    case Arrive(p, _) => CallerOf(s, p).Idle?
    case Cancel(_) => true
    case CheckFirst(p) => CallerOf(s, p).Arrived?
    case SeeDone(p) => CallerOf(s, p).Waiting? && p in s.canceled
    case Receive(p) => CallerOf(s, p).Waiting? && s.tokens > 0
    // Putting the token back is a channel send: it waits for room.
    case CheckAgain(p) => CallerOf(s, p).Taken? && (p in s.canceled ==> s.tokens < CAPACITY)
    case ReadOutput(p) => CallerOf(s, p).Working? && CallerOf(s, p).job.Deliver? && CallerOf(s, p).stage.Begun?
    case ReadDevice(p) => CallerOf(s, p).Working? && CallerOf(s, p).job.Deliver? && CallerOf(s, p).stage.OutputMatches?
    case EndSend(p) => CallerOf(s, p).Working? && CallerOf(s, p).stage.Sending?
    case Change(p, _, _) => CallerOf(s, p).Working? && CallerOf(s, p).job.Mutate?
    case Release(p) =>
      CallerOf(s, p).Released? ||
      (CallerOf(s, p).Working? && !CallerOf(s, p).stage.Sending? && s.tokens < CAPACITY)
    case Leave(p) => CallerOf(s, p).Released?
    case RegisterDevice(d) => d !in s.consent
    case AddOutput(o) => o !in s.outputs
  }

  /** Where the acting caller gets to. */
  function NextCaller(s: State, a: Act): Caller
    requires Enabled(s, a) && !a.RegisterDevice? && !a.AddOutput? && !a.Cancel?
  {
    var c := CallerOf(s, a.pid);
    match a
    case Arrive(_, job) => Arrived(job)
    case CheckFirst(p) => if p in s.canceled then Idle else Waiting(c.job)
    case SeeDone(_) => Idle
    case Receive(_) => Taken(c.job)
    case CheckAgain(p) => if p in s.canceled then Idle else Working(c.job, Begun)
    case ReadOutput(_) => Working(c.job, if Bound(s, c.job.output, c.job.device) then OutputMatches else Finished)
    case ReadDevice(_) => Working(c.job, if Consents(s, c.job.device) then Sending else Finished)
    case EndSend(_) => Working(c.job, Finished)
    case Change(_, _, _) => c
    case Release(_) => Released
    case Leave(_) => Idle
  }

  /** What is in the channel afterwards. */
  function NextTokens(s: State, a: Act): nat
    requires Enabled(s, a)
  {
    match a
    case Receive(_) => s.tokens - 1
    case CheckAgain(p) => if p in s.canceled then s.tokens + 1 else s.tokens
    case Release(p) => if CallerOf(s, p).Released? then s.tokens else s.tokens + 1
    case _ => s.tokens
  }

  function Take(s: State, a: Act): State
    requires Enabled(s, a)
  {
    match a
    case RegisterDevice(d) => s.(consent := s.consent[d := false])
    case AddOutput(o) => s.(outputs := s.outputs[o := []])
    case Cancel(p) => s.(canceled := s.canceled + {p})
    case _ =>
      Moved(s, a.pid, NextCaller(s, a)).(
        tokens := NextTokens(s, a),
        canceled := if a.Arrive? then s.canceled - {a.pid} else s.canceled,
        outputs := if a.Change? then a.outputs else s.outputs,
        consent := if a.Change? then a.consent else s.consent)
  }

  predicate Runs(s: State, acts: seq<Act>)
    decreases |acts|
  {
    acts == [] || (Enabled(s, acts[0]) && Runs(Take(s, acts[0]), acts[1..]))
  }

  function Ran(s: State, acts: seq<Act>): State
    requires Runs(s, acts)
    decreases |acts|
  {
    if acts == [] then s else Ran(Take(s, acts[0]), acts[1..])
  }

  /** `NewDeliveryGate`. */
  predicate Fresh(s: State) {
    s.tokens == 1 && s.callers == map[]
  }

  // -------------------------------------------------------------- one token

  ghost predicate OneToken(s: State) {
    s.tokens + |Holders(s)| == 1
  }

  /** What a scheduled send relies on, from each re-check to its end. */
  predicate Authorized(s: State, c: Caller) {
    match c
    case Working(Deliver(o, d), OutputMatches) => Bound(s, o, d)
    case Working(Deliver(o, d), Sending) => Bound(s, o, d) && Consents(s, d)
    case Working(Mutate, stage) => stage.Begun?
    case _ => true
  }

  ghost predicate AllAuthorized(s: State) {
    forall p: Pid :: Authorized(s, CallerOf(s, p))
  }

  lemma MovedHolders(s: State, p: Pid, c: Caller)
    ensures Holders(Moved(s, p, c)) == if Holds(c) then Holders(s) + {p} else Holders(s) - {p}
    ensures p in Holders(s) <==> Holds(CallerOf(s, p))
    ensures forall q: Pid :: CallerOf(Moved(s, p, c), q) == if q == p then c else CallerOf(s, q)
  {
  }

  lemma OnlyHolder(s: State, p: Pid, q: Pid)
    requires OneToken(s) && Holds(CallerOf(s, p)) && Holds(CallerOf(s, q))
    ensures p == q && s.tokens == 0
  {
    assert p in Holders(s) && q in Holders(s);
    TwoMembers(Holders(s), p, q);
  }

  lemma TwoMembers(h: set<Pid>, p: Pid, q: Pid)
    ensures p in h ==> |h| >= 1
    ensures p in h && q in h && p != q ==> |h| >= 2
  {
    if p in h {
      assert |h - {p}| == |h| - 1;
      if q in h && p != q {
        assert |h - {p} - {q}| == |h| - 2;
      }
    }
  }

  /** A step moves the token between the channel and the acting caller, or not. */
  lemma StepMovesToken(s: State, a: Act)
    requires Enabled(s, a) && !a.RegisterDevice? && !a.AddOutput? && !a.Cancel?
    ensures NextTokens(s, a) + (if Holds(NextCaller(s, a)) then 1 else 0) ==
      s.tokens + (if Holds(CallerOf(s, a.pid)) then 1 else 0)
  {
  }

  lemma StepKeepsToken(s: State, a: Act)
    requires OneToken(s) && Enabled(s, a)
    ensures OneToken(Take(s, a))
  {
    hide Enabled, NextCaller, NextTokens, Holds;
    if a.RegisterDevice? || a.AddOutput? || a.Cancel? {
      assert Holders(Take(s, a)) == Holders(s);
    } else {
      StepMovesToken(s, a);
      MovedHolders(s, a.pid, NextCaller(s, a));
      assert Holders(Take(s, a)) == Holders(Moved(s, a.pid, NextCaller(s, a)));
      MemberCount(Holders(s), a.pid);
    }
  }

  lemma MemberCount(h: set<Pid>, p: Pid)
    ensures |h + {p}| == if p in h then |h| else |h| + 1
    ensures |h - {p}| == if p in h then |h| - 1 else |h|
  {
    if p in h {
      assert h + {p} == h;
    } else {
      assert h - {p} == h;
    }
  }

  lemma StepKeepsAuthority(s: State, a: Act)
    requires OneToken(s) && AllAuthorized(s) && Enabled(s, a)
    ensures AllAuthorized(Take(s, a))
  {
    hide OneToken;
    var s' := Take(s, a);
    forall q: Pid ensures Authorized(s', CallerOf(s', q)) {
      assert Authorized(s, CallerOf(s, q));
      if a.Change? && Holds(CallerOf(s, q)) {
        OnlyHolder(s, a.pid, q);
      }
    }
  }

  lemma {:induction false} RunKeepsGate(s: State, acts: seq<Act>)
    requires OneToken(s) && AllAuthorized(s) && Runs(s, acts)
    ensures OneToken(Ran(s, acts)) && AllAuthorized(Ran(s, acts))
    decreases |acts|
  {
    hide OneToken, AllAuthorized, Enabled, Take;
    if acts != [] {
      StepKeepsToken(s, acts[0]);
      StepKeepsAuthority(s, acts[0]);
      RunKeepsGate(Take(s, acts[0]), acts[1..]);
    }
  }

  /** The gate is exclusive and never loses or duplicates its token, whatever
      callers do: tokens in the channel plus callers that own it are one. */
  lemma GateIsExclusive(s: State, acts: seq<Act>)
    requires Fresh(s) && Runs(s, acts)
    ensures var end := Ran(s, acts);
      && end.tokens + |Holders(end)| == 1
      && (forall p, q :: p in Holders(end) && q in Holders(end) ==> p == q)
  {
    FreshGate(s);
    RunKeepsGate(s, acts);
    var end := Ran(s, acts);
    forall p, q | p in Holders(end) && q in Holders(end) ensures p == q {
      OnlyHolder(end, p, q);
    }
  }

  lemma FreshGate(s: State)
    requires Fresh(s)
    ensures OneToken(s) && AllAuthorized(s)
  {
    assert Holders(s) == {};
    assert forall p: Pid :: CallerOf(s, p) == Idle;
  }

  /** Returning the token never blocks: neither a refused caller nor a release ever
      finds the channel full. */
  lemma ReturningNeverBlocks(s: State, acts: seq<Act>, p: Pid)
    requires Fresh(s) && Runs(s, acts)
    ensures var end := Ran(s, acts);
      && (CallerOf(end, p).Taken? ==> Enabled(end, CheckAgain(p)))
      && (CallerOf(end, p).Working? && !CallerOf(end, p).stage.Sending? ==> Enabled(end, Release(p)))
  {
    FreshGate(s);
    RunKeepsGate(s, acts);
    if Holds(CallerOf(Ran(s, acts), p)) {
      OnlyHolder(Ran(s, acts), p, p);
    }
  }

  /** At every moment of every scheduled send, the stored output is bound to the
      device it is sent to, and that device is opted in. */
  lemma SendsStayAuthorized(s: State, acts: seq<Act>, p: Pid)
    requires Fresh(s) && Runs(s, acts)
    requires var c := CallerOf(Ran(s, acts), p); c.Working? && c.job.Deliver? && c.stage.Sending?
    ensures var end := Ran(s, acts);
      var job := CallerOf(end, p).job;
      && job.output in end.outputs && end.outputs[job.output] == job.device
      && job.device in end.consent && end.consent[job.device]
  {
    FreshGate(s);
    RunKeepsGate(s, acts);
    assert Authorized(Ran(s, acts), CallerOf(Ran(s, acts), p));
  }

  // -------------------------------------------------------------- progress

  lemma RunsMore(s: State, acts: seq<Act>, a: Act)
    requires Runs(s, acts) && Enabled(Ran(s, acts), a)
    ensures Runs(s, acts + [a]) && Ran(s, acts + [a]) == Take(Ran(s, acts), a)
    decreases |acts|
  {
    hide Enabled, Take;
    if acts == [] {
      assert [a][1..] == [];
      assert acts + [a] == [a];
    } else {
      assert (acts + [a])[1..] == acts[1..] + [a];
      RunsMore(Take(s, acts[0]), acts[1..], a);
    }
  }

  /** A caller that nobody cancels gets the token when it is free. */
  lemma FreeTokenIsTaken(s: State, p: Pid, job: Job) returns (acts: seq<Act>)
    requires s.tokens == CAPACITY && CallerOf(s, p).Idle?
    ensures Runs(s, acts)
    ensures var end := Ran(s, acts);
      && CallerOf(end, p) == Working(job, Begun) && end.tokens == 0 && p !in end.canceled
      && end.outputs == s.outputs && end.consent == s.consent
  {
    hide Runs, Ran;
    NoSteps(s);
    acts := [];
    RunsMore(s, acts, Arrive(p, job));
    acts := acts + [Arrive(p, job)];
    RunsMore(s, acts, CheckFirst(p));
    acts := acts + [CheckFirst(p)];
    RunsMore(s, acts, Receive(p));
    acts := acts + [Receive(p)];
    RunsMore(s, acts, CheckAgain(p));
    acts := acts + [CheckAgain(p)];
  }

  lemma NoSteps(s: State)
    ensures Runs(s, []) && Ran(s, []) == s
  {
  }

  /** A scheduled send whose output is bound to the device and whose device is opted in
      is made, and the gate is free again afterwards. */
  lemma AuthorizedSendIsMade(s: State, p: Pid, o: Str, d: Str) returns (sending: seq<Act>, done: seq<Act>)
    requires s.tokens == CAPACITY && CallerOf(s, p).Idle?
    requires o in s.outputs && s.outputs[o] == d && d in s.consent && s.consent[d]
    ensures Runs(s, sending) && CallerOf(Ran(s, sending), p) == Working(Deliver(o, d), Sending)
    ensures Runs(s, done)
    ensures var end := Ran(s, done);
      && CallerOf(end, p).Idle? && end.tokens == CAPACITY && end.outputs == s.outputs && end.consent == s.consent
  {
    hide Runs, Ran;
    sending := FreeTokenIsTaken(s, p, Deliver(o, d));
    RunsMore(s, sending, ReadOutput(p));
    sending := sending + [ReadOutput(p)];
    RunsMore(s, sending, ReadDevice(p));
    sending := sending + [ReadDevice(p)];
    RunsMore(s, sending, EndSend(p));
    done := sending + [EndSend(p)];
    RunsMore(s, done, Release(p));
    done := done + [Release(p)];
    RunsMore(s, done, Leave(p));
    done := done + [Leave(p)];
  }

  /** One that is not is never made: the re-check ends it. */
  lemma UnauthorizedSendIsNot(s: State, p: Pid, o: Str, d: Str)
    ensures CallerOf(s, p) == Working(Deliver(o, d), Begun) && !(o in s.outputs && s.outputs[o] == d) ==>
      Enabled(s, ReadOutput(p)) && CallerOf(Take(s, ReadOutput(p)), p) == Working(Deliver(o, d), Finished)
    ensures CallerOf(s, p) == Working(Deliver(o, d), OutputMatches) && !(d in s.consent && s.consent[d]) ==>
      Enabled(s, ReadDevice(p)) && CallerOf(Take(s, ReadDevice(p)), p) == Working(Deliver(o, d), Finished)
  {
  }

  /** A new device has not consented to anything, and a new output is bound to no device
      that exists. */
  lemma NewcomersAuthorizeNothing(s: State, o: Str, d: Str)
    ensures Enabled(s, RegisterDevice(d)) ==> !Consents(Take(s, RegisterDevice(d)), d)
    ensures Enabled(s, AddOutput(o)) && d != [] ==> !Bound(Take(s, AddOutput(o)), o, d)
  {
  }

  /** Whoever holds the gate may change bindings and consent to anything. */
  lemma ChangesAreMade(s: State, p: Pid, outputs: map<Str, Str>, consent: map<Str, bool>) returns (acts: seq<Act>)
    requires s.tokens == CAPACITY && CallerOf(s, p).Idle?
    ensures Runs(s, acts)
    ensures var end := Ran(s, acts);
      CallerOf(end, p).Idle? && end.tokens == CAPACITY && end.outputs == outputs && end.consent == consent
  {
    hide Runs, Ran;
    acts := FreeTokenIsTaken(s, p, Mutate);
    RunsMore(s, acts, Change(p, outputs, consent));
    acts := acts + [Change(p, outputs, consent)];
    RunsMore(s, acts, Release(p));
    acts := acts + [Release(p)];
    RunsMore(s, acts, Leave(p));
    acts := acts + [Leave(p)];
  }

  /** Everybody may be canceled at any time, which takes nothing from anybody. A canceled
      caller leaves without the token, at whichever check it is seen. */
  lemma CanceledCallersLeave(s: State, p: Pid)
    ensures Enabled(s, Cancel(p)) && Take(s, Cancel(p)) == s.(canceled := s.canceled + {p})
    ensures p in s.canceled && CallerOf(s, p).Arrived? ==>
      Enabled(s, CheckFirst(p)) && CallerOf(Take(s, CheckFirst(p)), p).Idle?
    ensures p in s.canceled && CallerOf(s, p).Waiting? ==>
      Enabled(s, SeeDone(p)) && CallerOf(Take(s, SeeDone(p)), p).Idle?
    ensures p in s.canceled && CallerOf(s, p).Taken? && s.tokens == 0 ==>
      Enabled(s, CheckAgain(p)) && CallerOf(Take(s, CheckAgain(p)), p).Idle? && Take(s, CheckAgain(p)).tokens == 1
  {
  }
}
