/** The guarded proxy of a discovery session: what it counts, reserves and reports.
    Every locked method is one atomic section of the source. How concurrent requests
    call them is in DiscoveryRequests. internal/discovery/proxy.go. */
module DiscoveryProxy {
  import opened Sorting
  import opened Text
  import opened Wrappers

  datatype Reason =
    | LocalDestination
    | Plaintext
    | Unresolvable
    | RequestLimit
    | HostLimit
    | ByteLimit
    | InvalidHost
    | Background

  // `background` holds the hosts the browser contacts on its own account,
  // `components` the known components, strongest first.
  datatype Limits = Limits(requests: nat, hosts: nat, bytes: nat, background: set<Str>, components: seq<Str>)

  // The exploration step that is running, and what was attributed to whom.
  datatype Trail = Trail(step: Str, component: Str, document: Str,
    steps: map<Str, set<Str>>, strongest: map<Str, Str>, loaders: map<Str, set<Str>>)

  // Everything the proxy remembers.
  datatype Table = Table(hosts: map<Str, nat>, pending: map<Str, nat>, blocked: map<Str, Reason>,
    omitted: nat, requests: nat, bytes: nat, trail: Trail)

  datatype HostEvidence = HostEvidence(host: Str, component: Str, steps: seq<Str>, loadedBy: seq<Str>,
    requests: nat, refused: Option<Reason>)

  datatype Session = Session(steps: seq<Str>, hosts: seq<HostEvidence>, requests: nat, bytes: nat, omitted: nat)

  const MAX_REFUSED_HOST_LENGTH := 253

  const NO_TRAIL := Trail([], [], [], map[], map[], map[])

  const EMPTY := Table(map[], map[], map[], 0, 0, 0, NO_TRAIL)

  function CountOf(m: map<Str, nat>, h: Str): nat {
    if h in m then m[h] else 0
  }

  function SetOf(m: map<Str, set<Str>>, h: Str): set<Str> {
    if h in m then m[h] else {}
  }

  function TextOf(m: map<Str, Str>, h: Str): Str {
    if h in m then m[h] else []
  }

  /** Go's `delete`. */
  function Without<V>(m: map<Str, V>, h: Str): (r: map<Str, V>)
    ensures |r| == if h in m then |m| - 1 else |m|
    ensures forall k :: k in r <==> k in m && k != h
    ensures forall k :: k in r ==> r[k] == m[k]
  {
    var r := map k | k in m && k != h :: m[k];
    assert r.Keys == m.Keys - {h};
    assert h !in m ==> m.Keys - {h} == m.Keys;
    r
  }

  // -------------------------------------------------------------- the atomic sections

  predicate Nameable(h: Str) {
    0 < |h| <= MAX_REFUSED_HOST_LENGTH
  }

  /** A refusal: the first reason for each host, as long as there is room. */
  function WithRefusal(t: Table, l: Limits, h: Str, reason: Reason): Table {
    if !Nameable(h) || (h !in t.blocked && |t.blocked| >= l.requests) then t.(omitted := t.omitted + 1)
    else if h in t.blocked then t
    else t.(blocked := t.blocked[h := reason])
  }

  predicate Crowded(t: Table, l: Limits, h: Str) {
    h !in t.hosts && CountOf(t.pending, h) == 0 && |t.hosts| + |t.pending| >= l.hosts
  }

  /** An admission: a host that is neither known nor being tried needs room. */
  function WithAttempt(t: Table, l: Limits, h: Str): Table {
    if Crowded(t, l, h) then WithRefusal(t, l, h, HostLimit)
    else if h in t.hosts then t
    else t.(pending := t.pending[h := CountOf(t.pending, h) + 1])
  }

  function WithoutAttempt(t: Table, h: Str): Table {
    if CountOf(t.pending, h) <= 1 then t.(pending := Without(t.pending, h))
    else t.(pending := t.pending[h := t.pending[h] - 1])
  }

  /** `strongerComponent`. */
  function Stronger(known: seq<Str>, a: Str, b: Str): Str {
    if a == b then a
    else if known == [] then if a != [] then a else b
    else if known[0] == a then a
    else if known[0] == b then b
    else Stronger(known[1..], a, b)
  }

  /** The component that is known first is the stronger one, whichever comes second. */
  lemma {:induction false} KnownFirstIsStronger(known: seq<Str>, i: nat, b: Str)
    requires i < |known| && b !in known[..i + 1]
    ensures Stronger(known, known[i], b) == known[i] == Stronger(known, b, known[i])
  {
    assert known[..i + 1][0] == known[0] && known[..i + 1][i] == known[i];
    if known[0] != known[i] {
      assert known[1..][..i] == known[..i + 1][1..];
      KnownFirstIsStronger(known[1..], i - 1, b);
    }
  }

  /** Of two that are not known the one that was there stays, unless there was none. */
  lemma {:induction false} UnknownStays(known: seq<Str>, a: Str, b: Str)
    requires a !in known && b !in known
    ensures Stronger(known, a, b) == if a != [] then a else b
  {
    if a != b && known != [] {
      UnknownStays(known[1..], a, b);
    }
  }

  /** The running step is recorded, and the stronger of two components. */
  function Stepped(r: Trail, l: Limits, h: Str): Trail {
    if r.step == [] then r
    else r.(
      steps := r.steps[h := SetOf(r.steps, h) + {r.step}],
      strongest := r.strongest[h := Stronger(l.components, TextOf(r.strongest, h), r.component)])
  }

  /** And the document that was loading, unless it is the host itself. */
  function Loaded(r: Trail, h: Str): Trail {
    if r.document == [] || r.document == h then r
    else r.(loaders := r.loaders[h := SetOf(r.loaders, h) + {r.document}])
  }

  /** A contact: the reservation becomes a contacted host. */
  function WithContact(t: Table, l: Limits, h: Str): Table {
    t.(hosts := t.hosts[h := CountOf(t.hosts, h) + 1], pending := Without(t.pending, h),
      blocked := Without(t.blocked, h), trail := Loaded(Stepped(t.trail, l, h), h))
  }

  function WithStep(t: Table, step: Str, component: Str, document: Str): Table {
    t.(trail := t.trail.(step := step, component := component,
      document := if document != [] then document else t.trail.document))
  }

  /** `attempt`, as far as no other request comes between its two sections. */
  function Attempted(t: Table, l: Limits, h: Str): (Table, Option<Reason>) {
    if h in l.background then (WithRefusal(t, l, h, Background), Some(Background))
    else
      var counted := t.(requests := t.requests + 1);
      if counted.requests > l.requests then (WithRefusal(counted, l, h, RequestLimit), Some(RequestLimit))
      else (WithAttempt(counted, l, h), if Crowded(counted, l, h) then Some(HostLimit) else None)
  }

  // -------------------------------------------------------------- the reservation

  /** Contacted hosts and reservations are apart, together within the bound, and a
      reservation counts exactly the attempts in flight for a host not yet
      contacted. */
  ghost predicate Reserved(t: Table, inFlight: multiset<Str>, room: nat) {
    && (forall h :: h in t.hosts ==> h !in t.pending && t.hosts[h] > 0)
    && (forall h :: h in t.pending ==> t.pending[h] > 0)
    && (forall h :: h !in t.hosts ==> CountOf(t.pending, h) == inFlight[h])
    && |t.hosts| + |t.pending| <= room
  }

  lemma SizeWith<V>(m: map<Str, V>, h: Str, v: V)
    ensures |m[h := v]| == if h in m then |m| else |m| + 1
  {
    assert m[h := v].Keys == m.Keys + {h};
    if h in m {
      assert m.Keys + {h} == m.Keys;
    }
  }

  lemma RefusalFrame(t: Table, l: Limits, h: Str, reason: Reason)
    ensures var r := WithRefusal(t, l, h, reason);
      r == t.(blocked := r.blocked, omitted := r.omitted)
  {
  }

  lemma ContactKeepsRoom(t: Table, l: Limits, inFlight: multiset<Str>, h: Str)
    requires Reserved(t, inFlight, l.hosts) && h in inFlight
    ensures Reserved(WithContact(t, l, h), inFlight, l.hosts)
  {
    hide Without, Stepped, Loaded;
    SizeWith(t.hosts, h, CountOf(t.hosts, h) + 1);
    assert h in t.hosts || CountOf(t.pending, h) > 0;
  }

  lemma AttemptKeepsRoom(t: Table, l: Limits, inFlight: multiset<Str>, h: Str)
    requires Reserved(t, inFlight, l.hosts)
    ensures Reserved(WithAttempt(t, l, h), if Crowded(t, l, h) then inFlight else inFlight + multiset{h}, l.hosts)
  {
    hide WithRefusal;
    RefusalFrame(t, l, h, HostLimit);
    SizeWith(t.pending, h, CountOf(t.pending, h) + 1);
  }

  lemma ReleaseKeepsRoom(t: Table, l: Limits, inFlight: multiset<Str>, h: Str)
    requires Reserved(t, inFlight, l.hosts) && h in inFlight
    ensures Reserved(WithoutAttempt(t, h), inFlight - multiset{h}, l.hosts)
  {
    hide Without;
    if h in t.pending && t.pending[h] > 1 {
      SizeWith(t.pending, h, t.pending[h] - 1);
    }
  }

  // -------------------------------------------------------------- contacted and refused

  /** Hosts that both answers of `observed` hold. */
  function Both(t: Table): set<Str> {
    t.hosts.Keys * t.blocked.Keys
  }

  /** This refusal would be remembered although it is not yet. */
  predicate Fits(t: Table, l: Limits, h: Str) {
    Nameable(h) && h !in t.blocked && |t.blocked| < l.requests
  }

  /** A refusal is remembered exactly when it was, or has a usable name and room;
      otherwise it is counted. It puts a contacted host into both answers exactly
      when it is remembered for one. */
  lemma RefusedExactly(t: Table, l: Limits, h: Str, reason: Reason)
    ensures var r := WithRefusal(t, l, h, reason);
      && (h in r.blocked <==> h in t.blocked || Fits(t, l, h))
      && (forall x :: x != h ==> (x in r.blocked <==> x in t.blocked))
      && (forall x :: x in t.blocked ==> x in r.blocked && r.blocked[x] == t.blocked[x])
      && (Fits(t, l, h) ==> r.blocked[h] == reason)
      && (0 < |h| <= MAX_REFUSED_HOST_LENGTH && (h in t.blocked || |t.blocked| < l.requests) ==> h in r.blocked)
      && Both(r) == Both(t) + (if h in t.hosts && Fits(t, l, h) then {h} else {})
      && (Nameable(h) ==> r.omitted == t.omitted + if h in r.blocked then 0 else 1)
  {
  }

  lemma RefusalStaysBounded(t: Table, l: Limits, h: Str, reason: Reason)
    requires |t.blocked| <= l.requests
    ensures |WithRefusal(t, l, h, reason).blocked| <= l.requests
  {
    SizeWith(t.blocked, h, reason);
  }

  /** Admission never confuses the two answers, and a contact clears up its host. */
  lemma BothAfter(t: Table, l: Limits, h: Str)
    ensures Both(WithAttempt(t, l, h)) == Both(t)
    ensures Both(WithContact(t, l, h)) == Both(t) - {h}
    ensures Both(WithoutAttempt(t, h)) == Both(t)
  {
    hide Without, Stepped, Loaded;
  }

  // -------------------------------------------------------------- attribution

  /** Steps, components and loaders are recorded for contacted hosts only; a host
      with a component was contacted during some step, and no host loaded itself. */
  ghost predicate WellAttributed(r: Trail, contacted: set<Str>) {
    && r.steps.Keys == r.strongest.Keys <= contacted
    && r.loaders.Keys <= contacted
    && (forall h :: h in r.steps ==> r.steps[h] != {} && [] !in r.steps[h])
    && (forall h :: h in r.loaders ==> h !in r.loaders[h] && [] !in r.loaders[h])
  }

  lemma SteppedWell(r: Trail, l: Limits, h: Str, contacted: set<Str>)
    requires WellAttributed(r, contacted)
    ensures WellAttributed(Stepped(r, l, h), contacted + {h})
  {
    hide Stronger;
    var s := Stepped(r, l, h);
    assert s == r || (s.steps.Keys == r.steps.Keys + {h} && s.strongest.Keys == r.strongest.Keys + {h});
  }

  lemma LoadedWell(r: Trail, h: Str, contacted: set<Str>)
    requires WellAttributed(r, contacted) && h in contacted
    ensures WellAttributed(Loaded(r, h), contacted)
  {
    var s := Loaded(r, h);
    assert s == r || s.loaders.Keys == r.loaders.Keys + {h};
  }

  lemma ContactIsAttributed(t: Table, l: Limits, h: Str)
    requires WellAttributed(t.trail, t.hosts.Keys)
    ensures WellAttributed(WithContact(t, l, h).trail, WithContact(t, l, h).hosts.Keys)
  {
    hide Without, Stepped, Loaded, WellAttributed;
    assert WithContact(t, l, h).hosts.Keys == t.hosts.Keys + {h};
    SteppedWell(t.trail, l, h, t.hosts.Keys);
    LoadedWell(Stepped(t.trail, l, h), h, t.hosts.Keys + {h});
  }

  // -------------------------------------------------------------- sorted answers

  ghost predicate Sorts(s: seq<Str>, x: set<Str>) {
    Text.Increasing(s) && Elements(s) == x
  }

  /** `slices.Sorted(maps.Keys(m))`. */
  method SortedKeys(x: set<Str>) returns (r: seq<Str>)
    ensures Sorts(r, x)
  {
    var keys: seq<Str> := [];
    var rest := x;
    while rest != {}
      invariant rest <= x && Elements(keys) == x - rest
      decreases |rest|
    {
      var k :| k in rest;
      assert Elements(keys + [k]) == Elements(keys) + {k};
      keys := keys + [k];
      rest := rest - {k};
    }
    StableSorts(keys);
    r := Stable(keys);
  }

  /** Every step during which one of the hosts appeared. */
  ghost function StepsOf(t: Table, hosts: set<Str>): set<Str> {
    set h, s | h in hosts && s in SetOf(t.trail.steps, h) :: s
  }

  lemma OneMoreHost(t: Table, hosts: set<Str>, h: Str)
    ensures StepsOf(t, hosts + {h}) == StepsOf(t, hosts) + SetOf(t.trail.steps, h)
  {
  }

  /** What is reported about a host: that it was contacted, or else that it was
      refused. */
  ghost predicate Shows(t: Table, e: HostEvidence) {
    if e.host in t.hosts then
      && e.component == TextOf(t.trail.strongest, e.host)
      && Sorts(e.steps, SetOf(t.trail.steps, e.host)) && Sorts(e.loadedBy, SetOf(t.trail.loaders, e.host))
      && e.requests == t.hosts[e.host] && e.refused == None
    else
      e.host in t.blocked && e == HostEvidence(e.host, [], [], [], 0, Some(t.blocked[e.host]))
  }

  lemma ShownOnce(t: Table, d: HostEvidence, e: HostEvidence)
    requires Shows(t, d) && Shows(t, e) && d.host == e.host
    ensures d == e
  {
    hide Text.Increasing;
    if d.host in t.hosts {
      IncreasingUnique(d.steps, e.steps);
      IncreasingUnique(d.loadedBy, e.loadedBy);
    }
  }

  predicate DistinctHosts(s: seq<HostEvidence>) {
    forall i, j :: 0 <= i < j < |s| ==> s[i].host != s[j].host
  }

  /** `collected` reports exactly the hosts in `done`. */
  ghost predicate Collects(t: Table, collected: seq<HostEvidence>, done: set<Str>) {
    && DistinctHosts(collected)
    && (forall e :: e in collected <==> e.host in done && Shows(t, e))
  }

  lemma CollectsMore(t: Table, collected: seq<HostEvidence>, done: set<Str>, e: HostEvidence)
    requires Collects(t, collected, done) && e.host !in done && Shows(t, e)
    ensures Collects(t, collected + [e], done + {e.host})
  {
    hide Shows;
    forall d: HostEvidence | d.host == e.host && Shows(t, d) ensures d == e {
      ShownOnce(t, d, e);
    }
    forall d: HostEvidence ensures d in collected + [e] <==> d.host in done + {e.host} && Shows(t, d) {
    }
    assert forall d: HostEvidence :: d in collected ==> d.host in done;
  }

  lemma RefusedShows(t: Table, h: Str)
    requires h in t.blocked && h !in t.hosts
    ensures Shows(t, HostEvidence(h, [], [], [], 0, Some(t.blocked[h])))
  {
  }

  lemma NothingCollected(t: Table)
    ensures Collects(t, [], {}) && StepsOf(t, {}) == {}
  {
  }

  lemma CollectsEverything(t: Table, collected: seq<HostEvidence>)
    requires Collects(t, collected, t.hosts.Keys + t.blocked.Keys)
    ensures forall e :: e in collected <==> Shows(t, e)
    ensures DistinctHosts(collected)
  {
  }

  class GuardedProxy {
    const limits: Limits

    var bytes: nat
    var requests: nat
    var omittedRefusals: nat
    var hosts: map<Str, nat>
    var pending: map<Str, nat>
    var blocked: map<Str, Reason>
    var trail: Trail

    ghost function Now(): Table
      reads this
    {
      Table(hosts, pending, blocked, omittedRefusals, requests, bytes, trail)
    }

    constructor (limits: Limits)
      ensures this.limits == limits && Now() == EMPTY
    {
      this.limits := limits;
      bytes, requests, omittedRefusals := 0, 0, 0;
      hosts, pending, blocked, trail := map[], map[], map[], NO_TRAIL;
    }

    /** `beginStep`. */
    method BeginStep(step: Str, component: Str, document: Str)
      modifies this`trail
      ensures Now() == WithStep(old(Now()), step, component, document)
    {
      trail := trail.(step := step, component := component);
      if document != [] {
        trail := trail.(document := document);
      }
    }

    /** `refuseLocked`: at most `limits.requests` hosts are remembered, the first
        reason for each; any other refusal is counted. */
    method RefuseLocked(host: Str, reason: Reason)
      modifies this`blocked, this`omittedRefusals
      ensures Now() == WithRefusal(old(Now()), limits, host, reason)
      ensures host in blocked <==> host in old(blocked) || (Nameable(host) && |old(blocked)| < limits.requests)
      ensures hosts.Keys !! old(blocked).Keys ==>
        (hosts.Keys !! blocked.Keys <==> !(host in hosts && Nameable(host) && |old(blocked)| < limits.requests))
    {
      if host == [] || |host| > MAX_REFUSED_HOST_LENGTH {
        omittedRefusals := omittedRefusals + 1;
        return;
      }
      if host in blocked {
        return;
      }
      if |blocked| >= limits.requests {
        omittedRefusals := omittedRefusals + 1;
        return;
      }
      blocked := blocked[host := reason];
    }

    /** The atomic add of `attempt`. */
    method CountRequest() returns (ok: bool)
      modifies this`requests
      ensures requests == old(requests) + 1
      ensures ok <==> requests <= limits.requests
    {
      requests := requests + 1;
      ok := requests <= limits.requests;
    }

    /** The locked part of `attempt`: a new host needs room, a host that is known or
        already being tried does not. */
    method Admit(host: Str) returns (refused: Option<Reason>)
      modifies this`pending, this`blocked, this`omittedRefusals
      ensures Now() == WithAttempt(old(Now()), limits, host)
      ensures refused == if Crowded(old(Now()), limits, host) then Some(HostLimit) else None
      ensures hosts.Keys * blocked.Keys == hosts.Keys * old(blocked).Keys
    {
      BothAfter(Now(), limits, host);
      if host !in hosts {
        if CountOf(pending, host) == 0 && |hosts| + |pending| >= limits.hosts {
          RefuseLocked(host, HostLimit);
          return Some(HostLimit);
        }
        pending := pending[host := CountOf(pending, host) + 1];
      }
      return None;
    }

    /** `attempt`. */
    method Attempt(host: Str) returns (refused: Option<Reason>)
      modifies this`requests, this`pending, this`blocked, this`omittedRefusals
      ensures (Now(), refused) == Attempted(old(Now()), limits, host)
    {
      if host in limits.background {
        RefuseLocked(host, Background);
        return Some(Background);
      }
      var counted := CountRequest();
      if !counted {
        RefuseLocked(host, RequestLimit);
        return Some(RequestLimit);
      }
      refused := Admit(host);
    }

    /** `connected`: the reservation becomes a contacted host, attributed to the step
        and the document of the moment. */
    method Connected(host: Str)
      modifies this`hosts, this`pending, this`blocked, this`trail
      ensures Now() == WithContact(old(Now()), limits, host)
      ensures hosts.Keys * blocked.Keys == old(hosts.Keys * blocked.Keys) - {host}
    {
      hide Without, Stepped, Loaded;
      BothAfter(Now(), limits, host);
      hosts := hosts[host := CountOf(hosts, host) + 1];
      pending := Without(pending, host);
      blocked := Without(blocked, host);
      RecordStep(host);
      RecordLoader(host);
    }

    method RecordStep(host: Str)
      modifies this`trail
      ensures trail == Stepped(old(trail), limits, host)
    {
      hide Stronger;
      if trail.step != [] {
        var during := if host in trail.steps then trail.steps[host] else {};
        var stronger := Stronger(limits.components, TextOf(trail.strongest, host), trail.component);
        trail := trail.(steps := trail.steps[host := during + {trail.step}]);
        trail := trail.(strongest := trail.strongest[host := stronger]);
      }
    }

    method RecordLoader(host: Str)
      modifies this`trail
      ensures trail == Loaded(old(trail), host)
    {
      if trail.document != [] && trail.document != host {
        var loaders := if host in trail.loaders then trail.loaders[host] else {};
        trail := trail.(loaders := trail.loaders[host := loaders + {trail.document}]);
      }
    }

    /** `releaseAttempt`. */
    method ReleaseAttempt(host: Str)
      modifies this`pending
      ensures Now() == WithoutAttempt(old(Now()), host)
    {
      if CountOf(pending, host) <= 1 {
        pending := Without(pending, host);
      } else {
        pending := pending[host := pending[host] - 1];
      }
    }

    /** One read of a tunnel is counted before it may be written. */
    method CountBytes(read: nat) returns (ok: bool)
      modifies this`bytes
      ensures bytes == old(bytes) + read
      ensures ok <==> bytes <= limits.bytes
    {
      bytes := bytes + read;
      ok := bytes <= limits.bytes;
    }

    /** `observed`. Nothing keeps its two answers apart. */
    method Observed() returns (contacted: seq<Str>, refused: map<Str, Reason>)
      ensures Sorts(contacted, hosts.Keys) && refused == blocked
      ensures Elements(contacted) * refused.Keys == Both(Now())
    {
      contacted := SortedKeys(hosts.Keys);
      refused := blocked;
    }

    /** `evidence`: every contacted host as contacted, every other refused host as
        refused, each once and in order, and the totals of the session. */
    method Evidence() returns (r: Session)
      ensures forall e :: e in r.hosts <==> Shows(Now(), e)
      ensures forall i, j :: 0 <= i < j < |r.hosts| ==> Less(r.hosts[i].host, r.hosts[j].host)
      ensures Sorts(r.steps, StepsOf(Now(), hosts.Keys))
      ensures r.requests == requests && r.bytes == bytes && r.omitted == omittedRefusals
    {
      hide Less, Sorts, Shows, Collects;
      var contacted, steps := ContactedEvidence();
      var collected := RefusedEvidence(contacted);
      CollectsEverything(Now(), collected);
      var sorted := OrderedEvidence(collected);
      var ordered := SortedKeys(steps);
      r := Session(ordered, sorted, requests, bytes, omittedRefusals);
    }

    /** The first loop of `evidence`. */
    method ContactedEvidence() returns (collected: seq<HostEvidence>, steps: set<Str>)
      ensures Collects(Now(), collected, hosts.Keys) && steps == StepsOf(Now(), hosts.Keys)
    {
      hide Text.Increasing, Collects, StepsOf, SetOf;
      collected, steps := [], {};
      var rest := hosts.Keys;
      NothingCollected(Now());
      assert hosts.Keys - rest == {};
      while rest != {}
        invariant rest <= hosts.Keys && Collects(Now(), collected, hosts.Keys - rest)
        invariant steps == StepsOf(Now(), hosts.Keys - rest)
        decreases |rest|
      {
        var h :| h in rest;
        var during := SortedKeys(SetOf(trail.steps, h));
        var loadedBy := SortedKeys(SetOf(trail.loaders, h));
        var e := HostEvidence(h, TextOf(trail.strongest, h), during, loadedBy, hosts[h], None);
        CollectsMore(Now(), collected, hosts.Keys - rest, e);
        OneMoreHost(Now(), hosts.Keys - rest, h);
        collected := collected + [e];
        steps := steps + SetOf(trail.steps, h);
        assert hosts.Keys - (rest - {h}) == hosts.Keys - rest + {h};
        rest := rest - {h};
      }
      assert hosts.Keys - rest == hosts.Keys;
    }

    /** The second loop of `evidence`. */
    method RefusedEvidence(contacted: seq<HostEvidence>) returns (collected: seq<HostEvidence>)
      requires Collects(Now(), contacted, hosts.Keys)
      ensures Collects(Now(), collected, hosts.Keys + blocked.Keys)
    {
      hide Collects;
      collected := contacted;
      var rest := blocked.Keys;
      assert hosts.Keys + (blocked.Keys - rest) == hosts.Keys;
      while rest != {}
        invariant rest <= blocked.Keys && Collects(Now(), collected, hosts.Keys + (blocked.Keys - rest))
        decreases |rest|
      {
        var h :| h in rest;
        assert hosts.Keys + (blocked.Keys - (rest - {h})) == hosts.Keys + (blocked.Keys - rest) + {h};
        collected := WithRefused(collected, hosts.Keys + (blocked.Keys - rest), h);
        rest := rest - {h};
      }
      assert blocked.Keys - rest == blocked.Keys;
    }

    method WithRefused(collected: seq<HostEvidence>, ghost done: set<Str>, h: Str) returns (more: seq<HostEvidence>)
      requires Collects(Now(), collected, done) && h in blocked && (h in done <==> h in hosts)
      ensures Collects(Now(), more, done + {h})
    {
      hide Collects, Shows;
      if h in hosts {
        assert done + {h} == done;
        return collected;
      }
      var e := HostEvidence(h, [], [], [], 0, Some(blocked[h]));
      RefusedShows(Now(), h);
      CollectsMore(Now(), collected, done, e);
      return collected + [e];
    }
  }

  method OrderedEvidence(collected: seq<HostEvidence>) returns (sorted: seq<HostEvidence>)
    requires DistinctHosts(collected)
    ensures forall e :: e in sorted <==> e in collected
    ensures forall i, j :: 0 <= i < j < |sorted| ==> Less(sorted[i].host, sorted[j].host)
  {
    hide Less;
    LessIsStrict();
    ghost var perm;
    sorted, perm := SortFunc(collected, (a: HostEvidence, b: HostEvidence) => Less(a.host, b.host));
    RearrangedMembers(perm, sorted, collected);
    forall i, j | 0 <= i < j < |sorted| ensures Less(sorted[i].host, sorted[j].host) {
      LessTotal(sorted[i].host, sorted[j].host);
    }
  }

  /** A visit that puts a host into both answers: it was contacted before, the request
      and refusal budgets are not spent, and this time its name does not resolve. */
  method FailedReturnVisit(p: GuardedProxy, host: Str)
    requires host in p.hosts && host !in p.limits.background && Nameable(host)
    requires p.requests < p.limits.requests && |p.blocked| < p.limits.requests
    modifies p
    ensures host in p.hosts && host in p.blocked && p.requests == old(p.requests) + 1
    ensures p.hosts == old(p.hosts) && (host !in old(p.pending) ==> p.pending == old(p.pending))
  {
    hide Without;
    var refused := p.Attempt(host);
    p.RefuseLocked(host, Unresolvable);
    p.ReleaseAttempt(host);
  }
}
