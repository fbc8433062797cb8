/** What a list's latest read brought and dropped, computed from two stamps per
    value instead of the history of reads. internal/application/list_freshness.go;
    the stamps are kept by internal/infrastructure/sqlite/observations.go. */
module ListFreshness {
  import opened Text

  type Time = nat

  // A source at one declared revision; another revision is another history.
  datatype Source = Source(id: Str, revision: Str)

  // A value as one source reports it under one of its components.
  datatype Sight = Sight(source: Source, component: Str, value: Str)

  /** One refresh reads sources at one time. Only successful reads are here: a
      failed one stamps nothing. */
  datatype Refresh = Refresh(time: Time, read: set<Source>, sights: set<Sight>)

  datatype Stamp = Stamp(first: Time, last: Time)

  // The last and the one before last successful read; 0 is none.
  datatype Health = Health(last: Time, previous: Time)

  // -------------------------------------------------------------- the store

  function Min(a: Time, b: Time): Time {
    if a < b then a else b
  }

  function Max(a: Time, b: Time): Time {
    if a < b then b else a
  }

  /** The upsert of a refresh: earliest first-seen, latest last-seen. */
  function Stamped(m: map<Sight, Stamp>, r: Refresh): map<Sight, Stamp> {
    map s | s in m.Keys + r.sights ::
      if s !in r.sights then m[s]
      else if s in m then Stamp(Min(m[s].first, r.time), Max(m[s].last, r.time))
      else Stamp(r.time, r.time)
  }

  function Ran(m: map<Source, Health>, r: Refresh): map<Source, Health> {
    map s | s in m.Keys + r.read ::
      if s !in r.read then m[s] else if s in m then Health(r.time, m[s].last) else Health(r.time, 0)
  }

  function Stamps(h: seq<Refresh>): map<Sight, Stamp> {
    if h == [] then map[] else Stamped(Stamps(h[..|h| - 1]), h[|h| - 1])
  }

  function Healths(h: seq<Refresh>): map<Source, Health> {
    if h == [] then map[] else Ran(Healths(h[..|h| - 1]), h[|h| - 1])
  }

  /** Refreshes come at strictly increasing times after the zero time, and a source
      reports only when it was read. */
  predicate History(h: seq<Refresh>) {
    && (forall i :: 0 <= i < |h| ==> h[i].time > 0 && forall s :: s in h[i].sights ==> s.source in h[i].read)
    && forall i, j :: 0 <= i < j < |h| ==> h[i].time < h[j].time
  }

  // -------------------------------------------------------------- full history

  /** Index of the last refresh that read one of the sources; -1 is none. */
  function LastRead(h: seq<Refresh>, sources: set<Source>): int {
    if h == [] then -1
    else if h[|h| - 1].read * sources != {} then |h| - 1
    else LastRead(h[..|h| - 1], sources)
  }

  ghost function ReportedBy(h: seq<Refresh>, i: int, sources: set<Source>): set<Str>
    requires 0 <= i < |h|
  {
    set s | s in h[i].sights && s.source in sources :: s.value
  }

  ghost predicate EverBefore(h: seq<Refresh>, n: int, sources: set<Source>, v: Str)
    requires n <= |h|
  {
    exists i :: 0 <= i < n && v in ReportedBy(h, i, sources)
  }

  /** First reported by an enabled source at the latest read. */
  ghost function AddedIn(h: seq<Refresh>, sources: set<Source>): set<Str> {
    var n := LastRead(h, sources);
    if !(0 <= n < |h|) then {} else set v | v in ReportedBy(h, n, sources) && !EverBefore(h, n, sources, v)
  }

  /** Reported by a source read now at its previous read, and by no source now. */
  ghost function RemovedIn(h: seq<Refresh>, sources: set<Source>): set<Str> {
    var n := LastRead(h, sources);
    if !(0 <= n < |h|) then {}
    else set s | s in AllSights(h) && WithdrawnBy(h, n, sources, s) && s.value !in ReportedBy(h, n, sources) :: s.value
  }

  ghost function AllSights(h: seq<Refresh>): set<Sight> {
    set i, s | 0 <= i < |h| && s in h[i].sights :: s
  }

  ghost predicate WithdrawnBy(h: seq<Refresh>, n: int, sources: set<Source>, s: Sight)
    requires 0 <= n < |h|
  {
    s.source in sources && s.source in h[n].read &&
    var p := LastRead(h[..n], {s.source}); 0 <= p < n && s in h[p].sights
  }

  // -------------------------------------------------------------- what stamps know

  ghost predicate FirstAt(h: seq<Refresh>, i: int, s: Sight)
    requires 0 <= i < |h|
  {
    s in h[i].sights && forall j :: 0 <= j < i ==> s !in h[j].sights
  }

  ghost predicate LastAt(h: seq<Refresh>, i: int, s: Sight)
    requires 0 <= i < |h|
  {
    s in h[i].sights && forall j :: i < j < |h| ==> s !in h[j].sights
  }

  lemma StampStep(h: seq<Refresh>, s: Sight)
    requires h != []
    ensures var n, m := |h| - 1, Stamps(h[..|h| - 1]);
      && (s in Stamps(h) <==> s in m || s in h[n].sights)
      && (s !in h[n].sights && s in m ==> Stamps(h)[s] == m[s])
      && (s in h[n].sights && s in m ==> Stamps(h)[s] == Stamp(Min(m[s].first, h[n].time), Max(m[s].last, h[n].time)))
      && (s in h[n].sights && s !in m ==> Stamps(h)[s] == Stamp(h[n].time, h[n].time))
  {
  }

  ghost predicate Reported(h: seq<Refresh>, s: Sight) {
    exists i :: 0 <= i < |h| && s in h[i].sights
  }

  ghost predicate FirstIs(h: seq<Refresh>, s: Sight, t: Time) {
    exists i :: 0 <= i < |h| && FirstAt(h, i, s) && h[i].time == t
  }

  ghost predicate LastIs(h: seq<Refresh>, s: Sight, t: Time) {
    exists i :: 0 <= i < |h| && LastAt(h, i, s) && h[i].time == t
  }

  lemma ReportedStep(h: seq<Refresh>, s: Sight)
    requires h != []
    ensures Reported(h, s) <==> Reported(h[..|h| - 1], s) || s in h[|h| - 1].sights
  {
    var n := |h| - 1;
    if Reported(h[..n], s) {
      var i :| 0 <= i < n && s in h[..n][i].sights;
      assert h[i] == h[..n][i];
    }
    if i :| 0 <= i < |h| && s in h[i].sights {
      assert i < n ==> h[..n][i] == h[i];
    }
  }

  lemma FirstStep(h: seq<Refresh>, s: Sight, t: Time)
    requires h != []
    ensures FirstIs(h[..|h| - 1], s, t) ==> FirstIs(h, s, t)
    ensures !Reported(h[..|h| - 1], s) && s in h[|h| - 1].sights ==> FirstIs(h, s, h[|h| - 1].time)
  {
    var n := |h| - 1;
    if i :| 0 <= i < n && FirstAt(h[..n], i, s) && h[..n][i].time == t {
      assert forall j :: 0 <= j < i ==> h[..n][j] == h[j];
      assert FirstAt(h, i, s);
    }
    if !Reported(h[..n], s) && s in h[n].sights {
      assert forall j :: 0 <= j < n ==> h[..n][j] == h[j];
      assert FirstAt(h, n, s);
    }
  }

  lemma LastStep(h: seq<Refresh>, s: Sight, t: Time)
    requires h != []
    ensures LastIs(h[..|h| - 1], s, t) && s !in h[|h| - 1].sights ==> LastIs(h, s, t)
    ensures s in h[|h| - 1].sights ==> LastIs(h, s, h[|h| - 1].time)
  {
    var n := |h| - 1;
    if s in h[n].sights {
      assert LastAt(h, n, s);
    } else if i :| 0 <= i < n && LastAt(h[..n], i, s) && h[..n][i].time == t {
      assert forall j :: 0 <= j < n ==> h[..n][j] == h[j];
      assert LastAt(h, i, s);
    }
  }

  lemma TimesBefore(h: seq<Refresh>, s: Sight, t: Time)
    requires History(h) && h != []
    ensures History(h[..|h| - 1])
    ensures FirstIs(h[..|h| - 1], s, t) || LastIs(h[..|h| - 1], s, t) ==> t < h[|h| - 1].time
  {
    var n := |h| - 1;
    assert forall j :: 0 <= j < n ==> h[..n][j] == h[j];
  }

  /** The two stamps are the times of the first and of the last report. */
  lemma {:induction false} StampFacts(h: seq<Refresh>, s: Sight)
    requires History(h)
    ensures s in Stamps(h) <==> Reported(h, s)
    ensures s in Stamps(h) ==> FirstIs(h, s, Stamps(h)[s].first) && LastIs(h, s, Stamps(h)[s].last)
  {
    hide FirstIs, LastIs, Stamped, History, Reported;
    if h == [] {
      NothingReported(s);
    } else {
      var n := |h| - 1;
      var front, m := h[..n], Stamps(h[..n]);
      TimesBefore(h, s, 0);
      StampFacts(front, s);
      StampStep(h, s);
      ReportedStep(h, s);
      if s in m {
        TimesBefore(h, s, m[s].first);
        TimesBefore(h, s, m[s].last);
        FirstStep(h, s, m[s].first);
        LastStep(h, s, m[s].last);
      } else {
        FirstStep(h, s, 0);
        LastStep(h, s, 0);
      }
    }
  }

  lemma NothingReported(s: Sight)
    ensures !Reported([], s)
  {
  }

  lemma {:induction false} LastReadFacts(h: seq<Refresh>, sources: set<Source>)
    ensures var n := LastRead(h, sources);
      && -1 <= n < |h|
      && (n >= 0 ==> h[n].read * sources != {})
      && (forall j :: n < j < |h| ==> h[j].read * sources == {})
  {
    if h != [] {
      LastReadFacts(h[..|h| - 1], sources);
    }
  }

  lemma {:induction false} HealthFacts(h: seq<Refresh>, s: Source)
    requires History(h)
    ensures var n := LastRead(h, {s});
      && (s in Healths(h) <==> n >= 0)
      && (n >= 0 ==> n < |h| && Healths(h)[s].last == h[n].time)
      && (0 <= n < |h| ==> var p := LastRead(h[..n], {s});
        p < n && Healths(h)[s].previous == if p >= 0 then h[p].time else 0)
  {
    if h != [] {
      var n := |h| - 1;
      HealthFacts(h[..n], s);
      LastReadFacts(h, {s});
      LastReadFacts(h[..n], {s});
      if s in h[n].read {
        assert s in h[n].read * {s};
      } else {
        assert h[n].read * {s} == {};
        var k := LastRead(h, {s});
        if k >= 0 {
          assert h[..n][..k] == h[..k];
        }
      }
    }
  }

  // -------------------------------------------------------------- the refinement

  /** The latest successful read of an enabled source, up to the cutoff. */
  ghost predicate IsLatestRead(health: map<Source, Health>, sources: set<Source>, cutoff: Time, t: Time) {
    && (t == 0 || exists s :: s in sources && s in health && health[s].last == t <= cutoff)
    && (forall s :: s in sources && s in health && health[s].last <= cutoff ==> health[s].last <= t)
  }

  ghost predicate NewAt(m: map<Sight, Stamp>, sources: set<Source>, t: Time, v: Str) {
    (exists s :: s in m && s.source in sources && s.value == v && m[s].first == t) &&
    (forall s :: s in m && s.source in sources && s.value == v ==> m[s].first >= t)
  }

  ghost predicate SeenAt(m: map<Sight, Stamp>, sources: set<Source>, t: Time, v: Str) {
    exists s :: s in m && s.source in sources && s.value == v && m[s].last == t
  }

  ghost predicate WithdrawnAt(m: map<Sight, Stamp>, health: map<Source, Health>, sources: set<Source>, t: Time,
      s: Sight) {
    && s in m && s.source in sources && s.source in health && health[s.source].last == t
    && health[s.source].previous != 0 && m[s].last == health[s.source].previous
  }

  ghost function AddedByStamps(m: map<Sight, Stamp>, sources: set<Source>, t: Time): set<Str> {
    set s | s in m && NewAt(m, sources, t, s.value) :: s.value
  }

  ghost function RemovedByStamps(m: map<Sight, Stamp>, health: map<Source, Health>, sources: set<Source>, t: Time)
    : set<Str>
  {
    set s | s in m && WithdrawnAt(m, health, sources, t, s) && !SeenAt(m, sources, t, s.value) :: s.value
  }

  /** A value is seen at the latest read by its stamp exactly when it was reported. */
  lemma SeenIsReported(h: seq<Refresh>, sources: set<Source>, n: int, v: Str)
    requires History(h) && n == LastRead(h, sources) && 0 <= n < |h|
    ensures SeenAt(Stamps(h), sources, h[n].time, v) <==> v in ReportedBy(h, n, sources)
  {
    hide Stamps;
    var m := Stamps(h);
    LastReadFacts(h, sources);
    if SeenAt(m, sources, h[n].time, v) {
      var s :| s in m && s.source in sources && s.value == v && m[s].last == h[n].time;
      StampFacts(h, s);
      var i :| 0 <= i < |h| && LastAt(h, i, s) && h[i].time == m[s].last;
      assert i == n;
    }
    if v in ReportedBy(h, n, sources) {
      var s :| s in h[n].sights && s.source in sources && s.value == v;
      StampFacts(h, s);
      var i :| 0 <= i < |h| && LastAt(h, i, s) && h[i].time == m[s].last;
      assert i >= n;
      assert s.source in h[i].read * sources;
      assert i == n;
    }
  }

  lemma NewIsAdded(h: seq<Refresh>, sources: set<Source>, n: int, v: Str)
    requires History(h) && n == LastRead(h, sources) && 0 <= n < |h|
    ensures NewAt(Stamps(h), sources, h[n].time, v) <==>
      v in ReportedBy(h, n, sources) && !EverBefore(h, n, sources, v)
  {
    hide Stamps;
    var m := Stamps(h);
    if NewAt(m, sources, h[n].time, v) {
      var s :| s in m && s.source in sources && s.value == v && m[s].first == h[n].time;
      StampFacts(h, s);
      var i :| 0 <= i < |h| && FirstAt(h, i, s) && h[i].time == m[s].first;
      assert i == n;
      if i :| 0 <= i < n && v in ReportedBy(h, i, sources) {
        var x :| x in h[i].sights && x.source in sources && x.value == v;
        FirstNoLater(h, x, i);
      }
    }
    if v in ReportedBy(h, n, sources) && !EverBefore(h, n, sources, v) {
      var s :| s in h[n].sights && s.source in sources && s.value == v;
      forall x | x in m && x.source in sources && x.value == v ensures m[x].first >= h[n].time {
        StampFacts(h, x);
        var i :| 0 <= i < |h| && FirstAt(h, i, x) && h[i].time == m[x].first;
        assert v in ReportedBy(h, i, sources);
      }
      FirstNoLater(h, s, n);
    }
  }

  lemma FirstNoLater(h: seq<Refresh>, s: Sight, i: int)
    requires History(h) && 0 <= i < |h| && s in h[i].sights
    ensures s in Stamps(h) && Stamps(h)[s].first <= h[i].time
  {
    hide Stamps;
    StampFacts(h, s);
    var k :| 0 <= k < |h| && FirstAt(h, k, s) && h[k].time == Stamps(h)[s].first;
  }

  lemma {:induction false} LastReadMonotone(h: seq<Refresh>, s: Source, sources: set<Source>)
    requires s in sources
    ensures LastRead(h, {s}) <= LastRead(h, sources)
  {
    if h != [] {
      var n := |h| - 1;
      LastReadMonotone(h[..n], s, sources);
      LastReadFacts(h[..n], {s});
      if s in h[n].read {
        assert s in h[n].read * sources && s in h[n].read * {s};
      } else {
        assert h[n].read * {s} == {};
      }
    }
  }

  lemma WithdrawnIsWithdrawn(h: seq<Refresh>, sources: set<Source>, n: int, s: Sight)
    requires History(h) && n == LastRead(h, sources) && 0 <= n < |h| && s.value !in ReportedBy(h, n, sources)
    ensures WithdrawnAt(Stamps(h), Healths(h), sources, h[n].time, s) <==> WithdrawnBy(h, n, sources, s)
  {
    hide Stamps, Healths;
    var m := Stamps(h);
    HealthFacts(h, s.source);
    LastReadFacts(h, sources);
    LastReadFacts(h, {s.source});
    StampFacts(h, s);
    var k := LastRead(h, {s.source});
    if s.source in sources {
      LastReadMonotone(h, s.source, sources);
      assert s.source in h[n].read ==> s.source in h[n].read * {s.source};
      assert s.source in h[n].read <==> k == n;
      if k == n {
        var p := LastRead(h[..n], {s.source});
        LastReadFacts(h[..n], {s.source});
        assert forall j :: 0 <= j < n ==> h[..n][j] == h[j];
        if s in m {
          var i :| 0 <= i < |h| && LastAt(h, i, s) && h[i].time == m[s].last;
          assert s.source in h[i].read * {s.source};
          assert i <= n && i != n;
          assert i <= p;
        }
        if 0 <= p && s in h[p].sights {
          assert Reported(h, s);
        }
      }
    }
  }

  /** Freshness from stamps refines the full history: the latest read, the values it
      brought and the values it dropped are what the history says, for any history
      up to the cutoff and any set of enabled sources. */
  lemma StampsRefineHistory(h: seq<Refresh>, sources: set<Source>, cutoff: Time, t: Time)
    requires History(h) && forall i :: 0 <= i < |h| ==> h[i].time <= cutoff
    requires IsLatestRead(Healths(h), sources, cutoff, t)
    ensures var n := LastRead(h, sources); -1 <= n < |h| && t == if n < 0 then 0 else h[n].time
    ensures t != 0 ==> AddedByStamps(Stamps(h), sources, t) == AddedIn(h, sources)
    ensures t != 0 ==> RemovedByStamps(Stamps(h), Healths(h), sources, t) == RemovedIn(h, sources)
    ensures t == 0 ==> AddedIn(h, sources) == {} && RemovedIn(h, sources) == {}
  {
    hide Stamps, Healths, NewAt, SeenAt, WithdrawnAt, WithdrawnBy, ReportedBy, EverBefore;
    LatestIsLast(h, sources, cutoff, t);
    var n := LastRead(h, sources);
    if n >= 0 {
      AddedAgree(h, sources, n);
      RemovedAgree(h, sources, n);
    }
  }

  lemma LatestIsLast(h: seq<Refresh>, sources: set<Source>, cutoff: Time, t: Time)
    requires History(h) && forall i :: 0 <= i < |h| ==> h[i].time <= cutoff
    requires IsLatestRead(Healths(h), sources, cutoff, t)
    ensures var n := LastRead(h, sources); -1 <= n < |h| && t == if n < 0 then 0 else h[n].time
  {
    hide Healths;
    var n := LastRead(h, sources);
    LastReadFacts(h, sources);
    forall s | s in sources
      ensures s in Healths(h) ==> n >= 0 && Healths(h)[s].last <= h[n].time <= cutoff
      ensures n >= 0 && s in h[n].read ==> s in Healths(h) && Healths(h)[s].last == h[n].time
    {
      HealthFacts(h, s);
      LastReadFacts(h, {s});
      LastReadMonotone(h, s, sources);
      if n >= 0 && s in h[n].read {
        assert s in h[n].read * {s};
      }
    }
    if n >= 0 {
      var s :| s in h[n].read * sources;
    }
  }

  lemma AddedAgree(h: seq<Refresh>, sources: set<Source>, n: int)
    requires History(h) && n == LastRead(h, sources) && 0 <= n < |h|
    ensures AddedByStamps(Stamps(h), sources, h[n].time) == AddedIn(h, sources)
  {
    hide Stamps, EverBefore;
    var m := Stamps(h);
    forall v ensures v in AddedByStamps(m, sources, h[n].time) <==> v in AddedIn(h, sources) {
      NewIsAdded(h, sources, n, v);
    }
  }

  lemma RemovedAgree(h: seq<Refresh>, sources: set<Source>, n: int)
    requires History(h) && n == LastRead(h, sources) && 0 <= n < |h|
    ensures RemovedByStamps(Stamps(h), Healths(h), sources, h[n].time) == RemovedIn(h, sources)
  {
    hide Stamps, Healths, SeenAt, WithdrawnAt, ReportedBy, WithdrawnBy;
    var m, q := Stamps(h), Healths(h);
    forall s: Sight
      ensures SeenAt(m, sources, h[n].time, s.value) <==> s.value in ReportedBy(h, n, sources)
      ensures s.value !in ReportedBy(h, n, sources) ==>
        (s in m && WithdrawnAt(m, q, sources, h[n].time, s) <==> s in AllSights(h) && WithdrawnBy(h, n, sources, s))
    {
      SeenIsReported(h, sources, n, s.value);
      StampFacts(h, s);
      if s.value !in ReportedBy(h, n, sources) {
        WithdrawnIsWithdrawn(h, sources, n, s);
      }
    }
  }

  // -------------------------------------------------------------- flagged observations

  /** The history without the observations that are flagged as invalid. */
  function Sifted(h: seq<Refresh>, flagged: set<Sight>): seq<Refresh> {
    seq(|h|, i requires 0 <= i < |h| => h[i].(sights := h[i].sights - flagged))
  }

  lemma {:induction false} SiftedStores(h: seq<Refresh>, flagged: set<Sight>)
    ensures Stamps(Sifted(h, flagged)) == Stamps(h) - flagged && Healths(Sifted(h, flagged)) == Healths(h)
  {
    if h != [] {
      var n := |h| - 1;
      SiftedStores(h[..n], flagged);
      assert Sifted(h, flagged)[..n] == Sifted(h[..n], flagged);
      assert Sifted(h, flagged)[n] == h[n].(sights := h[n].sights - flagged);
      StampedSifted(Stamps(h[..n]), h[n], flagged);
    }
  }

  lemma StampedSifted(m: map<Sight, Stamp>, r: Refresh, flagged: set<Sight>)
    ensures Stamped(m - flagged, r.(sights := r.sights - flagged)) == Stamped(m, r) - flagged
  {
  }

  /** Skipping flagged stamps is the same as reading a history that never had them. */
  lemma FlaggedStampsRefineHistory(h: seq<Refresh>, flagged: set<Sight>, sources: set<Source>, cutoff: Time, t: Time)
    requires History(h) && forall i :: 0 <= i < |h| ==> h[i].time <= cutoff
    requires IsLatestRead(Healths(h), sources, cutoff, t)
    ensures var sifted := Sifted(h, flagged);
      && (t != 0 ==> AddedByStamps(Stamps(h) - flagged, sources, t) == AddedIn(sifted, sources))
      && (t != 0 ==> RemovedByStamps(Stamps(h) - flagged, Healths(h), sources, t) == RemovedIn(sifted, sources))
      && (t == 0 ==> AddedIn(sifted, sources) == {} && RemovedIn(sifted, sources) == {})
  {
    hide AddedByStamps, RemovedByStamps, AddedIn, RemovedIn, Stamps, Healths, IsLatestRead;
    SiftedStores(h, flagged);
    assert History(Sifted(h, flagged));
    StampsRefineHistory(Sifted(h, flagged), sources, cutoff, t);
  }

  // -------------------------------------------------------------- the loops

  // The store may flag an observation as invalid; `until` 0 is no validity at all.
  datatype Row = Row(sight: Sight, stamp: Stamp, until: Time, invalid: bool)

  /** The rows of one store read, as far as they are not flagged: each stamp once. */
  ghost predicate Lists(rows: seq<Row>, m: map<Sight, Stamp>) {
    && (forall i :: 0 <= i < |rows| && !rows[i].invalid ==> rows[i].sight in m && m[rows[i].sight] == rows[i].stamp)
    && (forall s :: s in m ==> exists i :: 0 <= i < |rows| && rows[i].sight == s && !rows[i].invalid)
  }

  method LatestRead(sources: seq<Source>, health: map<Source, Health>, cutoff: Time) returns (t: Time)
    ensures IsLatestRead(health, Elements(sources), cutoff, t)
  {
    t := 0;
    for i := 0 to |sources|
      invariant t == 0 || exists k :: 0 <= k < i && sources[k] in health && health[sources[k]].last == t <= cutoff
      invariant forall k :: 0 <= k < i && sources[k] in health && health[sources[k]].last <= cutoff ==>
        health[sources[k]].last <= t
    {
      var s := sources[i];
      if s in health && health[s].last != 0 && health[s].last <= cutoff && health[s].last > t {
        t := health[s].last;
      }
    }
  }

  ghost predicate Active(row: Row, sources: seq<Source>, v: Str) {
    row.sight.source in sources && !row.invalid && row.sight.value == v
  }

  /** `firstSeen`: the earliest stamp of each value. */
  ghost predicate Earliest(rows: seq<Row>, sources: seq<Source>, first: map<Str, Time>) {
    && (forall v :: v in first ==>
      exists k :: 0 <= k < |rows| && Active(rows[k], sources, v) && rows[k].stamp.first == first[v])
    && (forall k :: 0 <= k < |rows| && rows[k].sight.source in sources && !rows[k].invalid ==>
      rows[k].sight.value in first && first[rows[k].sight.value] <= rows[k].stamp.first)
  }

  lemma EarliestStep(rows: seq<Row>, i: nat, sources: seq<Source>, first: map<Str, Time>)
    requires i < |rows| && Earliest(rows[..i], sources, first)
    ensures var v, t := rows[i].sight.value, rows[i].stamp.first;
      Earliest(rows[..i + 1], sources,
        if rows[i].sight.source in sources && !rows[i].invalid && (v !in first || t < first[v])
        then first[v := t] else first)
  {
    var v, t := rows[i].sight.value, rows[i].stamp.first;
    var next :=
      if rows[i].sight.source in sources && !rows[i].invalid && (v !in first || t < first[v])
      then first[v := t] else first;
    var more := rows[..i + 1];
    assert forall k :: 0 <= k < i ==> more[k] == rows[..i][k];
    forall x | x in next
      ensures exists k :: 0 <= k < |more| && Active(more[k], sources, x) && more[k].stamp.first == next[x]
    {
      if x == v && next != first {
        assert Active(more[i], sources, x);
      } else {
        var k :| 0 <= k < i && Active(rows[..i][k], sources, x) && rows[..i][k].stamp.first == first[x];
        assert Active(more[k], sources, x);
      }
    }
  }

  method FirstSeen(rows: seq<Row>, sources: seq<Source>) returns (first: map<Str, Time>)
    ensures Earliest(rows, sources, first)
  {
    hide Earliest;
    first := map[];
    NoRows(sources);
    assert rows[..0] == [];
    for i := 0 to |rows|
      invariant Earliest(rows[..i], sources, first)
    {
      EarliestStep(rows, i, sources, first);
      var r := rows[i];
      if r.sight.source !in sources || r.invalid {
        continue;
      }
      if r.sight.value !in first || r.stamp.first < first[r.sight.value] {
        first := first[r.sight.value := r.stamp.first];
      }
    }
    assert rows[..|rows|] == rows;
  }

  lemma NoRows(sources: seq<Source>)
    ensures Earliest([], sources, map[])
  {
  }

  method CountEqual(first: map<Str, Time>, t: Time) returns (count: nat)
    ensures count == |set v | v in first && first[v] == t|
  {
    count := 0;
    var rest := first.Keys;
    ghost var counted: set<Str> := {};
    while rest != {}
      invariant rest <= first.Keys && count == |counted|
      invariant counted == set v | v in first && v !in rest && first[v] == t
      decreases |rest|
    {
      var v :| v in rest;
      rest := rest - {v};
      if first[v] == t {
        count := count + 1;
        counted := counted + {v};
      }
    }
    assert counted == set v | v in first && first[v] == t;
  }

  lemma EarliestMeansNew(rows: seq<Row>, m: map<Sight, Stamp>, sources: seq<Source>, first: map<Str, Time>, t: Time,
      v: Str)
    requires Lists(rows, m) && Earliest(rows, sources, first) && v in first && first[v] == t
    ensures v in AddedByStamps(m, Elements(sources), t)
  {
    var k :| 0 <= k < |rows| && Active(rows[k], sources, v) && rows[k].stamp.first == first[v];
    var s := rows[k].sight;
    forall x | x in m && x.source in Elements(sources) && x.value == v ensures m[x].first >= t {
      var j :| 0 <= j < |rows| && rows[j].sight == x && !rows[j].invalid;
    }
    assert s in m && NewAt(m, Elements(sources), t, s.value);
  }

  lemma NewMeansEarliest(rows: seq<Row>, m: map<Sight, Stamp>, sources: seq<Source>, first: map<Str, Time>, t: Time,
      v: Str)
    requires Lists(rows, m) && Earliest(rows, sources, first) && NewAt(m, Elements(sources), t, v)
    ensures v in first && first[v] == t
  {
    var s :| s in m && s.source in Elements(sources) && s.value == v && m[s].first == t;
    var j :| 0 <= j < |rows| && rows[j].sight == s && !rows[j].invalid;
    assert v in first && first[v] <= t;
    var k :| 0 <= k < |rows| && Active(rows[k], sources, v) && rows[k].stamp.first == first[v];
    assert rows[k].sight in m;
  }

  lemma EarliestIsNew(rows: seq<Row>, m: map<Sight, Stamp>, sources: seq<Source>, first: map<Str, Time>, t: Time)
    requires Lists(rows, m) && Earliest(rows, sources, first)
    ensures (set v | v in first && first[v] == t) == AddedByStamps(m, Elements(sources), t)
  {
    hide Lists, Earliest, NewAt, Elements;
    forall v ensures v in first && first[v] == t <==> v in AddedByStamps(m, Elements(sources), t) {
      if v in first && first[v] == t {
        EarliestMeansNew(rows, m, sources, first, t, v);
      }
      if v in AddedByStamps(m, Elements(sources), t) {
        NewMeansEarliest(rows, m, sources, first, t, v);
      }
    }
  }

  /** `reportedNow` and `withdrawn`. */
  method Withdrawn(rows: seq<Row>, sources: seq<Source>, health: map<Source, Health>, t: Time)
    returns (withdrawn: set<Str>, reportedNow: set<Str>)
    ensures forall v :: v in reportedNow <==>
      exists k :: 0 <= k < |rows| && Active(rows[k], sources, v) && rows[k].stamp.last == t
    ensures forall v :: v in withdrawn <==>
      exists k :: 0 <= k < |rows| && Active(rows[k], sources, v) && Dropped(health, t, rows[k])
  {
    withdrawn, reportedNow := {}, {};
    for i := 0 to |rows|
      invariant forall v :: v in reportedNow <==>
        exists k :: 0 <= k < i && Active(rows[k], sources, v) && rows[k].stamp.last == t
      invariant forall v :: v in withdrawn <==>
        exists k :: 0 <= k < i && Active(rows[k], sources, v) && Dropped(health, t, rows[k])
    {
      var r := rows[i];
      if r.sight.source !in sources || r.invalid {
        continue;
      }
      assert Active(rows[i], sources, r.sight.value);
      if r.stamp.last == t {
        reportedNow := reportedNow + {r.sight.value};
      }
      if Dropped(health, t, r) {
        withdrawn := withdrawn + {r.sight.value};
      }
    }
  }

  /** Its source was read at the latest read, and reported it last at the read before. */
  predicate Dropped(health: map<Source, Health>, t: Time, r: Row) {
    && r.sight.source in health && health[r.sight.source].last == t
    && health[r.sight.source].previous != 0 && r.stamp.last == health[r.sight.source].previous
  }

  // -------------------------------------------------------------- the state word

  datatype SourceState = Unread | Failing | Expired | Ready

  datatype State = NoSources | Never | Failed | Stale | Fresh

  /** `combinedFreshnessState`. */
  method CombinedState(states: seq<SourceState>) returns (r: State)
    ensures r.NoSources? <==> states == []
    ensures r.Failed? <==> Failing in states
    ensures r.Never? <==> states != [] && forall s :: s in states ==> s.Unread?
    ensures r.Fresh? <==> states != [] && forall s :: s in states ==> s.Ready?
  {
    if states == [] {
      return NoSources;
    }
    var unread, ready := 0, 0;
    for i := 0 to |states|
      invariant Failing !in states[..i] && 0 <= unread && 0 <= ready && unread + ready <= i
      invariant unread == i <==> forall k :: 0 <= k < i ==> states[k].Unread?
      invariant ready == i <==> forall k :: 0 <= k < i ==> states[k].Ready?
    {
      match states[i]
      case Failing => return Failed;
      case Unread => unread := unread + 1;
      case Ready => ready := ready + 1;
      case Expired =>
    }
    return if unread == |states| then Never else if ready == |states| then Fresh else Stale;
  }

  /** One coherent read of a list's source history. A source that only ever failed is
      in `failures` alone. */
  datatype Observations = Observations(revision: Str, rows: seq<Row>, health: map<Source, Health>,
    failures: map<Source, Time>)

  function LastSuccess(o: Observations, s: Source): Time {
    if s in o.health then o.health[s].last else 0
  }

  /** The last cycle of the source failed. */
  predicate FailedLast(o: Observations, s: Source) {
    s in o.failures && o.failures[s] != 0 && o.failures[s] > LastSuccess(o, s)
  }

  /** `domain.LifecycleAt` says stale or archived. */
  predicate RanOut(r: Row, cutoff: Time) {
    !r.invalid && r.until != 0 && r.until <= cutoff
  }

  /** Something that the source's latest success reported is no longer valid. */
  predicate HoldsExpired(o: Observations, s: Source, cutoff: Time) {
    exists i :: 0 <= i < |o.rows| &&
      o.rows[i].sight.source == s && o.rows[i].stamp.last == LastSuccess(o, s) && RanOut(o.rows[i], cutoff)
  }

  predicate AtRevision(o: Observations, revision: Str) {
    o.revision != [] && o.revision == revision
  }

  /** The source was read at this catalog revision, not later than the cutoff, and did
      not fail since. */
  predicate ReadWell(o: Observations, revision: Str, s: Source, cutoff: Time) {
    && AtRevision(o, revision) && !FailedLast(o, s) && 0 < LastSuccess(o, s) <= cutoff
  }

  /** One cycle of a source: when it ran, and whether it read anything. */
  datatype Cycle = Cycle(at: Time, read: bool)

  /** The last cycle that ended this way, or 0. */
  function LastCycle(cycles: seq<Cycle>, read: bool): Time {
    if cycles == [] then 0
    else if cycles[|cycles| - 1].read == read then cycles[|cycles| - 1].at
    else LastCycle(cycles[..|cycles| - 1], read)
  }

  /** Cycles come one after the other, after the zero time. */
  predicate InOrder(cycles: seq<Cycle>) {
    (forall i :: 0 <= i < |cycles| ==> cycles[i].at > 0) &&
    forall i, j :: 0 <= i < j < |cycles| ==> cycles[i].at < cycles[j].at
  }

  lemma {:induction false} LastCycleIsOne(cycles: seq<Cycle>, read: bool)
    ensures LastCycle(cycles, read) == 0 || exists i ::
      0 <= i < |cycles| && cycles[i] == Cycle(LastCycle(cycles, read), read)
  {
    if cycles != [] && cycles[|cycles| - 1].read != read {
      LastCycleIsOne(cycles[..|cycles| - 1], read);
    }
  }

  /** A source whose stored times are those of its cycles failed last exactly when its
      last cycle failed. */
  lemma FailedLastIsLast(o: Observations, s: Source, cycles: seq<Cycle>)
    requires InOrder(cycles)
    requires LastSuccess(o, s) == LastCycle(cycles, true)
    requires (if s in o.failures then o.failures[s] else 0) == LastCycle(cycles, false)
    ensures FailedLast(o, s) <==> cycles != [] && !cycles[|cycles| - 1].read
    ensures s in o.failures && o.failures[s] == LastSuccess(o, s) ==> !FailedLast(o, s)
  {
    LastCycleIsOne(cycles, true);
    LastCycleIsOne(cycles, false);
  }

  /** A value runs out at the end of its validity and not before; one without an end
      never does, and an invalid one is another matter. */
  lemma RunsOutAtItsEnd(r: Row, cutoff: Time)
    ensures r.invalid || r.until == 0 ==> !RanOut(r, cutoff)
    ensures !r.invalid && r.until > 0 ==> !RanOut(r, r.until - 1) && RanOut(r, r.until)
    ensures RanOut(r, cutoff) ==> RanOut(r, cutoff + 1)
  {
  }

  /** At this revision nothing tells of the source, or its latest success is none or
      past the cutoff. */
  predicate Unheard(o: Observations, revision: Str, s: Source, cutoff: Time) {
    o.revision == [] ||
    (o.revision == revision && !FailedLast(o, s) && (LastSuccess(o, s) == 0 || LastSuccess(o, s) > cutoff))
  }

  /** `enabledSourceState`. */
  method EnabledSourceState(o: Observations, revision: Str, s: Source, cutoff: Time) returns (r: SourceState)
    ensures r.Ready? <==> ReadWell(o, revision, s, cutoff) && !HoldsExpired(o, s, cutoff)
    ensures r.Failing? <==> AtRevision(o, revision) && FailedLast(o, s)
    ensures r.Unread? <==> Unheard(o, revision, s, cutoff)
    ensures r.Expired? <==>
      (o.revision != [] && o.revision != revision) || (ReadWell(o, revision, s, cutoff) && HoldsExpired(o, s, cutoff))
  {
    if o.revision == [] {
      return Unread;
    }
    if o.revision != revision {
      return Expired;
    }
    if s !in o.health && s !in o.failures {
      return Unread;
    }
    if FailedLast(o, s) {
      return Failing;
    }
    var last := LastSuccess(o, s);
    if last == 0 || last > cutoff {
      return Unread;
    }
    for i := 0 to |o.rows|
      invariant forall k :: 0 <= k < i ==>
        !(o.rows[k].sight.source == s && o.rows[k].stamp.last == last && RanOut(o.rows[k], cutoff))
    {
      if o.rows[i].sight.source != s || o.rows[i].stamp.last != last {
        continue;
      }
      if RanOut(o.rows[i], cutoff) {
        return Expired;
      }
    }
    return Ready;
  }

  method SourceStates(o: Observations, revision: Str, sources: seq<Source>, cutoff: Time)
    returns (states: seq<SourceState>)
    ensures |states| == |sources|
    ensures forall i :: 0 <= i < |sources| ==>
      (states[i].Ready? <==> ReadWell(o, revision, sources[i], cutoff) && !HoldsExpired(o, sources[i], cutoff)) &&
      (states[i].Failing? <==> AtRevision(o, revision) && FailedLast(o, sources[i])) &&
      (states[i].Unread? <==> Unheard(o, revision, sources[i], cutoff))
  {
    hide ReadWell, HoldsExpired, FailedLast, AtRevision, Unheard;
    states := [];
    for i := 0 to |sources|
      invariant |states| == i
      invariant forall k :: 0 <= k < i ==>
        (states[k].Ready? <==> ReadWell(o, revision, sources[k], cutoff) && !HoldsExpired(o, sources[k], cutoff)) &&
        (states[k].Failing? <==> AtRevision(o, revision) && FailedLast(o, sources[k])) &&
        (states[k].Unread? <==> Unheard(o, revision, sources[k], cutoff))
    {
      var state := EnabledSourceState(o, revision, sources[i], cutoff);
      states := states + [state];
    }
  }

  /** `listFreshness`. A list is fresh exactly when every enabled source was read well
      and nothing it reported then has run out; and then there is a latest read. */
  method Freshness(o: Observations, ghost m: map<Sight, Stamp>, revision: Str, sources: seq<Source>, cutoff: Time)
    returns (state: State, t: Time, added: nat, removed: nat)
    requires Lists(o.rows, m)
    ensures IsLatestRead(o.health, Elements(sources), cutoff, t)
    ensures t == 0 ==> added == removed == 0
    ensures t != 0 ==> added == |AddedByStamps(m, Elements(sources), t)|
    ensures t != 0 ==> removed == |RemovedByStamps(m, o.health, Elements(sources), t)|
    ensures state.NoSources? <==> sources == []
    ensures state.Failed? <==> exists s :: s in sources && AtRevision(o, revision) && FailedLast(o, s)
    ensures state.Fresh? <==>
      sources != [] && forall s :: s in sources ==> ReadWell(o, revision, s, cutoff) && !HoldsExpired(o, s, cutoff)
    ensures state.Fresh? ==> t != 0
    ensures state.Never? <==> sources != [] && forall s :: s in sources ==> Unheard(o, revision, s, cutoff)
  {
    hide Earliest, AddedByStamps, RemovedByStamps, Dropped, Elements, HoldsExpired, FailedLast, Lists, Unheard;
    added, removed := 0, 0;
    var states := SourceStates(o, revision, sources, cutoff);
    state := CombinedState(states);
    StatesMean(states, sources);
    t := LatestRead(sources, o.health, cutoff);
    if state.Fresh? {
      ReadFirst(o, revision, sources, cutoff, t);
    }
    if t == 0 {
      return;
    }
    added, removed := Counts(o.rows, m, o.health, sources, t);
  }

  lemma StatesMean(states: seq<SourceState>, sources: seq<Source>)
    requires |states| == |sources|
    ensures forall x :: x in states <==> exists i :: 0 <= i < |sources| && states[i] == x
    ensures forall s :: s in sources <==> exists i :: 0 <= i < |sources| && sources[i] == s
  {
  }

  lemma ReadFirst(o: Observations, revision: Str, sources: seq<Source>, cutoff: Time, t: Time)
    requires sources != [] && ReadWell(o, revision, sources[0], cutoff)
    requires IsLatestRead(o.health, Elements(sources), cutoff, t)
    ensures t != 0
  {
    assert sources[0] in Elements(sources);
  }

  method Counts(rows: seq<Row>, ghost m: map<Sight, Stamp>, health: map<Source, Health>, sources: seq<Source>, t: Time)
    returns (added: nat, removed: nat)
    requires Lists(rows, m)
    ensures added == |AddedByStamps(m, Elements(sources), t)|
    ensures removed == |RemovedByStamps(m, health, Elements(sources), t)|
  {
    hide Earliest, AddedByStamps, Dropped, Elements;
    var first := FirstSeen(rows, sources);
    EarliestIsNew(rows, m, sources, first, t);
    added := CountEqual(first, t);
    var withdrawn, reportedNow := Withdrawn(rows, sources, health, t);
    var gone := withdrawn - reportedNow;
    assert gone == RemovedByStamps(m, health, Elements(sources), t) by {
      GoneIsRemoved(rows, m, sources, health, t, gone);
    }
    removed := |gone|;
  }

  lemma GoneIsRemoved(rows: seq<Row>, m: map<Sight, Stamp>, sources: seq<Source>, health: map<Source, Health>, t: Time,
      gone: set<Str>)
    requires Lists(rows, m)
    requires forall v :: v in gone <==>
      (exists k :: 0 <= k < |rows| && Active(rows[k], sources, v) && Dropped(health, t, rows[k])) &&
      !(exists k :: 0 <= k < |rows| && Active(rows[k], sources, v) && rows[k].stamp.last == t)
    ensures gone == RemovedByStamps(m, health, Elements(sources), t)
  {
    forall v ensures SeenAt(m, Elements(sources), t, v) <==>
        exists k :: 0 <= k < |rows| && Active(rows[k], sources, v) && rows[k].stamp.last == t {
      if SeenAt(m, Elements(sources), t, v) {
        var s :| s in m && s.source in Elements(sources) && s.value == v && m[s].last == t;
        var k :| 0 <= k < |rows| && rows[k].sight == s && !rows[k].invalid;
        assert Active(rows[k], sources, v);
      }
    }
    forall v ensures v in gone <==> v in RemovedByStamps(m, health, Elements(sources), t) {
      if v in gone {
        var k :| 0 <= k < |rows| && Active(rows[k], sources, v) && Dropped(health, t, rows[k]);
        assert WithdrawnAt(m, health, Elements(sources), t, rows[k].sight);
      }
      if v in RemovedByStamps(m, health, Elements(sources), t) {
        var s :| s in m && WithdrawnAt(m, health, Elements(sources), t, s) &&
          !SeenAt(m, Elements(sources), t, s.value) && s.value == v;
        var k :| 0 <= k < |rows| && rows[k].sight == s && !rows[k].invalid;
        assert Active(rows[k], sources, v) && Dropped(health, t, rows[k]);
      }
    }
  }
}
