/** One deployment and one removal on one device, with every call to the outside
    failing whenever it likes and other writers editing the device before every
    call. internal/application/deploy.go and device_removal.go. */
module DeviceLifecycle {
  import opened Text
  import Net
  import opened RouteLabels
  import opened RouteLedger
  import opened ManagedRoutes
  import opened Reconciliation
  import opened RouteAuthority
  import Convergence
  import opened DeviceTrace
  import opened Wrappers

  // -------------------------------------------------------------- the site

  /** One device with the ledgers of its surface. */
  class Site {
    var device: Config
    var ledger: Ledger
    var groups: map<Str, Groups>
    ghost var trace: Trace
    // The traces of the operations before the current one.
    ghost var past: seq<Trace>
    // Every send to this surface, for the argument about authority.
    ghost var history: seq<Event>

    /** The stored ledger is what the history of committed sends makes of it. */
    ghost predicate Valid()
      reads this
    {
      View(ledger) == BookAfter(history)
    }

    constructor (scope: Scope, config: Config)
      ensures Valid() && ledger == Ledger(scope, [], []) && history == [] && groups == map[] && device == config
    {
      device := config;
      ledger := Ledger(scope, [], []);
      groups := map[];
      trace, past := Start, [];
      history := [];
    }

    /** One trace for each operation on this site, in order. */
    ghost function Story(): seq<Trace>
      reads this
    {
      past + [trace]
    }

    /** A new operation starts. */
    ghost method Begin()
      modifies this`trace, this`past
      ensures trace == Start && past == old(Story())
    {
      past := past + [trace];
      trace := Start;
    }

    /** Anybody may edit the device between two calls. */
    method Others()
      modifies this`device
    {
      device := *;
    }

    method Probing() returns (ok: bool, compatible: bool)
      modifies this`device, this`trace
      ensures trace == After(old(trace), Probed(ok, compatible))
    {
      Others();
      ok, compatible := *, *;
      trace := After(trace, Probed(ok, compatible));
    }

    method PreviewGroups() returns (ok: bool)
      modifies this`device, this`trace
      ensures trace == After(old(trace), Previewed(ok))
    {
      Others();
      ok := *;
      trace := After(trace, Previewed(ok));
    }

    method ReadBackup() returns (r: Option<Backup>)
      modifies this`device, this`trace
      ensures trace == After(old(trace), BackedUp(if r.Some? then Some(r.value.bytes) else None))
      ensures r.Some? ==> r.value.payload == device
    {
      Others();
      var ok, bytes: nat := *, *;
      r := if ok then Some(Backup(device, bytes)) else None;
      trace := After(trace, BackedUp(if ok then Some(bytes) else None));
    }

    method PutBackup(b: Backup) returns (r: Option<BackupRef>)
      modifies this`trace
      ensures r.Some? ==> trace == After(old(trace), Stored(b.payload, r.value.Verified()))
      ensures r.None? ==> trace == After(old(trace), StoreFailed)
    {
      r := *;
      trace := After(trace, if r.Some? then Stored(b.payload, r.value.Verified()) else StoreFailed);
    }

    method CurrentRoutes() returns (r: Option<seq<Spec>>)
      modifies this`device, this`trace
      ensures r.Some? ==> trace == After(old(trace), RoutesRead(r.value))
      ensures r.None? ==> trace == After(old(trace), ReadFailed)
      ensures r.Some? && ValidCurrent(r.value) ==> TableView(r.value) == device.routes
    {
      Others();
      var specs: seq<Spec>, ok := *, *;
      var currentOk, m := CurrentSpecMap(specs);
      if ok && (!currentOk || m == device.routes) {
        r := Some(specs);
        trace := After(trace, RoutesRead(specs));
      } else {
        r := None;
        trace := After(trace, ReadFailed);
      }
    }

    /** The one bounded change. A deployer may say "nothing submitted" only when
        nothing was; two refusals prove the same. Anything may be on the device
        afterwards when something was submitted. */
    method Submit(ghost groups: bool, reporting: bool)
      returns (reported: bool, fault: Option<Fault>, ghost submitted: bool)
      modifies this`device, this`trace
      ensures trace == After(old(trace), Changed(groups, reported, submitted, fault))
      ensures submitted ==> reported && fault != Some(DeviceUnchanged) && fault != Some(OwnershipConflict)
      ensures !reporting ==> reported
    {
      Others();
      fault := *;
      var wrote: bool := *;
      wrote := wrote && fault != Some(DeviceUnchanged) && fault != Some(OwnershipConflict);
      reported := *;
      reported := reported || wrote || !reporting;
      if wrote {
        device := *;
      }
      submitted := wrote;
      trace := After(trace, Changed(groups, reported, submitted, fault));
    }

    method Check() returns (ok: bool)
      modifies this`device, this`trace
      ensures trace == After(old(trace), Checked(ok))
    {
      Others();
      ok := *;
      trace := After(trace, Checked(ok));
    }

    method ReplaceRoutes(next: Ledger, ghost mutation: RouteMutation) returns (ok: bool)
      modifies this`ledger, this`trace
      ensures ok ==> ledger == next && trace == After(old(trace), RoutesCommitted(next, mutation))
      ensures !ok ==> ledger == old(ledger) && trace == After(old(trace), CommitFailed)
    {
      ok := *;
      if ok {
        ledger := next;
      }
      trace := After(trace, if ok then RoutesCommitted(next, mutation) else CommitFailed);
    }

    method ReplaceGroups(o: Str, next: Groups) returns (ok: bool)
      modifies this`groups, this`trace
      ensures ok ==> groups == old(groups)[o := next] && trace == After(old(trace), GroupsCommitted)
      ensures !ok ==> groups == old(groups) && trace == After(old(trace), CommitFailed)
    {
      ok := *;
      if ok {
        groups := groups[o := next];
      }
      trace := After(trace, if ok then GroupsCommitted else CommitFailed);
    }

    /** `restoreDetached`: the recovery does not inherit the request's deadline. */
    method Restore(b: Backup) returns (ok: bool)
      modifies this`device, this`trace
      ensures trace == After(old(trace), Restored(b.payload, ok))
      ensures ok ==> device == b.payload
    {
      Others();
      ok := *;
      if ok {
        device := b.payload;
      }
      trace := After(trace, Restored(b.payload, ok));
    }

    /** `storeVerifiedBackup`. */
    method StoreVerifiedBackup(before: seq<AuditEvent>, ghost j: Job)
      returns (b: Option<Backup>, events: seq<AuditEvent>)
      requires Disciplined(trace) && Quiet(trace) && Compatible(trace)
      requires BackupDue(trace, j) && before == Audit(trace, StageOf(j), true)
      modifies this`device, this`trace
      ensures Disciplined(trace) && Quiet(trace) && Compatible(trace)
      ensures PreviewDone(trace) == old(PreviewDone(trace))
      ensures b.Some? ==>
        && StoredBackup(trace) == Some(b.value.payload) && b.value.bytes > 0
        && ChangeDue(trace, j, events)
      ensures trace.After?
      ensures b.None? ==> Ended(trace, j) && Told(Report(false, false, events, Some(BackupRequired)), trace, j)
    {
      hide Protocol, AtRisk, Plannable, Confirmed, Disciplined;
      ghost var t := trace;
      var taken := ReadBackup();
      DisciplinedStep(t, trace.act);
      BackupTurn(t, trace.act, j);
      events := before + [AuditEvent(TakeBackup, taken.Some?)];
      if taken.None? || taken.value.bytes == 0 {
        QuietEnd(trace, j);
        return None, events;
      }
      t := trace;
      var stored := PutBackup(taken.value);
      DisciplinedStep(t, trace.act);
      OneTurn(t, trace.act, j);
      BackupAudited(t.before, t.act.size, trace.act, StageOf(j), true);
      BackupAudited(t.before, t.act.size, trace.act, StageOf(j), false);
      if stored.None? || !stored.value.Verified() {
        QuietEnd(trace, j);
        return None, events;
      }
      return taken, events;
    }

    /** Retiring a ledger: the connection of the surface changed. */
    method Retire()
      requires Valid()
      modifies this`ledger, this`history
      ensures Valid() && ledger == Ledger(old(ledger.scope), [], [])
    {
      ledger := Ledger(ledger.scope, [], []);
      history := history + [Retired];
    }
  }

  // -------------------------------------------------------------- a deployment

  /** What an attempt that ended with this report left behind. */
  ghost predicate Accounted(t: Trace, exempt: set<Fault>, r: Report, device: Config) {
    && Disciplined(t)
    && (r.applied <==> r.error.None?)
    && (r.applied ==> Restores(t) == 0)
    && (r.error.Some? ==> Commits(t) == 0 && Restores(t) == if AtRisk(t, exempt) then 1 else 0)
    && (r.error.Some? && Submitted(t) ==> Restores(t) == 1)
    && (r.rolledBack ==> r.error.Some? && Restores(t) == 1 && StoredBackup(t) == Some(device))
    && (r.error.Some? && Restores(t) == 1 && !r.rolledBack ==> r.error == Some(RollbackFailed))
  }

  lemma QuietRefusal(t: Trace, exempt: set<Fault>, r: Report, device: Config)
    requires Disciplined(t) && Quiet(t) && r.error.Some? && !r.applied && !r.rolledBack
    ensures Accounted(t, exempt, r, device)
  {
    QuietCounts(t, exempt);
  }

  /** After the one bounded change was tried, and before any commit or recovery. */
  ghost predicate Tried(t: Trace, exempt: set<Fault>, payload: Config, reported: bool, fault: Option<Fault>) {
    && Disciplined(t) && Restores(t) == 0 && Commits(t) == 0 && StoredBackup(t) == Some(payload)
    && Changes(t) <= 1
    && (reported ==> Changes(t) == 1)
    && (AtRisk(t, exempt) <==> reported && !(fault.Some? && fault.value in exempt))
    && (Submitted(t) ==> reported && !(fault.Some? && fault.value in DEPLOY_EXEMPT))
  }

  lemma TriedNothing(t: Trace, exempt: set<Fault>, payload: Config, fault: Option<Fault>)
    requires Disciplined(t) && Quiet(t) && StoredBackup(t) == Some(payload)
    ensures Tried(t, exempt, payload, false, fault)
  {
    QuietCounts(t, exempt);
  }

  /** A read or a check after the change alters nothing that counts. */
  lemma TriedAndRead(t: Trace, a: Act, exempt: set<Fault>, payload: Config, reported: bool, fault: Option<Fault>)
    requires Tried(t, exempt, payload, reported, fault) &&
      (a.RoutesRead? || a.ReadFailed? || a.Checked? || a.CommitFailed?)
    ensures Tried(After(t, a), exempt, payload, reported, fault)
  {
  }

  lemma TriedToChange(t: Trace, exempt: set<Fault>, payload: Config, groups: bool, reported: bool, submitted: bool,
      fault: Option<Fault>)
    requires Disciplined(t) && Quiet(t) && Compatible(t) && StoredBackup(t) == Some(payload) &&
      (groups ==> PreviewDone(t))
    requires submitted ==> reported && fault != Some(DeviceUnchanged) && fault != Some(OwnershipConflict)
    ensures Tried(After(t, Changed(groups, reported, submitted, fault)), exempt, payload, reported, fault)
  {
    QuietCounts(t, exempt);
  }

  /** The mutation of a reconciliation is empty when the planned change is. */
  lemma IdleExactly(j: Job, seen: seq<Spec>, mutation: RouteMutation, next: Ledger)
    requires j.desired.Some? && Answers(j.ledger, j.q.output, j.desired.value, seen, mutation, next)
    ensures Idle(j, seen) <==> mutation == RouteMutation([], [])
    ensures View(next) == PlannedBook(j, seen) && ChangeView(mutation) == Planned(j, seen) && ValidLedger(next)
  {
    hide View, NextBook, Mutation, DesiredView, ValidLedger;
    if Idle(j, seen) {
      Convergence.OrderedIsDistinct(mutation.upsert);
      Convergence.NothingToDo(mutation);
    }
  }

  /** Read the router, reconcile, and submit the mutation unless it is empty. */
  method ManagedChange(site: Site, ghost j: Job, ghost payload: Config, o: Str, prior: Ledger, desired: seq<Spec>,
      ghost events: seq<AuditEvent>)
    returns (reported: bool, fault: Option<Fault>, mutation: RouteMutation, next: Ledger, ghost seen: Option<seq<Spec>>)
    requires Disciplined(site.trace) && Quiet(site.trace) && Compatible(site.trace)
    requires StoredBackup(site.trace) == Some(payload)
    requires ChangeDue(site.trace, j, events) && Managed(j) && Serves(j, o, prior, desired)
    modifies site`device, site`trace
    ensures Tried(site.trace, Exempt(j), payload, reported, fault)
    ensures seen.None? ==> fault == Some(DeviceUnchanged) && !reported
    ensures seen.Some? ==>
      && ValidLedger(next)
      && View(next) == PlannedBook(j, seen.value) && ChangeView(mutation) == Planned(j, seen.value)
      && FirstRead(site.trace) == seen
      && (reported <==> mutation != RouteMutation([], []))
    ensures var events' := events + [AuditEvent(StageOf(j), fault.None?)];
      if fault.Some? then Failing(site.trace, j, events', Declined(fault.value)) else VerifyDue(site.trace, j, events')
  {
    hide ValidLedger, View, NextBook, Mutation, ChangeView, DesiredView, TableView, ValidCurrent, Ordered, Sorted,
      LabelsOn, OrderedSpecs, OrderedPrefixes, IsHexID, ValidDesiredSpecs, Failing, VerifyDue, WriteDue, ChangeDue,
      Answers, Idle, Planned, PlannedBook, Countable, NextClaims, FirstRead, Audit, Tried, AtRisk, Exempt;
    seen := None;
    mutation, next := RouteMutation([], []), prior;
    ghost var t := site.trace;
    var current := site.CurrentRoutes();
    assert Quiet(site.trace) && Disciplined(site.trace);
    ReadTurn(t, site.trace.act, j, events);
    if current.None? {
      TriedNothing(site.trace, Exempt(j), payload, Some(DeviceUnchanged));
      return false, Some(DeviceUnchanged), mutation, next, seen;
    }
    var r := Reconcile(prior, o, desired, current.value);
    if r.Refused? {
      TriedNothing(site.trace, Exempt(j), payload, Some(DeviceUnchanged));
      return false, Some(DeviceUnchanged), mutation, next, seen;
    }
    mutation, next := r.mutation, r.next;
    seen := current;
    IdleExactly(j, current.value, mutation, next);
    if |mutation.upsert| + |mutation.remove| > 0 {
      ghost var before, submitted := site.trace, false;
      var refused;
      reported, refused, submitted := site.Submit(false, false);
      TriedToChange(before, Exempt(j), payload, false, reported, submitted, refused);
      WriteTurn(before, site.trace.act, j, events);
      return reported, refused, mutation, next, seen;
    }
    assert mutation == RouteMutation([], []);
    TriedNothing(site.trace, Exempt(j), payload, None);
    return false, None, mutation, next, seen;
  }

  /** The job is to send these routes of this output, from this ledger. */
  ghost predicate Serves(j: Job, o: Str, prior: Ledger, desired: seq<Spec>) {
    j.q.output == o && j.ledger == prior && j.desired == Some(desired)
  }

  /** The fresh read that has to justify the next ledger. */
  method ManagedVerify(site: Site, ghost j: Job, ghost payload: Config, ghost reported: bool,
      ghost fault: Option<Fault>, next: Ledger, mutation: RouteMutation, ghost events: seq<AuditEvent>)
    returns (ok: bool)
    requires Tried(site.trace, Exempt(j), payload, reported, fault) && ValidLedger(next)
    requires VerifyDue(site.trace, j, events) && Managed(j) && j.desired.Some? && FirstRead(site.trace).Some?
    requires View(next) == PlannedBook(j, FirstRead(site.trace).value)
    requires ChangeView(mutation) == Planned(j, FirstRead(site.trace).value)
    modifies site`device, site`trace
    ensures Tried(site.trace, Exempt(j), payload, reported, fault)
    ensures ok ==> Allowed(site.trace, RoutesCommitted(next, mutation))
    ensures ok ==> Verified(View(next), ChangeView(mutation), site.device.routes)
    ensures ok ==>
      CommitDue(site.trace, j, events + [AuditEvent(Verify, true)]) &&
      FirstRead(site.trace) == old(FirstRead(site.trace))
    ensures !ok ==> Failing(site.trace, j, events + [AuditEvent(Verify, false)], VerifyFailed)
  {
    hide ValidLedger, View, ChangeView, Verified, TableView, ValidCurrent, NoComplaint, Tried, Failing, VerifyDue,
      CommitDue, Planned, PlannedBook, FirstRead;
    ghost var before := site.trace;
    var current := site.CurrentRoutes();
    TriedAndRead(before, site.trace.act, Exempt(j), payload, reported, fault);
    SecondReadTurn(before, site.trace.act, j, events);
    if current.None? {
      return false;
    }
    ok := VerifyManagedRouteMutation(next, mutation, current.value);
  }

  /** The recovery both lifecycles end with. */
  method Recover(site: Site, ghost j: Job, b: Backup, ghost reported: bool, ghost fault: Option<Fault>,
      events: seq<AuditEvent>, error: Failure)
    returns (r: Report)
    requires Tried(site.trace, Exempt(j), b.payload, reported, fault) && reported &&
      !(fault.Some? && fault.value in Exempt(j))
    requires Failing(site.trace, j, events, error)
    modifies site`device, site`trace
    ensures Accounted(site.trace, Exempt(j), r, site.device)
    ensures Ended(site.trace, j) && Told(r, site.trace, j) && !r.applied && r.error.Some? && site.trace.After?
  {
    hide Failing, Ended, Told;
    ghost var t := site.trace;
    var ok := site.Restore(b);
    FailingRecovers(t, site.trace.act, j, events, error);
    var audit := events + [AuditEvent(Rollback, ok)];
    r := if ok then Report(false, true, audit, Some(error)) else Report(false, false, audit, Some(RollbackFailed));
  }

  /** Refused, or failed without a change that could need recovery. */
  lemma NoRecovery(t: Trace, j: Job, payload: Config, reported: bool, fault: Option<Fault>, events: seq<AuditEvent>,
      error: Failure, device: Config)
    requires Tried(t, Exempt(j), payload, reported, fault) && Failing(t, j, events, error)
    requires !reported || (fault.Some? && fault.value in Exempt(j))
    ensures var r := Report(false, false, events, Some(error));
      Accounted(t, Exempt(j), r, device) && Ended(t, j) && Told(r, t, j) && t.After?
  {
    hide Ended, Told, Protocol, Onward, FailureAt, Audit;
    FailingEnds(t, j, events, error);
  }

  lemma AppliedWithoutLedger(t: Trace, exempt: set<Fault>, payload: Config, reported: bool, fault: Option<Fault>,
      r: Report, device: Config)
    requires Tried(t, exempt, payload, reported, fault) && r.error.None? && r.applied && !r.rolledBack
    ensures Accounted(t, exempt, r, device)
  {
  }

  lemma CommittedLast(t: Trace, a: Act, exempt: set<Fault>, payload: Config, reported: bool, fault: Option<Fault>,
      r: Report, device: Config)
    requires Tried(t, exempt, payload, reported, fault) && Allowed(t, a) && (a.RoutesCommitted? || a.GroupsCommitted?)
    requires r.error.None? && r.applied && !r.rolledBack
    ensures Accounted(After(t, a), exempt, r, device)
  {
  }

  /** What a finished attempt did to the ledgers: nothing, or one commit of the
      reconciliation of what the router showed after the backup. */
  ghost predicate Ledgers(site: Site, o: Str, desired: Option<seq<Spec>>, seen: Option<seq<Spec>>, r: Report,
      ledger: Ledger, groups: map<Str, Groups>, history: seq<Event>)
    reads site
  {
    && (r.error.Some? ==> site.ledger == ledger && site.groups == groups)
    && site.groups - {o} == groups - {o}
    && site.history == (
      if seen.None? || desired.None? then history
      else if r.applied then history + [Committed(o, DesiredView(desired.value), TableView(seen.value))]
      else history + [Failed(o, DesiredView(desired.value), TableView(seen.value))])
  }

  /** The first half of `DeployToDevice`: everything before the backup. */
  method PrepareDeployment(site: Site, d: Deployer, q: Request, desired: Option<seq<Spec>>,
      desiredGroups: Option<Groups>)
    returns (error: Option<Failure>, events: seq<AuditEvent>)
    requires site.trace == Start
    modifies site`device, site`trace
    ensures Disciplined(site.trace) && Quiet(site.trace)
    ensures var j := Job(false, d, q, desired, desiredGroups, site.ledger, true);
      if error.Some? then Ended(site.trace, j) && Told(Report(false, false, events, error), site.trace, j)
      else BackupDue(site.trace, j) && events == Audit(site.trace, StageOf(j), true)
    ensures error.None? ==>
      && Compatible(site.trace)
      && (d.groups ==> PreviewDone(site.trace) && desiredGroups.Some?)
      && (d.routes && q.routeLedger ==> desired.Some?)
    ensures site.trace == Start <==> !(q.composed && q.registered && q.connectable)
    ensures site.trace == Start ==> events == []
    ensures site.trace == Start ==>
      error == Some(if !q.composed then Composition else if !q.registered then Unavailable else ConnectionInvalid)
  {
    hide Disciplined, Quiet, Compatible, PreviewDone, ValidLedger, Protocol, Ended, Told, Audit, BackupDue, PreviewDue;
    ghost var j := Job(false, d, q, desired, desiredGroups, site.ledger, true);
    Begin();
    if !q.composed || !q.registered || !q.connectable {
      StartEnds(j);
      return Some(if !q.composed then Composition else if !q.registered then Unavailable else ConnectionInvalid), [];
    }
    ghost var t := site.trace;
    var probed, compatible := site.Probing();
    QuietStep(t, site.trace.act);
    ProbeTurn(site.trace.act, j);
    events := [AuditEvent(Probe, probed)];
    if !probed {
      return Some(DeployFailed), events;
    }
    if !compatible {
      return Some(Incompatible), events;
    }
    if d.groups {
      if !q.groupLedger || !IsHexID(q.output) {
        return Some(Composition), events;
      }
      if !q.endpoint {
        return Some(Unclassified), events;
      }
      if !q.groupsRead || desiredGroups.None? {
        return Some(Composition), events;
      }
      t := site.trace;
      var previewed := site.PreviewGroups();
      QuietStep(t, site.trace.act);
      PreviewTurn(t, site.trace.act, j);
      if !previewed {
        return Some(DeployFailed), events;
      }
    }
    if d.routes && q.routeLedger {
      if !IsHexID(q.output) || q.scope.None? || !ValidScope(q.scope.value) || !q.routesRead {
        return Some(Composition), events;
      }
      if site.ledger.scope != q.scope.value {
        return Some(Composition), events;
      }
      var valid := ValidateManagedRouteOwnership(site.ledger);
      if !valid || desired.None? {
        return Some(Composition), events;
      }
    }
    return None, events;
  }

  /** `DeployToDevice`. `desired` and `desiredGroups` are what the artifact decodes
      to. The attempt is a whole run of the protocol and is reported as such; no
      device is contacted exactly when the request is refused. It keeps every ordering
      rule, reports success exactly when there is no error, and after a failure has
      made one rollback attempt if and only if a change may have been submitted that
      its own refusal does not rule out. */
  method DeployToDevice(site: Site, d: Deployer, q: Request, desired: Option<seq<Spec>>, desiredGroups: Option<Groups>)
    returns (r: Report, ghost seen: Option<seq<Spec>>)
    requires site.Valid()
    modifies site
    ensures site.Valid() && site.past == old(site.Story())
    ensures Accounted(site.trace, DEPLOY_EXEMPT, r, site.device)
    ensures Ledgers(site, q.output, desired, seen, r, old(site.ledger), old(site.groups), old(site.history))
    ensures var j := Job(false, d, q, desired, desiredGroups, old(site.ledger), true);
      Ended(site.trace, j) && Told(r, site.trace, j)
    ensures site.trace == Start <==> !(q.composed && q.registered && q.connectable)
    ensures site.trace == Start ==> r == Report(false, false, [],
      Some(if !q.composed then Composition else if !q.registered then Unavailable else ConnectionInvalid))
    ensures r.applied && d.routes && q.routeLedger ==> seen.Some? && desired.Some?
    ensures r.applied && d.groups && !(d.routes && q.routeLedger) ==>
      desiredGroups.Some? && site.groups == old(site.groups)[q.output := desiredGroups.value]
    ensures !(d.routes && q.routeLedger) ==> seen.None? && site.ledger == old(site.ledger)
  {
    hide View, BookAfter, Accounted, Disciplined, Tried, Quiet, Compatible, PreviewDone, AtRisk, Changes, Restores,
      Commits, StoredBackup, Submitted, ValidLedger, DesiredView, NextBook, Mutation, Verified, ChangeView, Allowed,
      Protocol, Ended, Told, Audit, BackupDue, ChangeDue, Onward, FailureAt, RefusedWith;
    site.Begin();
    seen := None;
    ghost var j := Job(false, d, q, desired, desiredGroups, site.ledger, true);
    var prior := site.ledger;
    var error, events := PrepareDeployment(site, d, q, desired, desiredGroups);
    if error.Some? {
      r := Report(false, false, events, error);
      QuietRefusal(site.trace, DEPLOY_EXEMPT, r, site.device);
      return;
    }
    var backup;
    backup, events := site.StoreVerifiedBackup(events, j);
    if backup.None? {
      r := Report(false, false, events, Some(BackupRequired));
      QuietRefusal(site.trace, DEPLOY_EXEMPT, r, site.device);
      return;
    }
    if d.routes && q.routeLedger {
      r, seen := FinishManaged(site, j, DEPLOY_EXEMPT, Stage.Change, q.output, prior, desired.value, backup.value,
        events);
    } else {
      r := FinishPlain(site, j, DEPLOY_EXEMPT, Stage.Change, d, q.output, desiredGroups, backup.value, events);
      assert site.groups - {q.output} == old(site.groups) - {q.output};
    }
  }

  lemma Begin()
    ensures Disciplined(Start) && Quiet(Start)
  {
  }

  lemma QuietStep(t: Trace, a: Act)
    requires Disciplined(t) && Quiet(t) && (a.Probed? || a.Previewed?)
    ensures Disciplined(After(t, a)) && Quiet(After(t, a))
    ensures Compatible(After(t, a)) == (a == Probed(true, true) || Compatible(t))
    ensures PreviewDone(After(t, a)) == (a == Previewed(true) || PreviewDone(t))
  {
  }

  /** The managed-route half: from the backup to the end. */
  method FinishManaged(site: Site, ghost j: Job, exempt: set<Fault>, stage: Stage, o: Str, prior: Ledger,
      desired: seq<Spec>, b: Backup, before: seq<AuditEvent>)
    returns (r: Report, ghost seen: Option<seq<Spec>>)
    requires site.Valid() && prior == site.ledger && exempt == Exempt(j) && stage == StageOf(j)
    requires Disciplined(site.trace) && Quiet(site.trace) && Compatible(site.trace)
    requires StoredBackup(site.trace) == Some(b.payload)
    requires ChangeDue(site.trace, j, before) && Managed(j) && Serves(j, o, prior, desired)
    modifies site`device, site`trace, site`ledger, site`history
    ensures site.Valid()
    ensures Accounted(site.trace, exempt, r, site.device)
    ensures Ended(site.trace, j) && Told(r, site.trace, j) && site.trace.After?
    ensures Ledgers(site, o, Some(desired), seen, r, old(site.ledger), old(site.groups), old(site.history))
    ensures r.applied ==>
      seen.Some? && ValidLedger(site.ledger) &&
      View(site.ledger) == NextBook(View(prior), o, DesiredView(desired), TableView(seen.value))
    ensures r.applied ==>
      Verified(View(site.ledger), Mutation(View(prior), o, DesiredView(desired), TableView(seen.value)),
        site.device.routes)
    ensures site.groups == old(site.groups) && (r.applied <==> r.error.None?)
  {
    hide View, BookAfter, Accounted, Disciplined, Tried, Quiet, Compatible, PreviewDone, AtRisk, Changes, Restores,
      Commits, StoredBackup, Submitted, ValidLedger, DesiredView, NextBook, Mutation, Verified, ChangeView, Allowed,
      ChangeDue, VerifyDue, CommitDue, Failing, Ended, Told, TableView, Exempt, StageOf, FirstRead;
    var reported, fault, mutation, next;
    reported, fault, mutation, next, seen := ManagedChange(site, j, b.payload, o, prior, desired, before);
    ghost var h := site.history;
    if seen.Some? {
      site.history := h + [Failed(o, DesiredView(desired), TableView(seen.value))];
      HistoryGrows(h, site.history[|h|]);
    }
    var events := before + [AuditEvent(stage, fault.None?)];
    if fault.Some? && fault.value in exempt {
      r := Report(false, false, events, Some(Declined(fault.value)));
      NoRecovery(site.trace, j, b.payload, reported, fault, events, Declined(fault.value), site.device);
      return;
    }
    var error := if fault.Some? then Declined(fault.value) else DeployFailed;
    if fault.None? {
      ghost var e := events;
      var verified := ManagedVerify(site, j, b.payload, reported, fault, next, mutation, e);
      events := events + [AuditEvent(Verify, verified)];
      if verified {
        ghost var t, e := site.trace, events;
        var persisted := site.ReplaceRoutes(next, mutation);
        CommitTurn(t, site.trace.act, j, e);
        events := events + [AuditEvent(Ownership, persisted)];
        if persisted {
          site.history := h + [Committed(o, DesiredView(desired), TableView(seen.value))];
          HistoryGrows(h, site.history[|h|]);
          r := Report(true, false, events, None);
          CommittedLast(t, site.trace.act, exempt, b.payload, reported, fault, r, site.device);
          return;
        }
        TriedAndRead(t, site.trace.act, exempt, b.payload, reported, fault);
        error := OwnershipPersist;
      } else {
        error := VerifyFailed;
      }
    }
    if !reported {
      r := Report(false, false, events, Some(error));
      NoRecovery(site.trace, j, b.payload, reported, fault, events, error, site.device);
      return;
    }
    r := Recover(site, j, b, reported, fault, events, error);
  }

  lemma HistoryGrows(h: seq<Event>, e: Event)
    ensures BookAfter(h + [e]) == Recorded(BookAfter(h), e)
  {
    assert (h + [e])[..|h + [e]| - 1] == h;
  }

  /** Every other deployer: FQDN groups with their own ledger, or no ledger. */
  method FinishPlain(site: Site, ghost j: Job, exempt: set<Fault>, stage: Stage, d: Deployer, o: Str,
      groups: Option<Groups>, b: Backup, before: seq<AuditEvent>)
    returns (r: Report)
    requires (d.groups ==> groups.Some? && PreviewDone(site.trace)) && exempt == Exempt(j) && stage == StageOf(j)
    requires Disciplined(site.trace) && Quiet(site.trace) && Compatible(site.trace)
    requires StoredBackup(site.trace) == Some(b.payload)
    requires ChangeDue(site.trace, j, before) && !Managed(j) && d.groups == j.d.groups && d.reporting == Reports(j)
    modifies site`device, site`trace, site`groups
    ensures Accounted(site.trace, exempt, r, site.device)
    ensures Ended(site.trace, j) && Told(r, site.trace, j) && site.trace.After?
    ensures r.applied <==> r.error.None?
    ensures site.groups == if r.applied && d.groups then old(site.groups)[o := groups.value] else old(site.groups)
  {
    hide Accounted, Disciplined, Tried, Quiet, Compatible, PreviewDone, AtRisk, Changes, Restores, Commits,
      StoredBackup, Submitted, ChangeDue, VerifyDue, CommitDue, Failing, Ended, Told, Exempt, StageOf;
    ghost var t := site.trace;
    ghost var submitted;
    var reported, fault;
    reported, fault, submitted := site.Submit(d.groups, d.reporting);
    TriedToChange(t, exempt, b.payload, d.groups, reported, submitted, fault);
    PlainTurn(t, site.trace.act, j, before);
    var events := before + [AuditEvent(stage, fault.None?)];
    if fault.Some? && fault.value in exempt {
      r := Report(false, false, events, Some(Declined(fault.value)));
      NoRecovery(site.trace, j, b.payload, reported, fault, events, Declined(fault.value), site.device);
      return;
    }
    var error := if fault.Some? then Declined(fault.value) else DeployFailed;
    if fault.None? {
      t := site.trace;
      var verified := site.Check();
      TriedAndRead(t, site.trace.act, exempt, b.payload, reported, fault);
      CheckTurn(t, site.trace.act, j, events);
      events := events + [AuditEvent(Verify, verified)];
      if verified {
        if !d.groups {
          r := Report(true, false, events, None);
          AppliedWithoutLedger(site.trace, exempt, b.payload, reported, fault, r, site.device);
          return;
        }
        t := site.trace;
        var persisted := site.ReplaceGroups(o, groups.value);
        CommitTurn(t, site.trace.act, j, events);
        events := events + [AuditEvent(Ownership, persisted)];
        if persisted {
          r := Report(true, false, events, None);
          CommittedLast(t, site.trace.act, exempt, b.payload, reported, fault, r, site.device);
          return;
        }
        TriedAndRead(t, site.trace.act, exempt, b.payload, reported, fault);
        error := OwnershipPersist;
      } else {
        error := VerifyFailed;
      }
    }
    if !reported {
      r := Report(false, false, events, Some(error));
      NoRecovery(site.trace, j, b.payload, reported, fault, events, error, site.device);
      return;
    }
    r := Recover(site, j, b, reported, fault, events, error);
  }

  // -------------------------------------------------------------- a removal

  predicate NothingOwned(l: Ledger, groups: map<Str, Groups>, d: Deployer, o: Str) {
    if d.groups then o !in groups || groups[o] == []
    else forall i :: 0 <= i < |l.claims| ==> l.claims[i].output != o
  }

  /** `removal.nothingOwned`. */
  method FindNothingOwned(site: Site, d: Deployer, o: Str) returns (none: bool)
    ensures none <==> NothingOwned(site.ledger, site.groups, d, o)
  {
    if d.groups {
      return o !in site.groups || |site.groups[o]| == 0;
    }
    for i := 0 to |site.ledger.claims|
      invariant forall k :: 0 <= k < i ==> site.ledger.claims[k].output != o
    {
      if site.ledger.claims[i].output == o {
        return false;
      }
    }
    return true;
  }

  /** The removal of what one output owns on this surface. */
  function Removal(l: Ledger, groups: map<Str, Groups>, d: Deployer, q: Request): Job {
    Job(true, d, q, Some([]), Some([]), l, !NothingOwned(l, groups, d, q.output))
  }

  /** `prepareRemoval`: `none` means that nothing has to be removed, and then no
      device was contacted. */
  method PrepareRemoval(site: Site, d: Deployer, q: Request)
    returns (error: Option<Failure>, none: bool, events: seq<AuditEvent>)
    requires site.trace == Start
    modifies site`device, site`trace
    ensures Disciplined(site.trace) && Quiet(site.trace)
    ensures error.None? && !none ==> Compatible(site.trace) && (d.groups ==> PreviewDone(site.trace))
    ensures var j := Removal(site.ledger, site.groups, d, q);
      if error.Some? then Ended(site.trace, j) && Told(Report(false, false, events, error), site.trace, j)
      else if none then Ended(site.trace, j) && Told(Report(true, false, events, None), site.trace, j)
      else BackupDue(site.trace, j) && events == Audit(site.trace, StageOf(j), true)
    ensures error.None? ==>
      && IsHexID(q.output) && q.composed && q.registered && q.connectable
      && (if d.groups then d.remover && q.groupLedger && q.endpoint && q.groupsRead
          else
            && d.routes && q.routeLedger && q.routesRead && ValidLedger(site.ledger)
            && q.scope == Some(site.ledger.scope) && ValidScope(site.ledger.scope))
      && none == NothingOwned(site.ledger, site.groups, d, q.output)
    ensures none ==> error.None? && site.trace == Start && events == [] && site.device == old(site.device)
  {
    hide ValidLedger, Protocol, Ended, Told, Audit, BackupDue, PreviewDue, NothingOwned, Disciplined, Quiet;
    ghost var j := Removal(site.ledger, site.groups, d, q);
    events := [];
    none := false;
    Begin();
    if RefusedWith(j).Some? {
      StartEnds(j);
    }
    if !q.composed || !IsHexID(q.output) {
      return Some(Composition), none, events;
    }
    if !q.registered {
      return Some(Unavailable), none, events;
    }
    if !q.connectable {
      return Some(ConnectionInvalid), none, events;
    }
    if d.groups {
      if !d.remover || !q.groupLedger {
        return Some(RemovalUnsupported), none, events;
      }
      if !q.endpoint {
        return Some(ConnectionInvalid), none, events;
      }
      if !q.groupsRead {
        return Some(Composition), none, events;
      }
    } else if d.routes {
      if !q.routeLedger {
        return Some(RemovalUnsupported), none, events;
      }
      if q.scope.None? || !ValidScope(q.scope.value) || !q.routesRead || site.ledger.scope != q.scope.value {
        return Some(Composition), none, events;
      }
      var valid := ValidateManagedRouteOwnership(site.ledger);
      if !valid {
        return Some(Composition), none, events;
      }
    } else {
      return Some(RemovalUnsupported), none, events;
    }
    none := FindNothingOwned(site, d, q.output);
    if none {
      NothingToRemoveEnds(j);
      return None, none, events;
    }
    ghost var t0 := site.trace;
    var probed, compatible := site.Probing();
    QuietStep(t0, site.trace.act);
    ProbeTurn(site.trace.act, j);
    events := events + [AuditEvent(Probe, probed)];
    assert events == [AuditEvent(Probe, probed)];
    if !probed {
      return Some(DeployFailed), none, events;
    }
    if !compatible {
      return Some(Incompatible), none, events;
    }
    if d.groups {
      ghost var t := site.trace;
      var previewed := site.PreviewGroups();
      QuietStep(t, site.trace.act);
      PreviewTurn(t, site.trace.act, j);
      if !previewed {
        return Some(DeployFailed), none, events;
      }
    }
    return None, none, events;
  }

  /** `RemoveFromDevice`. As for a deployment; an output that owns nothing is
      removed without contacting the device, and a removal commits the send of no
      desired routes. */
  method RemoveFromDevice(site: Site, d: Deployer, q: Request) returns (r: Report, ghost seen: Option<seq<Spec>>)
    requires site.Valid()
    modifies site
    ensures site.Valid() && site.past == old(site.Story())
    ensures Accounted(site.trace, REMOVE_EXEMPT, r, site.device)
    ensures Ledgers(site, q.output, Some([]), seen, r, old(site.ledger), old(site.groups), old(site.history))
    ensures var j := Removal(old(site.ledger), old(site.groups), d, q);
      Ended(site.trace, j) && Told(r, site.trace, j)
    ensures r.applied && NothingOwned(old(site.ledger), old(site.groups), d, q.output) ==>
      site.trace == Start && site.device == old(site.device) && site.ledger == old(site.ledger) &&
      site.groups == old(site.groups)
    ensures r.applied ==> NothingOwned(site.ledger, site.groups, d, q.output)
    ensures StayEmpty(old(site.ledger), old(site.groups), site.ledger, site.groups)
  {
    hide View, BookAfter, Accounted, Disciplined, Tried, Quiet, Compatible, PreviewDone, AtRisk, Changes, Restores,
      Commits, StoredBackup, Submitted, ValidLedger, DesiredView, NextBook, Mutation, Verified, ChangeView, Allowed,
      NothingOwned, StayEmpty, Protocol, Ended, Told, Audit, BackupDue, ChangeDue;
    site.Begin();
    seen := None;
    ghost var j := Removal(site.ledger, site.groups, d, q);
    SameStaysEmpty(site.ledger, site.groups, q.output);
    var error, none, events := PrepareRemoval(site, d, q);
    if error.Some? {
      r := Report(false, false, events, error);
      QuietRefusal(site.trace, REMOVE_EXEMPT, r, site.device);
      return;
    }
    if none {
      r := Report(true, false, events, None);
      NothingDone(r, site.device);
      return;
    }
    var prior := site.ledger;
    var backup;
    backup, events := site.StoreVerifiedBackup(events, j);
    if backup.None? {
      r := Report(false, false, events, Some(BackupRequired));
      QuietRefusal(site.trace, REMOVE_EXEMPT, r, site.device);
      return;
    }
    if d.groups {
      r := FinishPlain(site, j, REMOVE_EXEMPT, Stage.Remove, d.(reporting := true), q.output, Some([]), backup.value,
        events);
      assert site.groups - {q.output} == old(site.groups) - {q.output};
      if r.applied {
        GroupsGone(site.ledger, site.groups, d, q.output);
      }
    } else {
      r, seen := FinishManaged(site, j, REMOVE_EXEMPT, Stage.Remove, q.output, prior, [], backup.value, events);
      if r.applied {
        ClaimsGone(prior, site.ledger, site.groups, q.output, TableView(seen.value));
      }
    }
  }

  /** Whatever owned nothing before owns nothing now. */
  ghost predicate StayEmpty(l: Ledger, groups: map<Str, Groups>, l': Ledger, groups': map<Str, Groups>) {
    forall d: Deployer, o: Str :: NothingOwned(l, groups, d, o) ==> NothingOwned(l', groups', d, o)
  }

  lemma SameStaysEmpty(l: Ledger, groups: map<Str, Groups>, o: Str)
    ensures StayEmpty(l, groups, l, groups) && StayEmpty(l, groups, l, groups[o := []])
  {
  }

  ghost function Owners(claims: Claims): set<Str> {
    set k | k in claims :: k.0
  }

  lemma OwnersOf(l: Ledger, o: Str)
    requires ValidLedger(l)
    ensures o in Owners(View(l).claims) <==> !NothingOwned(l, map[], Deployer(true, false, false, false), o)
  {
    hide RouteView, ClaimView, ValidRoutes, Agrees, WellFormedClaim, ValidScope;
    ClaimViewOf(l.claims);
    if o in Owners(View(l).claims) {
      var k :| k in View(l).claims && k.0 == o;
      var c :| c in l.claims && (c.output, c.prefix) == k;
    }
    forall i | 0 <= i < |l.claims| ensures l.claims[i].output in Owners(View(l).claims) {
      assert l.claims[i] in l.claims;
      assert (l.claims[i].output, l.claims[i].prefix) in View(l).claims;
    }
  }

  lemma OwnersAfter(claims: Claims, o: Str)
    ensures Owners(NextClaims(claims, o, map[])) == Owners(claims) - {o}
  {
    hide NextClaims;
    var next := NextClaims(claims, o, map[]);
    NextClaimsOf(claims, o, map[]);
    forall q | q in Owners(next) ensures q in Owners(claims) - {o} {
      var k :| k in next && k.0 == q;
      assert k == (k.0, k.1);
    }
    forall q | q in Owners(claims) - {o} ensures q in Owners(next) {
      var k :| k in claims && k.0 == q;
      assert k == (k.0, k.1);
      assert k in next;
    }
  }

  /** A send of nothing leaves the output without claims, and gives none to others. */
  lemma ClaimsGone(prior: Ledger, next: Ledger, groups: map<Str, Groups>, o: Str, t: Table)
    requires ValidLedger(prior) && ValidLedger(next) && View(next) == NextBook(View(prior), o, DesiredView([]), t)
    ensures forall d: Deployer :: !d.groups ==> NothingOwned(next, groups, d, o)
    ensures StayEmpty(prior, groups, next, groups)
  {
    hide ValidLedger, View, Owners, NextClaims;
    OwnersAfter(View(prior).claims, o);
    assert DesiredView([]) == map[];
    OwnersOf(next, o);
    forall d: Deployer, x: Str | NothingOwned(prior, groups, d, x) ensures NothingOwned(next, groups, d, x) {
      OwnersOf(prior, x);
      OwnersOf(next, x);
    }
  }

  lemma NothingDone(r: Report, device: Config)
    requires r.applied && r.error.None? && !r.rolledBack
    ensures Accounted(Start, REMOVE_EXEMPT, r, device)
  {
  }

  lemma GroupsGone(l: Ledger, groups: map<Str, Groups>, d: Deployer, o: Str)
    requires d.groups && o in groups && groups[o] == []
    ensures NothingOwned(l, groups, d, o)
  {
  }

  /** Whatever sends, failures and edits came before, the next send from this site
      removes or rewrites only routes that the site's history earned. */
  lemma SiteAuthority(site: Site, o: Str, desired: Desired, observed: Table, p: Net.Prefix)
    requires site.Valid()
    ensures var c := Mutation(View(site.ledger), o, desired, observed);
      p in c.remove || (p in c.upsert && p in observed) ==> Earned(site.history, p)
  {
    hide View, BookAfter, Mutation, Earned;
    var c := Mutation(View(site.ledger), o, desired, observed);
    if p in c.remove || (p in c.upsert && p in observed) {
      AuthorityOverRoutes(site.history, o, desired, observed, p);
    }
  }
}
