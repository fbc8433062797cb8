/** What a device and the stores see of one deployment or removal, in which order it may
    happen, and which whole attempts there are: every step that has its turn, no step
    out of turn, and what is reported at each end. internal/application/deploy.go and
    device_removal.go. */
module DeviceTrace {
  import opened Text
  import opened RouteLabels
  import opened RouteLedger
  import opened ManagedRoutes
  import opened Reconciliation
  import opened Wrappers

  // The routes Routevane manages, and everything else a device holds.
  datatype Config = Config(routes: Table, rest: Str)

  // Contents of FQDN groups are not modelled.
  type Groups = seq<Str>

  datatype Backup = Backup(payload: Config, bytes: nat)

  datatype BackupRef = BackupRef(id: Str, path: Str, hash: Str, size: int, dated: bool) {
    predicate Verified() {
      id != [] && path != [] && hash != [] && size > 0 && dated
    }
  }

  /** A stored backup can be used when nothing about it is missing. */
  lemma VerifiedParts(r: BackupRef)
    ensures r.Verified() <==> [] !in {r.id, r.path, r.hash} && r.size >= 1 && r.dated
  {
  }

  // What `errors.Is` can tell about a refused change.
  datatype Fault = DeviceUnchanged | OwnershipConflict | OtherFault

  // The last one is an error of the deployer that is passed on as it is.
  datatype Failure =
    | Composition | Unavailable | Incompatible | BackupRequired | ConnectionInvalid | Declined(fault: Fault)
    | DeployFailed | VerifyFailed | OwnershipPersist | RollbackFailed | RemovalUnsupported | Unclassified

  datatype Stage = Probe | Preview | TakeBackup | Change | Remove | Verify | Ownership | Rollback

  datatype AuditEvent = AuditEvent(stage: Stage, success: bool)

  datatype Report = Report(applied: bool, rolledBack: bool, events: seq<AuditEvent>, error: Option<Failure>)

  /** What a deployer can do besides the plain contract. */
  datatype Deployer = Deployer(routes: bool, groups: bool, remover: bool, reporting: bool)

  // What is known of a request, and whether the two ledgers could be read.
  datatype Request = Request(composed: bool, registered: bool, connectable: bool, output: Str, scope: Option<Scope>,
    endpoint: bool, routeLedger: bool, groupLedger: bool, routesRead: bool, groupsRead: bool)

  // -------------------------------------------------------------- what happened

  /** A step the device or a store saw. A change is of FQDN `groups` or not, is
      `reported` when the deployer says that it may have written, and `submitted`
      when it did. */
  datatype Act =
    | Probed(ok: bool, compatible: bool)
    | Previewed(ok: bool)
    | BackedUp(size: Option<nat>)
    | StoreFailed
    | Stored(payload: Config, verified: bool)
    | RoutesRead(specs: seq<Spec>)
    | ReadFailed
    | Changed(groups: bool, reported: bool, submitted: bool, fault: Option<Fault>)
    | Checked(ok: bool)
    | RoutesCommitted(next: Ledger, mutation: RouteMutation)
    | GroupsCommitted
    | CommitFailed
    | Restored(payload: Config, ok: bool)

  datatype Trace = Start | After(before: Trace, act: Act)

  /** The payload of the last stored backup that could be read back. */
  function StoredBackup(t: Trace): Option<Config> {
    match t
    case Start => None
    case After(b, Stored(payload, true)) => Some(payload)
    case After(b, _) => StoredBackup(b)
  }

  /** The device said that it runs a firmware that takes the format. */
  predicate Compatible(t: Trace) {
    t.After? && (t.act == Probed(true, true) || Compatible(t.before))
  }

  /** A read-only preview of the change went through. */
  predicate PreviewDone(t: Trace) {
    t.After? && (t.act == Previewed(true) || PreviewDone(t.before))
  }

  function Changes(t: Trace): nat {
    if t.Start? then 0 else Changes(t.before) + if t.act.Changed? then 1 else 0
  }

  function Restores(t: Trace): nat {
    if t.Start? then 0 else Restores(t.before) + if t.act.Restored? then 1 else 0
  }

  function Commits(t: Trace): nat {
    if t.Start? then 0 else Commits(t.before) + if t.act.RoutesCommitted? || t.act.GroupsCommitted? then 1 else 0
  }

  predicate Submitted(t: Trace) {
    t.After? && ((t.act.Changed? && t.act.submitted) || Submitted(t.before))
  }

  /** A change that may have reached the device, unless its refusal says it did not. */
  predicate AtRisk(t: Trace, exempt: set<Fault>) {
    t.After? &&
    (AtRisk(t.before, exempt) ||
     (t.act.Changed? && t.act.reported && !(t.act.fault.Some? && t.act.fault.value in exempt)))
  }

  /** Nothing has been written anywhere yet. */
  predicate Quiet(t: Trace) {
    t.Start? ||
    (Quiet(t.before) && !t.act.Changed? && !t.act.Restored? && !t.act.RoutesCommitted? && !t.act.GroupsCommitted?)
  }

  lemma {:induction false} QuietCounts(t: Trace, exempt: set<Fault>)
    requires Quiet(t)
    ensures Changes(t) == 0 && Restores(t) == 0 && Commits(t) == 0 && !Submitted(t) && !AtRisk(t, exempt)
  {
    if t.After? {
      QuietCounts(t.before, exempt);
    }
  }

  /** The ordering rules of the lifecycle: what must have happened before. */
  ghost predicate Allowed(before: Trace, a: Act) {
    match a
    case BackedUp(_) => Compatible(before)
    case Changed(groups, _, _, _) =>
      Compatible(before) && StoredBackup(before).Some? && Changes(before) == 0 && (groups ==> PreviewDone(before))
    case RoutesCommitted(next, mutation) =>
      && before.After? && before.act.RoutesRead?
      && ValidCurrent(before.act.specs)
      && Verified(View(next), ChangeView(mutation), TableView(before.act.specs))
    case GroupsCommitted => before.After? && before.act == Checked(true)
    case Restored(payload, _) =>
      Changes(before) == 1 && Restores(before) == 0 && Commits(before) == 0 && StoredBackup(before) == Some(payload)
    case _ => true
  }

  ghost predicate Disciplined(t: Trace) {
    t.Start? || (Disciplined(t.before) && Allowed(t.before, t.act))
  }

  lemma DisciplinedStep(t: Trace, a: Act)
    requires Disciplined(t) && Allowed(t, a)
    ensures Disciplined(After(t, a))
  {
  }

  predicate Within(part: Trace, t: Trace) {
    part == t || (t.After? && Within(part, t.before))
  }

  /** In a disciplined attempt no backup is taken and nothing is changed before the
      firmware was found compatible, every change comes after a stored, verified
      backup and, for FQDN groups, after a preview, every ledger commit comes right
      after the read that justifies it, and a rollback restores that same backup. */
  lemma {:induction false} OrderHolds(part: Trace, t: Trace)
    requires Disciplined(t) && Within(part, t) && part.After?
    ensures Allowed(part.before, part.act)
    decreases t
  {
    if part != t {
      OrderHolds(part, t.before);
    }
  }

  // -------------------------------------------------------------- the protocol

  /** A deployment or a removal, with everything that decides its course besides the
      answers on the trace. A removal desires nothing; `owns` says that the output owns
      something on the surface. */
  datatype Job = Job(removal: bool, d: Deployer, q: Request, desired: Option<seq<Spec>>, groups: Option<Groups>,
    ledger: Ledger, owns: bool)

  const DEPLOY_EXEMPT := {DeviceUnchanged, OwnershipConflict}
  const REMOVE_EXEMPT := {DeviceUnchanged}

  predicate Managed(j: Job) {
    if j.removal then !j.d.groups else j.d.routes && j.q.routeLedger
  }

  /** The deployer says of its own change whether it may have written. */
  predicate Reports(j: Job) {
    !Managed(j) && (j.removal || j.d.reporting)
  }

  function Exempt(j: Job): set<Fault> {
    if j.removal then REMOVE_EXEMPT else DEPLOY_EXEMPT
  }

  function StageOf(j: Job): Stage {
    if j.removal then Stage.Remove else Stage.Change
  }

  /** The route ledger is the one of this surface and can be used. */
  ghost predicate RoutesUsable(j: Job) {
    && j.q.scope.Some? && ValidScope(j.q.scope.value) && j.q.routesRead
    && j.ledger.scope == j.q.scope.value && ValidLedger(j.ledger)
  }

  /** Why the request is refused before any device is contacted. */
  ghost function RefusedWith(j: Job): Option<Failure> {
    if !j.q.composed || (j.removal && !IsHexID(j.q.output)) then Some(Composition)
    else if !j.q.registered then Some(Unavailable)
    else if !j.q.connectable then Some(ConnectionInvalid)
    else if !j.removal then None
    else if j.d.groups then
      if !j.d.remover || !j.q.groupLedger then Some(RemovalUnsupported)
      else if !j.q.endpoint then Some(ConnectionInvalid)
      else if !j.q.groupsRead then Some(Composition)
      else None
    else if !j.d.routes || !j.q.routeLedger then Some(RemovalUnsupported)
    else if !RoutesUsable(j) then Some(Composition)
    else None
  }

  /** A removal of nothing is done before it starts. */
  ghost predicate Admitted(j: Job) {
    RefusedWith(j).None? && (j.removal ==> j.owns)
  }

  /** What stops a deployment of FQDN groups once the firmware is known. */
  function GroupsBlocked(j: Job): Option<Failure> {
    if !j.q.groupLedger || !IsHexID(j.q.output) then Some(Composition)
    else if !j.q.endpoint then Some(Unclassified)
    else if !j.q.groupsRead || j.groups.None? then Some(Composition)
    else None
  }

  /** What stops a deployment of managed routes before the backup. */
  ghost function RoutesBlocked(j: Job): Option<Failure> {
    if Managed(j) && (!IsHexID(j.q.output) || !RoutesUsable(j) || j.desired.None?) then Some(Composition) else None
  }

  ghost function BlockedAfterProbe(j: Job): Option<Failure> {
    if j.removal then None else if j.d.groups then GroupsBlocked(j) else RoutesBlocked(j)
  }

  ghost function BlockedAfterPreview(j: Job): Option<Failure> {
    if j.removal then None else RoutesBlocked(j)
  }

  predicate Reading(a: Act) {
    a.RoutesRead? || a.ReadFailed?
  }

  function Reads(t: Trace): nat {
    if t.Start? then 0 else Reads(t.before) + if Reading(t.act) then 1 else 0
  }

  /** What the router showed when the change was planned. */
  function FirstRead(t: Trace): Option<seq<Spec>> {
    if t.Start? then None
    else if FirstRead(t.before).Some? then FirstRead(t.before)
    else if t.act.RoutesRead? then Some(t.act.specs) else None
  }

  /** The first read can be reconciled. With more labels on one prefix than a slice can
      hold it still may be refused. */
  ghost predicate Plannable(j: Job, seen: seq<Spec>, sure: bool) {
    && j.desired.Some? && Acceptable(j.ledger, j.q.output, j.desired.value, seen)
    && (sure ==> Countable(NextClaims(View(j.ledger).claims, j.q.output, DesiredView(j.desired.value))))
  }

  ghost function Planned(j: Job, seen: seq<Spec>): RouteLedger.Change
    requires j.desired.Some?
  {
    Mutation(View(j.ledger), j.q.output, DesiredView(j.desired.value), TableView(seen))
  }

  ghost function PlannedBook(j: Job, seen: seq<Spec>): Book
    requires j.desired.Some?
  {
    NextBook(View(j.ledger), j.q.output, DesiredView(j.desired.value), TableView(seen))
  }

  ghost predicate Idle(j: Job, seen: seq<Spec>) {
    j.desired.Some? && Planned(j, seen) == RouteLedger.Change(map[], {})
  }

  /** The second read shows what was planned on the first. */
  ghost predicate Confirmed(j: Job, planned: Option<seq<Spec>>, seen: seq<Spec>) {
    && j.desired.Some? && planned.Some? && ValidCurrent(seen)
    && Verified(PlannedBook(j, planned.value), Planned(j, planned.value), TableView(seen))
  }

  /** After these answers the attempt goes on. (`sure` leaves out the one case in which
      it may also stop.) */
  ghost predicate Onward(t: Trace, j: Job, sure: bool) {
    match t
    case Start => Admitted(j)
    case After(b, Probed(ok, compatible)) => ok && compatible && BlockedAfterProbe(j).None?
    case After(b, Previewed(ok)) => ok && BlockedAfterPreview(j).None?
    case After(b, BackedUp(size)) => size.Some? && size.value > 0
    case After(b, Stored(_, verified)) => verified
    case After(b, RoutesRead(seen)) =>
      if Reads(b) == 0 then Plannable(j, seen, sure) else Confirmed(j, FirstRead(b), seen)
    case After(b, Changed(_, _, _, fault)) => fault.None?
    case After(b, Checked(ok)) => ok && j.d.groups
    case _ => false
  }

  /** Which step comes next. */
  ghost predicate Fitting(b: Trace, a: Act, j: Job) {
    match a
    case Probed(_, _) => b.Start?
    case Previewed(_) => b.After? && b.act.Probed? && j.d.groups
    case BackedUp(_) => b.After? && if j.d.groups then b.act.Previewed? else b.act.Probed?
    case StoreFailed => b.After? && b.act.BackedUp?
    case Stored(_, _) => b.After? && b.act.BackedUp?
    case Changed(groups, reported, _, _) =>
      && b.After? && groups == (!Managed(j) && j.d.groups) && (Reports(j) || reported)
      && if Managed(j) then b.act.RoutesRead? && Reads(b) == 1 && !Idle(j, b.act.specs) else b.act.Stored?
    case Checked(_) => b.After? && b.act.Changed? && !Managed(j)
    case RoutesCommitted(next, _) =>
      && b.After? && b.act.RoutesRead? && Managed(j) && Reads(b) == 2
      && j.desired.Some? && FirstRead(b).Some? && View(next) == PlannedBook(j, FirstRead(b).value)
    case GroupsCommitted => b.After? && b.act.Checked? && !Managed(j)
    case CommitFailed =>
      b.After? && if Managed(j) then b.act.RoutesRead? && Reads(b) == 2 else b.act.Checked?
    case Restored(_, _) => false
    case _ =>
      && b.After? && Managed(j)
      && (b.act.Stored? || b.act.Changed? || (b.act.RoutesRead? && Reads(b) == 1 && Idle(j, b.act.specs)))
  }

  /** A failure that may have changed the device is followed by one recovery. */
  ghost predicate Recovers(t: Trace, j: Job) {
    !Onward(t, j, true) && FailureAt(t, j).Some? && t.After? && !t.act.Restored? && AtRisk(t, Exempt(j))
  }

  ghost predicate Turn(b: Trace, a: Act, j: Job) {
    if a.Restored? then Recovers(b, j) else Onward(b, j, false) && Fitting(b, a, j)
  }

  ghost predicate Protocol(t: Trace, j: Job) {
    t.Start? || (Protocol(t.before, j) && Turn(t.before, t.act, j))
  }

  /** A whole attempt: every step had its turn, and it stopped because nothing else had. */
  ghost predicate Ended(t: Trace, j: Job) {
    Protocol(t, j) && !Onward(t, j, true) && !Recovers(t, j)
  }

  /** How an attempt fails that ends here; nothing is success. */
  ghost function FailureAt(t: Trace, j: Job): Option<Failure> {
    match t
    case Start => RefusedWith(j)
    case After(b, Probed(ok, compatible)) =>
      if !ok then Some(DeployFailed) else if !compatible then Some(Incompatible) else BlockedAfterProbe(j)
    case After(b, Previewed(ok)) => if ok then BlockedAfterPreview(j) else Some(DeployFailed)
    case After(b, BackedUp(_)) => Some(BackupRequired)
    case After(b, StoreFailed) => Some(BackupRequired)
    case After(b, Stored(_, _)) => Some(BackupRequired)
    case After(b, RoutesRead(_)) => Some(if Reads(b) == 0 then Declined(DeviceUnchanged) else VerifyFailed)
    case After(b, ReadFailed) => Some(if Reads(b) == 0 then Declined(DeviceUnchanged) else VerifyFailed)
    case After(b, Changed(_, _, _, fault)) => if fault.Some? then Some(Declined(fault.value)) else None
    case After(b, Checked(ok)) => if ok then None else Some(VerifyFailed)
    case After(b, CommitFailed) => Some(OwnershipPersist)
    case After(b, Restored(_, ok)) => if ok then FailureAt(b, j) else Some(RollbackFailed)
    case _ => None
  }

  /** The audited steps: `on` says that the attempt went on after the last read. */
  function Audit(t: Trace, stage: Stage, on: bool): seq<AuditEvent> {
    if t.Start? then []
    else
      match t.act
      case Probed(ok, _) => Audit(t.before, stage, true) + [AuditEvent(Probe, ok)]
      case BackedUp(size) => Audit(t.before, stage, true) + [AuditEvent(TakeBackup, size.Some?)]
      case Changed(_, _, _, fault) =>
        var planned := t.before.After? && Reading(t.before.act);
        Audit(if planned then t.before.before else t.before, stage, true) + [AuditEvent(stage, fault.None?)]
      case Checked(ok) => Audit(t.before, stage, true) + [AuditEvent(Verify, ok)]
      case RoutesCommitted(_, _) => Audit(t.before, stage, true) + [AuditEvent(Ownership, true)]
      case GroupsCommitted => Audit(t.before, stage, true) + [AuditEvent(Ownership, true)]
      case CommitFailed => Audit(t.before, stage, true) + [AuditEvent(Ownership, false)]
      case Restored(_, ok) => Audit(t.before, stage, false) + [AuditEvent(Rollback, ok)]
      case RoutesRead(_) =>
        Audit(t.before, stage, true) + [AuditEvent(if Reads(t.before) == 0 then stage else Verify, on)]
      case ReadFailed =>
        Audit(t.before, stage, true) + [AuditEvent(if Reads(t.before) == 0 then stage else Verify, on)]
      case _ => Audit(t.before, stage, true)
  }

  /** What is reported about a whole attempt. */
  ghost function ReportOf(t: Trace, j: Job): Report {
    Report(FailureAt(t, j).None?, t.After? && t.act.Restored? && t.act.ok, Audit(t, StageOf(j), false), FailureAt(t, j))
  }

  lemma OneTurn(t: Trace, a: Act, j: Job)
    requires Protocol(t, j) && Turn(t, a, j)
    ensures Protocol(After(t, a), j)
  {
  }

  lemma SureIsMore(t: Trace, j: Job)
    ensures Onward(t, j, true) ==> Onward(t, j, false)
  {
  }

  /** All checks before the backup went through. */
  ghost predicate BackupDue(t: Trace, j: Job) {
    Protocol(t, j) && Onward(t, j, true) && t.After? && if j.d.groups then t.act.Previewed? else t.act.Probed?
  }

  lemma StartEnds(j: Job)
    requires RefusedWith(j).Some?
    ensures Ended(Start, j) && Told(Report(false, false, [], RefusedWith(j)), Start, j)
  {
  }

  lemma NothingToRemoveEnds(j: Job)
    requires j.removal && RefusedWith(j).None? && !j.owns
    ensures Ended(Start, j) && Told(Report(true, false, [], None), Start, j)
  {
  }

  /** The preview comes next. */
  ghost predicate PreviewDue(t: Trace, j: Job) {
    Protocol(t, j) && Onward(t, j, true) && t.After? && t.act.Probed? && t.before.Start? && j.d.groups
  }

  lemma ProbeTurn(a: Act, j: Job)
    requires Admitted(j) && a.Probed?
    ensures var t, events := After(Start, a), [AuditEvent(Probe, a.ok)];
      var failure := if !a.ok then Some(DeployFailed) else if !a.compatible then Some(Incompatible)
        else BlockedAfterProbe(j);
      if failure.Some? then Ended(t, j) && Told(Report(false, false, events, failure), t, j)
      else events == Audit(t, StageOf(j), true) && if j.d.groups then PreviewDue(t, j) else BackupDue(t, j)
  {
    hide BlockedAfterProbe, Admitted;
    OneTurn(Start, a, j);
  }

  lemma PreviewTurn(t: Trace, a: Act, j: Job)
    requires PreviewDue(t, j) && a.Previewed?
    ensures var t', events := After(t, a), Audit(t, StageOf(j), true);
      var failure := if !a.ok then Some(DeployFailed) else BlockedAfterPreview(j);
      if failure.Some? then Ended(t', j) && Told(Report(false, false, events, failure), t', j)
      else events == Audit(t', StageOf(j), true) && BackupDue(t', j)
  {
    hide BlockedAfterProbe, BlockedAfterPreview, Admitted;
    SureIsMore(t, j);
    OneTurn(t, a, j);
    assert Protocol(After(t, a), j) && !AtRisk(After(t, a), Exempt(j));
  }

  lemma BackupTurn(t: Trace, a: Act, j: Job)
    requires BackupDue(t, j) && a.BackedUp?
    ensures Protocol(After(t, a), j)
  {
    hide Onward;
    SureIsMore(t, j);
  }

  /** Storing the backup is not audited. */
  lemma BackupAudited(t: Trace, size: Option<nat>, a: Act, stage: Stage, on: bool)
    requires a.StoreFailed? || a.Stored?
    ensures Audit(After(After(t, BackedUp(size)), a), stage, on) ==
      Audit(t, stage, true) + [AuditEvent(TakeBackup, size.Some?)]
  {
    assert Audit(After(After(t, BackedUp(size)), a), stage, on) == Audit(After(t, BackedUp(size)), stage, true);
  }

  /** The report is what the trace says. */
  ghost predicate Told(r: Report, t: Trace, j: Job) {
    r == ReportOf(t, j)
  }

  lemma QuietEnd(t: Trace, j: Job)
    requires Quiet(t) && Protocol(t, j) && !Onward(t, j, true)
    ensures Ended(t, j)
  {
    QuietCounts(t, Exempt(j));
  }

  /** Before the backup was stored nothing was read. */
  lemma NothingReadBefore(t: Trace, j: Job)
    requires Protocol(t, j) && t.After? && (t.act.Stored? || t.act.BackedUp? || t.act.Probed? || t.act.Previewed?)
    ensures Reads(t) == 0 && FirstRead(t) == None
  {
    if t.act.Probed? {
    } else {
      NothingReadBefore(t.before, j);
    }
  }

  /** An attempt is refused without contacting the device exactly when the request is not
      admitted; otherwise the device is probed first. */
  lemma ContactedExactly(t: Trace, j: Job)
    requires Ended(t, j)
    ensures t.Start? <==> !Admitted(j)
    ensures t.After? ==> Compatible(t) || t.act.Probed?
  {
    if t.After? {
      ProbedFirst(t, j);
    }
  }

  lemma {:induction false} ProbedFirst(t: Trace, j: Job)
    requires Protocol(t, j) && t.After?
    ensures Admitted(j) && (Compatible(t) || t.act.Probed?)
  {
    if t.before.After? {
      ProbedFirst(t.before, j);
    }
  }

  predicate Supported(j: Job) {
    if j.d.groups then j.d.remover && j.q.groupLedger else j.d.routes && j.q.routeLedger
  }

  /** The ledger the removal goes by was found and can be used. */
  ghost predicate LedgerFound(j: Job) {
    if j.d.groups then j.q.endpoint && j.q.groupsRead else RoutesUsable(j)
  }

  /** When a removal is refused, and with what. */
  lemma RemovalRefusals(j: Job)
    requires j.removal
    ensures var named := j.q.composed && IsHexID(j.q.output);
      var reachable := named && j.q.registered && j.q.connectable;
      && (RefusedWith(j).None? <==> reachable && Supported(j) && LedgerFound(j))
      && (RefusedWith(j) == Some(Unavailable) <==> named && !j.q.registered)
      && (RefusedWith(j) == Some(ConnectionInvalid) <==>
          named && j.q.registered && !(j.q.connectable && (Supported(j) && j.d.groups ==> j.q.endpoint)))
      && (RefusedWith(j) == Some(RemovalUnsupported) <==> reachable && !Supported(j))
  {
    hide IsHexID, RoutesUsable;
  }

  /** What stops a deployment between its probe and its backup. */
  lemma DeploymentBlocks(j: Job)
    requires !j.removal
    ensures BlockedAfterProbe(j).None? && (j.d.groups ==> BlockedAfterPreview(j).None?) <==>
        (j.d.groups ==>
          j.q.groupLedger && IsHexID(j.q.output) && j.q.endpoint && j.q.groupsRead && j.groups.Some?) &&
        (j.d.routes && j.q.routeLedger ==> IsHexID(j.q.output) && RoutesUsable(j) && j.desired.Some?)
    ensures BlockedAfterProbe(j) == Some(Unclassified) <==>
      j.d.groups && j.q.groupLedger && IsHexID(j.q.output) && !j.q.endpoint
  {
    hide IsHexID, RoutesUsable;
  }

  // -------------------------------------------------------------- from the backup to the end

  /** The attempt stops here, in failure, unless a recovery is due. */
  ghost predicate Failing(t: Trace, j: Job, events: seq<AuditEvent>, error: Failure) {
    && Protocol(t, j) && t.After? && !t.act.Restored? && !Onward(t, j, true)
    && FailureAt(t, j) == Some(error) && events == Audit(t, StageOf(j), false)
  }

  lemma FailingEnds(t: Trace, j: Job, events: seq<AuditEvent>, error: Failure)
    requires Failing(t, j, events, error) && !AtRisk(t, Exempt(j))
    ensures Ended(t, j) && Told(Report(false, false, events, Some(error)), t, j)
  {
    hide Protocol, AtRisk, Onward, Audit, FailureAt;
  }

  lemma FailingRecovers(t: Trace, a: Act, j: Job, events: seq<AuditEvent>, error: Failure)
    requires Failing(t, j, events, error) && AtRisk(t, Exempt(j)) && a.Restored?
    ensures Ended(After(t, a), j)
    ensures var told := Some(if a.ok then error else RollbackFailed);
      Told(Report(false, a.ok, events + [AuditEvent(Rollback, a.ok)], told), After(t, a), j)
  {
    OneTurn(t, a, j);
  }

  /** The backup can be restored, and the change comes next. */
  ghost predicate ChangeDue(t: Trace, j: Job, events: seq<AuditEvent>) {
    Protocol(t, j) && t.After? && t.act.Stored? && t.act.verified && events == Audit(t, StageOf(j), true)
  }

  /** The router was read and has to be written to. */
  ghost predicate WriteDue(t: Trace, j: Job, events: seq<AuditEvent>) {
    && Protocol(t, j) && Onward(t, j, false) && t.After? && t.act.RoutesRead? && Managed(j)
    && Reads(t) == 1 && Reads(t.before) == 0 && FirstRead(t) == Some(t.act.specs) && !Idle(j, t.act.specs)
    && events == Audit(t.before, StageOf(j), true)
  }

  /** The change went through or was not needed. */
  ghost predicate VerifyDue(t: Trace, j: Job, events: seq<AuditEvent>) {
    && Protocol(t, j) && Onward(t, j, false) && t.After? && events == Audit(t, StageOf(j), true)
    && (if Managed(j) then Reads(t) == 1 && FirstRead(t).Some? else t.act.Changed?)
    && (t.act.Changed? || (t.act.RoutesRead? && Idle(j, t.act.specs)))
  }

  /** The change was verified. */
  ghost predicate CommitDue(t: Trace, j: Job, events: seq<AuditEvent>) {
    && Protocol(t, j) && Onward(t, j, false) && t.After? && events == Audit(t, StageOf(j), true)
    && if Managed(j) then t.act.RoutesRead? && Reads(t) == 2 && FirstRead(t).Some? else t.act.Checked? && j.d.groups
  }

  lemma ReadTurn(t: Trace, a: Act, j: Job, events: seq<AuditEvent>)
    requires ChangeDue(t, j, events) && Managed(j) && Reading(a)
    ensures a.ReadFailed? || !Plannable(j, a.specs, true) ==>
      Failing(After(t, a), j, events + [AuditEvent(StageOf(j), false)], Declined(DeviceUnchanged))
    ensures a.RoutesRead? && Plannable(j, a.specs, false) ==>
      FirstRead(After(t, a)) == Some(a.specs) &&
      if Idle(j, a.specs) then VerifyDue(After(t, a), j, events + [AuditEvent(StageOf(j), true)])
      else WriteDue(After(t, a), j, events)
  {
    hide Plannable, Idle, Confirmed;
    NothingReadBefore(t, j);
    OneTurn(t, a, j);
  }

  lemma WriteTurn(t: Trace, a: Act, j: Job, events: seq<AuditEvent>)
    requires WriteDue(t, j, events) && a.Changed? && !a.groups && a.reported
    ensures FirstRead(After(t, a)) == FirstRead(t)
    ensures match a.fault
      case Some(fault) => Failing(After(t, a), j, events + [AuditEvent(StageOf(j), false)], Declined(fault))
      case None => VerifyDue(After(t, a), j, events + [AuditEvent(StageOf(j), true)])
  {
    hide Plannable, Idle, Confirmed;
    OneTurn(t, a, j);
  }

  lemma PlainTurn(t: Trace, a: Act, j: Job, events: seq<AuditEvent>)
    requires ChangeDue(t, j, events) && !Managed(j) && a.Changed? && a.groups == j.d.groups &&
      (Reports(j) || a.reported)
    ensures match a.fault
      case Some(fault) => Failing(After(t, a), j, events + [AuditEvent(StageOf(j), false)], Declined(fault))
      case None => VerifyDue(After(t, a), j, events + [AuditEvent(StageOf(j), true)])
  {
    OneTurn(t, a, j);
  }

  lemma SecondReadTurn(t: Trace, a: Act, j: Job, events: seq<AuditEvent>)
    requires VerifyDue(t, j, events) && Managed(j) && Reading(a)
    ensures if a.RoutesRead? && Confirmed(j, FirstRead(t), a.specs)
      then CommitDue(After(t, a), j, events + [AuditEvent(Verify, true)]) && FirstRead(After(t, a)) == FirstRead(t)
      else Failing(After(t, a), j, events + [AuditEvent(Verify, false)], VerifyFailed)
  {
    hide Plannable, Idle, Confirmed;
    OneTurn(t, a, j);
  }

  lemma CheckTurn(t: Trace, a: Act, j: Job, events: seq<AuditEvent>)
    requires VerifyDue(t, j, events) && !Managed(j) && a.Checked?
    ensures var t', events' := After(t, a), events + [AuditEvent(Verify, a.ok)];
      if !a.ok then Failing(t', j, events', VerifyFailed)
      else if j.d.groups then CommitDue(t', j, events')
      else Ended(t', j) && Told(Report(true, false, events', None), t', j)
  {
    OneTurn(t, a, j);
  }

  lemma CommitTurn(t: Trace, a: Act, j: Job, events: seq<AuditEvent>)
    requires CommitDue(t, j, events)
    requires a.CommitFailed? || if Managed(j)
      then a.RoutesCommitted? && j.desired.Some? && View(a.next) == PlannedBook(j, FirstRead(t).value)
      else a.GroupsCommitted?
    ensures var t', events' := After(t, a), events + [AuditEvent(Ownership, !a.CommitFailed?)];
      if a.CommitFailed? then Failing(t', j, events', OwnershipPersist)
      else Ended(t', j) && Told(Report(true, false, events', None), t', j)
  {
    hide Plannable, Idle, Confirmed, PlannedBook;
    OneTurn(t, a, j);
  }

  // -------------------------------------------------------------- what a whole attempt means

  /** Everything a deployment or a removal needs before the first change. */
  ghost predicate Ready(j: Job) {
    && j.q.composed && j.q.registered && j.q.connectable
    && (j.d.groups ==> IsHexID(j.q.output) && j.q.groupLedger && j.q.endpoint && j.q.groupsRead)
    && (Managed(j) ==>
        && IsHexID(j.q.output) && j.q.routesRead && j.q.scope.Some? && ValidScope(j.q.scope.value)
        && j.q.scope.value == j.ledger.scope && ValidLedger(j.ledger))
    && (if j.removal
        then IsHexID(j.q.output) && j.owns && (if j.d.groups then j.d.remover else j.d.routes && j.q.routeLedger)
        else (j.d.groups ==> j.groups.Some?) && (Managed(j) ==> j.desired.Some?))
  }

  /** Nothing answered with a refusal, and both reads showed what they have to. */
  ghost predicate Willing(t: Trace, j: Job) {
    t.Start? ||
    (Willing(t.before, j) &&
     match t.act
     case Probed(ok, compatible) => ok && compatible
     case Previewed(ok) => ok
     case BackedUp(size) => size.Some? && size.value > 0
     case Stored(_, verified) => verified
     case RoutesRead(seen) =>
       if Reads(t.before) == 0 then Plannable(j, seen, true) else Confirmed(j, FirstRead(t.before), seen)
     case Changed(_, _, _, fault) => fault.None?
     case Checked(ok) => ok
     case RoutesCommitted(_, _) => true
     case GroupsCommitted => true
     case _ => false)
  }

  lemma ReadyIsAdmitted(j: Job)
    requires Ready(j)
    ensures Admitted(j) && BlockedAfterProbe(j).None? && (j.d.groups ==> BlockedAfterPreview(j).None?)
  {
    hide ValidLedger, ValidScope, IsHexID;
  }

  /** A whole attempt at something that can be done, with every answer good, ends with
      the ledger committed, or checked where there is no ledger. */
  lemma GoodAnswersSuffice(t: Trace, j: Job)
    requires Ended(t, j) && Ready(j) && Willing(t, j)
    ensures t.After? && FailureAt(t, j).None? &&
      if Managed(j) then t.act.RoutesCommitted? else if j.d.groups then t.act.GroupsCommitted?
      else t.act == Checked(true)
  {
    hide Plannable, Idle, Confirmed, RoutesUsable;
    ReadyIsAdmitted(j);
  }

  /** Nothing that was needed was missing once the first step after it was taken. */
  lemma {:induction false} NothingMissing(t: Trace, j: Job)
    requires Protocol(t, j) && t.After?
    ensures Admitted(j)
    ensures !t.act.Probed? ==>
      BlockedAfterProbe(j).None? || (t.act.Restored? && t.before.After? && t.before.act.Probed?)
    ensures !t.act.Probed? && !t.act.Previewed? && !t.act.Restored? && j.d.groups ==> BlockedAfterPreview(j).None?
  {
    hide Plannable, Idle, Confirmed, RefusedWith, GroupsBlocked, RoutesBlocked;
    if t.before.After? {
      NothingMissing(t.before, j);
    }
  }

  /** Success is what ends in a commit, or in a good check where there is no ledger, and
      nothing succeeds that was not ready. A removal of nothing succeeds at once. */
  lemma SuccessExactly(t: Trace, j: Job)
    requires Ended(t, j) && FailureAt(t, j).None?
    ensures if t.Start? then j.removal && RefusedWith(j).None? && !j.owns
      else Ready(j) && if Managed(j) then t.act.RoutesCommitted?
      else if j.d.groups then t.act.GroupsCommitted? else t.act == Checked(true)
  {
    hide Plannable, Idle, Confirmed, ValidLedger, ValidScope, IsHexID;
    if t.After? {
      NothingMissing(t, j);
    }
  }

  /** A ledger is committed once, at the very end, or not at all. */
  lemma {:induction false} CommitsEnd(t: Trace, j: Job)
    requires Protocol(t, j)
    ensures Commits(t) == if t.After? && (t.act.RoutesCommitted? || t.act.GroupsCommitted?) then 1 else 0
  {
    hide Plannable, Idle, Confirmed;
    if t.After? {
      CommitsEnd(t.before, j);
    }
  }

  /** The step at which the attempt failed: the one before the recovery. */
  function LastStep(t: Trace): Act
    requires t.After?
  {
    if t.act.Restored? && t.before.After? then t.before.act else t.act
  }

  lemma ReadTwice(t: Trace, j: Job)
    requires Protocol(t, j) && t.After? && Reading(t.act)
    ensures Reads(t) == 1 || Reads(t) == 2
  {
    hide Plannable, Idle, Confirmed;
    if t.before.After? && t.before.act.Stored? {
      NothingReadBefore(t.before, j);
    }
  }

  /** What each failure means, by the step that failed. */
  lemma WhyItFailed(t: Trace, j: Job)
    requires Ended(t, j) && t.After?
    ensures FailureAt(t, j) == Some(RollbackFailed) <==> t.act.Restored? && !t.act.ok
    ensures (t.act.Restored? && !t.act.ok) ||
      var failure, last := FailureAt(t, j), LastStep(t);
      && (failure == Some(OwnershipPersist) <==> last.CommitFailed?)
      && (failure == Some(VerifyFailed) <==> last == Checked(false) || (Reading(last) && Reads(t) == 2))
      && (failure == Some(Declined(DeviceUnchanged)) <==>
          (Reading(last) && Reads(t) == 1) || (last.Changed? && last.fault == Some(DeviceUnchanged)))
      && (forall f :: f != DeviceUnchanged ==>
          (failure == Some(Declined(f)) <==> last.Changed? && last.fault == Some(f)))
      && (failure == Some(BackupRequired) <==> last.BackedUp? || last.StoreFailed? || last.Stored?)
      && (failure == Some(Incompatible) <==> last == Probed(true, false))
      && (failure == Some(DeployFailed) <==> last == Previewed(false) || (last.Probed? && !last.ok))
  {
    hide Plannable, Idle, Confirmed, RefusedWith, ValidLedger, ValidScope, IsHexID;
    var part := if t.act.Restored? then t.before else t;
    assert Reads(t) == Reads(part);
    if Reading(part.act) {
      ReadTwice(part, j);
    }
  }
}
