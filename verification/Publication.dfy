/** Optimistic publication against a mutable library, as a state machine over
    small steps: builds read registries one entry at a time without a lock, edits
    write them one entry at a time under the publication lock, and profile edits
    share that lock. internal/application/publication.go, build.go, removals.go. */
module Publication {
  import opened Text
  import opened Wrappers

  type Pid = nat

  // What a build can read besides the profile: a definition, a tuning, a
  // category, a membership. The first two constructors also say what exists.
  datatype Cell = ListCell(id: Str) | CategoryCell(id: Str) | OtherCell(id: Str)

  type Registry = map<Cell, Str>

  // `choices` stands for exclusions, domain overrides and priority; the whole
  // value is what `ProfilePublicationRevision` identifies.
  datatype Profile = Profile(lists: set<Str>, categories: set<Str>, choices: Str, archived: bool)

  datatype OutputRow = OutputRow(profile: Str, settings: Str)

  datatype Read = Read(cell: Cell, value: Option<Str>)

  // What a build read so far, in the order of `Build`.
  datatype Draft = Draft(output: Str, row: OutputRow, profile: Option<Profile>, log: seq<Read>)

  datatype Proc =
    | Idle
    | Building(draft: Draft, generation: Option<nat>)
    // It holds the read lock and the generation matched.
    | Publishing(candidate: Draft)
    // CreateProfile or UpdateProfile, under the read lock.
    | Saving(id: Str, saved: Profile, checked: set<Cell>)
    // An edit of the library, under the write lock: before its store write, while
    // it writes registries, and after the generation moved.
    | Locked(cleared: set<Cell>)
    | Writing(released: set<Cell>, owed: set<Cell>)
    | Bumped

  // One committed publication, with everything it was made from.
  datatype Commit = Commit(output: Str, row: OutputRow, profile: Profile, log: seq<Read>)

  datatype State = State(cells: Registry, profiles: map<Str, Profile>, outputs: map<Str, OutputRow>, generation: nat,
    readers: set<Pid>, writer: Option<Pid>, procs: map<Pid, Proc>, commits: seq<Commit>)

  datatype BuildStep =
    | StartBuild(output: Str) | ReadProfile | ReadGeneration | ReadCell(cell: Cell) | LockBuild | Publish | GiveUp

  datatype SaveStep = StartSave(id: Str, candidate: Profile) | CheckName(cell: Cell) | Save | Refuse

  datatype EditStep =
    | LockEdit | CheckReferences(cells: set<Cell>) | StoreEdit(imported: map<Str, Profile>)
    | Write(cell: Cell, text: Str) | Delete(cell: Cell) | Bump | Unlock

  // The last two are store writes that take no publication lock.
  datatype Act =
    | BuildAct(pid: Pid, build: BuildStep)
    | SaveAct(pid: Pid, save: SaveStep)
    | EditAct(pid: Pid, edit: EditStep)
    | EditOutput(output: Str, row: OutputRow)
    | Archive(id: Str, archived: bool)

  function ProcOf(s: State, p: Pid): Proc {
    if p in s.procs then s.procs[p] else Idle
  }

  predicate Reader(q: Proc) {
    q.Publishing? || q.Saving?
  }

  predicate Writer(q: Proc) {
    q.Locked? || q.Writing? || q.Bumped?
  }

  /** Process `p` moves on to `q`, taking or leaving the publication lock. */
  function Moved(s: State, p: Pid, q: Proc): State {
    s.(procs := s.procs[p := q],
      readers := if Reader(q) then s.readers + {p} else s.readers - {p},
      writer := if Writer(q) then Some(p) else if s.writer == Some(p) then None else s.writer)
  }

  function Lookup(cells: Registry, c: Cell): Option<Str> {
    if c in cells then Some(cells[c]) else None
  }

  /** Everything a profile names directly. */
  function Names(p: Profile): set<Cell> {
    (set l | l in p.lists :: ListCell(l)) + (set c | c in p.categories :: CategoryCell(c))
  }

  predicate Existence(c: Cell) {
    c.ListCell? || c.CategoryCell?
  }

  predicate Named(profiles: map<Str, Profile>, cells: set<Cell>) {
    exists id :: id in profiles && Names(profiles[id]) * cells != {}
  }

  /** `Store.Publish` accepts the candidate. */
  predicate Publishable(s: State, d: Draft) {
    && d.output in s.outputs && s.outputs[d.output] == d.row
    && d.row.profile in s.profiles && !s.profiles[d.row.profile].archived
    && d.profile == Some(s.profiles[d.row.profile])
  }

  ghost function AllNames(profiles: map<Str, Profile>): set<Cell> {
    set id, c | id in profiles && c in Names(profiles[id]) :: c
  }

  // -------------------------------------------------------------- steps of a build

  predicate CanBuild(s: State, p: Pid, b: BuildStep) {
    match ProcOf(s, p)
    case Idle => b.StartBuild? && b.output in s.outputs
    case Building(d, generation) => (
      match b
      case ReadProfile =>
        d.profile.None? && d.row.profile in s.profiles && !s.profiles[d.row.profile].archived
      case ReadGeneration => d.profile.Some? && generation.None? && s.writer.None?
      case ReadCell(_) => generation.Some?
      case LockBuild => generation.Some? && s.writer.None?
      case GiveUp => true
      case _ => false)
    case Publishing(_) => b.Publish?
    case _ => false
  }

  function BuildProc(s: State, p: Pid, b: BuildStep): Proc
    requires CanBuild(s, p, b)
  {
    match ProcOf(s, p)
    case Idle => Building(Draft(b.output, s.outputs[b.output], None, []), None)
    case Building(d, generation) => (
      match b
      case ReadProfile => Building(d.(profile := Some(s.profiles[d.row.profile])), generation)
      case ReadGeneration => Building(d, Some(s.generation))
      case ReadCell(c) => Building(d.(log := d.log + [Read(c, Lookup(s.cells, c))]), generation)
      case LockBuild => if generation == Some(s.generation) then Publishing(d) else Idle
      case GiveUp => Idle)
    case Publishing(_) => Idle
  }

  function BuildCommits(s: State, p: Pid): seq<Commit> {
    match ProcOf(s, p)
    case Publishing(d) =>
      if Publishable(s, d) then s.commits + [Commit(d.output, d.row, d.profile.value, d.log)] else s.commits
    case _ => s.commits
  }

  // -------------------------------------------------------------- steps of a profile edit

  predicate CanSave(s: State, p: Pid, a: SaveStep) {
    match ProcOf(s, p)
    case Idle => a.StartSave? && s.writer.None?
    case Saving(_, profile, checked) => (
      match a
      case CheckName(c) => c in s.cells
      case Save => Names(profile) <= checked
      case Refuse => true
      case _ => false)
    case _ => false
  }

  function SaveProc(s: State, p: Pid, a: SaveStep): Proc
    requires CanSave(s, p, a)
  {
    match ProcOf(s, p)
    case Idle => Saving(a.id, a.candidate, {})
    case Saving(id, profile, checked) => if a.CheckName? then Saving(id, profile, checked + {a.cell}) else Idle
  }

  function SavedProfiles(s: State, p: Pid, a: SaveStep): map<Str, Profile> {
    match ProcOf(s, p)
    case Saving(id, profile, _) => if a.Save? then s.profiles[id := profile] else s.profiles
    case _ => s.profiles
  }

  // -------------------------------------------------------------- steps of a library edit

  predicate CanEdit(s: State, p: Pid, e: EditStep) {
    match ProcOf(s, p)
    case Idle => e.LockEdit? && s.writer.None? && s.readers == {}
    case Locked(cleared) => (
      match e
      case CheckReferences(cells) => !Named(s.profiles, cells)
      case StoreEdit(imported) => imported.Keys !! s.profiles.Keys && !Named(imported, cleared)
      case Unlock => true
      case _ => false)
    case Writing(released, owed) => (
      match e
      case Write(_, _) => true
      case Delete(c) => Existence(c) ==> c in released
      case Bump => owed == {}
      case _ => false)
    case Bumped => e.Unlock?
    case _ => false
  }

  ghost function EditProc(s: State, p: Pid, e: EditStep): Proc
    requires CanEdit(s, p, e)
  {
    match ProcOf(s, p)
    case Idle => Locked({})
    case Locked(cleared) => (
      match e
      case CheckReferences(cells) => Locked(cells)
      case StoreEdit(imported) => Writing(cleared, AllNames(imported) - s.cells.Keys)
      case Unlock => Idle)
    case Writing(released, owed) => (
      match e
      case Write(c, _) => Writing(released, owed - {c})
      case Delete(_) => Writing(released, owed)
      case Bump => Bumped)
    case Bumped => Idle
  }

  function EditCells(s: State, e: EditStep): Registry {
    match e
    case Write(c, text) => s.cells[c := text]
    case Delete(c) => s.cells - {c}
    case _ => s.cells
  }

  // -------------------------------------------------------------- all steps

  predicate Enabled(s: State, a: Act) {
    match a
    case BuildAct(p, b) => CanBuild(s, p, b)
    case SaveAct(p, b) => CanSave(s, p, b)
    case EditAct(p, e) => CanEdit(s, p, e)
    case EditOutput(_, _) => true
    case Archive(id, _) => id in s.profiles
  }

  ghost function Take(s: State, a: Act): State
    requires Enabled(s, a)
  {
    match a
    case BuildAct(p, b) => Moved(s, p, BuildProc(s, p, b)).(commits := BuildCommits(s, p))
    case SaveAct(p, b) => Moved(s, p, SaveProc(s, p, b)).(profiles := SavedProfiles(s, p, b))
    case EditAct(p, e) =>
      Moved(s, p, EditProc(s, p, e)).(
        cells := EditCells(s, e),
        generation := if e.Bump? then s.generation + 1 else s.generation,
        profiles := if e.StoreEdit? then s.profiles + e.imported else s.profiles)
    case EditOutput(o, row) => s.(outputs := s.outputs[o := row])
    case Archive(id, archived) => s.(profiles := s.profiles[id := s.profiles[id].(archived := archived)])
  }

  ghost predicate Runs(s: State, acts: seq<Act>)
    decreases |acts|
  {
    acts == [] || (Enabled(s, acts[0]) && Runs(Take(s, acts[0]), acts[1..]))
  }

  ghost function Ran(s: State, acts: seq<Act>): State
    requires Runs(s, acts)
    decreases |acts|
  {
    if acts == [] then s else Ran(Take(s, acts[0]), acts[1..])
  }

  // -------------------------------------------------------------- invariants

  /** The lock is held by exactly the processes that think they hold it. */
  ghost predicate LockHeld(s: State) {
    && (forall p: Pid :: p in s.readers <==> Reader(ProcOf(s, p)))
    && (forall p: Pid :: Writer(ProcOf(s, p)) ==> s.writer == Some(p))
    && (s.writer.Some? ==> Writer(ProcOf(s, s.writer.value)))
    && (s.writer.Some? ==> s.readers == {})
  }

  predicate Dirty(s: State) {
    s.writer.Some? && ProcOf(s, s.writer.value).Writing?
  }

  predicate Current(cells: Registry, log: seq<Read>) {
    forall i :: 0 <= i < |log| ==> log[i].value == Lookup(cells, log[i].cell)
  }

  /** What a build may rely on: while its generation is the current one and nobody
      is writing registries, everything it read is still what they say. */
  ghost predicate BuildOk(s: State, q: Proc) {
    match q
    case Building(d, None) => d.log == []
    case Building(d, Some(g)) => g <= s.generation && (g == s.generation && !Dirty(s) ==> Current(s.cells, d.log))
    case Publishing(d) => Current(s.cells, d.log)
    case _ => true
  }

  ghost predicate Consistent(s: State) {
    forall p: Pid :: BuildOk(s, ProcOf(s, p))
  }

  function Owed(s: State): set<Cell> {
    if Dirty(s) then ProcOf(s, s.writer.value).owed else {}
  }

  ghost predicate EditOk(s: State, q: Proc) {
    match q
    case Saving(_, _, checked) => checked <= s.cells.Keys
    case Locked(cleared) => !Named(s.profiles, cleared)
    case Writing(released, _) => !Named(s.profiles, released)
    case _ => true
  }

  /** No stored profile names a list or category that the library does not have.
      Only while an import is being installed may some still be owed. */
  ghost predicate Intact(s: State) {
    && (forall p: Pid :: EditOk(s, ProcOf(s, p)))
    && (forall id :: id in s.profiles ==> Names(s.profiles[id]) <= s.cells.Keys + Owed(s))
  }

  lemma MovedKeepsLock(s: State, p: Pid, q: Proc)
    requires LockHeld(s)
    requires Writer(q) ==> s.writer == Some(p) || (s.writer.None? && s.readers == {})
    requires Reader(q) ==> s.writer.None?
    ensures LockHeld(Moved(s, p, q))
    ensures forall x: Pid :: ProcOf(Moved(s, p, q), x) == if x == p then q else ProcOf(s, x)
  {
  }

  lemma StepKeepsLock(s: State, a: Act)
    requires LockHeld(s) && Enabled(s, a)
    ensures LockHeld(Take(s, a))
    ensures a.BuildAct? || a.SaveAct? || a.EditAct? ==>
      forall x: Pid :: x != a.pid ==> ProcOf(Take(s, a), x) == ProcOf(s, x)
  {
    hide Named, AllNames, Names, Publishable, Lookup;
    match a
    case BuildAct(p, b) => MovedKeepsLock(s, p, BuildProc(s, p, b));
    case SaveAct(p, b) => MovedKeepsLock(s, p, SaveProc(s, p, b));
    case EditAct(p, e) => MovedKeepsLock(s, p, EditProc(s, p, e));
    case _ =>
  }

  lemma BuildKeepsConsistent(s: State, p: Pid, b: BuildStep)
    requires LockHeld(s) && Consistent(s) && CanBuild(s, p, b)
    ensures Consistent(Take(s, BuildAct(p, b)))
  {
    hide LockHeld;
    var s' := Take(s, BuildAct(p, b));
    StepKeepsLock(s, BuildAct(p, b));
    assert Dirty(s') == Dirty(s) by {
      WriterApart(s, p);
    }
    forall x: Pid ensures BuildOk(s', ProcOf(s', x)) {
      assert BuildOk(s, ProcOf(s, x)) && BuildOk(s, ProcOf(s, p));
      if x == p {
        assert ProcOf(s', p) == BuildProc(s, p, b);
        if ProcOf(s, p).Building? && b.LockBuild? {
          NotDirty(s);
        }
      }
    }
  }

  lemma WriterApart(s: State, p: Pid)
    requires LockHeld(s) && !Writer(ProcOf(s, p))
    ensures s.writer != Some(p)
  {
  }

  lemma NotDirty(s: State)
    ensures s.writer.None? ==> !Dirty(s)
  {
  }

  lemma SaveKeepsConsistent(s: State, p: Pid, b: SaveStep)
    requires LockHeld(s) && Consistent(s) && CanSave(s, p, b)
    ensures Consistent(Take(s, SaveAct(p, b)))
  {
    hide LockHeld;
    var s' := Take(s, SaveAct(p, b));
    StepKeepsLock(s, SaveAct(p, b));
    assert Dirty(s') == Dirty(s) by {
      WriterApart(s, p);
    }
    forall x: Pid ensures BuildOk(s', ProcOf(s', x)) {
      assert BuildOk(s, ProcOf(s, x));
    }
  }

  /** Registry writes happen only while the editor is writing, and then every
      generation a build holds is about to be old. */
  lemma EditKeepsConsistent(s: State, p: Pid, e: EditStep)
    requires LockHeld(s) && Consistent(s) && CanEdit(s, p, e)
    ensures Consistent(Take(s, EditAct(p, e)))
  {
    hide Named, AllNames;
    var s' := Take(s, EditAct(p, e));
    StepKeepsLock(s, EditAct(p, e));
    forall x: Pid ensures BuildOk(s', ProcOf(s', x)) {
      assert BuildOk(s, ProcOf(s, x));
      assert Reader(ProcOf(s, x)) ==> x in s.readers;
    }
  }

  lemma StepKeepsConsistent(s: State, a: Act)
    requires LockHeld(s) && Consistent(s) && Enabled(s, a)
    ensures Consistent(Take(s, a))
  {
    hide LockHeld, CanBuild, CanSave, CanEdit;
    match a
    case BuildAct(p, b) => BuildKeepsConsistent(s, p, b);
    case SaveAct(p, b) => SaveKeepsConsistent(s, p, b);
    case EditAct(p, e) => EditKeepsConsistent(s, p, e);
    case EditOutput(_, _) => StoreKeepsConsistent(s, a);
    case Archive(_, _) => StoreKeepsConsistent(s, a);
  }

  lemma StoreKeepsConsistent(s: State, a: Act)
    requires Consistent(s) && Enabled(s, a) && (a.EditOutput? || a.Archive?)
    ensures Consistent(Take(s, a))
  {
    forall x: Pid ensures BuildOk(Take(s, a), ProcOf(Take(s, a), x)) {
      assert BuildOk(s, ProcOf(s, x));
    }
  }

  lemma BuildKeepsIntact(s: State, p: Pid, b: BuildStep)
    requires LockHeld(s) && Intact(s) && CanBuild(s, p, b)
    ensures Intact(Take(s, BuildAct(p, b)))
  {
    hide LockHeld, Named, Names;
    var s' := Take(s, BuildAct(p, b));
    StepKeepsLock(s, BuildAct(p, b));
    assert Owed(s') == Owed(s) by {
      WriterApart(s, p);
    }
    forall x: Pid ensures EditOk(s', ProcOf(s', x)) {
      assert EditOk(s, ProcOf(s, x));
    }
  }

  lemma SaveKeepsIntact(s: State, p: Pid, b: SaveStep)
    requires LockHeld(s) && Intact(s) && CanSave(s, p, b)
    ensures Intact(Take(s, SaveAct(p, b)))
  {
    hide Named, Names;
    var s' := Take(s, SaveAct(p, b));
    StepKeepsLock(s, SaveAct(p, b));
    assert Owed(s') == Owed(s);
    assert EditOk(s, ProcOf(s, p));
    forall x: Pid ensures EditOk(s', ProcOf(s', x)) {
      assert EditOk(s, ProcOf(s, x));
      assert Writer(ProcOf(s, x)) ==> s.writer == Some(x);
    }
  }

  lemma EditKeepsIntact(s: State, p: Pid, e: EditStep)
    requires LockHeld(s) && Intact(s) && CanEdit(s, p, e)
    ensures Intact(Take(s, EditAct(p, e)))
  {
    hide Names;
    var s' := Take(s, EditAct(p, e));
    StepKeepsLock(s, EditAct(p, e));
    assert EditOk(s, ProcOf(s, p));
    forall x: Pid ensures EditOk(s', ProcOf(s', x)) {
      assert EditOk(s, ProcOf(s, x));
      assert Reader(ProcOf(s, x)) ==> x in s.readers;
    }
    forall id, c | id in s'.profiles && c in Names(s'.profiles[id]) ensures c in s'.cells.Keys + Owed(s') {
      NamesExist(s'.profiles[id], c);
      if id in s.profiles {
        assert s'.profiles[id] == s.profiles[id];
        assert c in s.cells.Keys + Owed(s);
        NamedBy(s.profiles, id, c);
      } else {
        assert e.StoreEdit? && c in AllNames(e.imported);
      }
    }
  }

  lemma NamedBy(profiles: map<Str, Profile>, id: Str, c: Cell)
    requires id in profiles && c in Names(profiles[id])
    ensures forall cells: set<Cell> :: c in cells ==> Named(profiles, cells)
  {
    forall cells: set<Cell> | c in cells ensures Named(profiles, cells) {
      assert c in Names(profiles[id]) * cells;
    }
  }

  lemma NamesExist(p: Profile, c: Cell)
    requires c in Names(p)
    ensures Existence(c)
  {
  }

  /** Archiving changes no name. */
  lemma StoreKeepsIntact(s: State, a: Act)
    requires Intact(s) && Enabled(s, a) && (a.EditOutput? || a.Archive?)
    ensures Intact(Take(s, a))
  {
    hide Names;
    var s' := Take(s, a);
    forall id | id in s.profiles ensures Names(s'.profiles[id]) == Names(s.profiles[id]) {
      SameNames(s.profiles[id], s'.profiles[id]);
    }
    forall cells: set<Cell> ensures Named(s'.profiles, cells) == Named(s.profiles, cells) {
      if Named(s'.profiles, cells) {
        var id :| id in s'.profiles && Names(s'.profiles[id]) * cells != {};
        assert Names(s.profiles[id]) * cells != {};
      }
      if Named(s.profiles, cells) {
        var id :| id in s.profiles && Names(s.profiles[id]) * cells != {};
        assert Names(s'.profiles[id]) * cells != {};
      }
    }
    forall x: Pid ensures EditOk(s', ProcOf(s', x)) {
      assert EditOk(s, ProcOf(s, x));
    }
  }

  lemma SameNames(p: Profile, q: Profile)
    requires p.lists == q.lists && p.categories == q.categories
    ensures Names(p) == Names(q)
  {
  }

  lemma StepKeepsIntact(s: State, a: Act)
    requires LockHeld(s) && Intact(s) && Enabled(s, a)
    ensures Intact(Take(s, a))
  {
    hide LockHeld, CanBuild, CanSave, CanEdit;
    match a
    case BuildAct(p, b) => BuildKeepsIntact(s, p, b);
    case SaveAct(p, b) => SaveKeepsIntact(s, p, b);
    case EditAct(p, e) => EditKeepsIntact(s, p, e);
    case EditOutput(_, _) => StoreKeepsIntact(s, a);
    case Archive(_, _) => StoreKeepsIntact(s, a);
  }

  // -------------------------------------------------------------- the two theorems

  /** A service at rest: nobody holds the lock and nothing is being built. */
  ghost predicate Resting(s: State) {
    && s.procs == map[] && s.readers == {} && s.writer.None?
    && forall id :: id in s.profiles ==> Names(s.profiles[id]) <= s.cells.Keys
  }

  lemma {:induction false} RunKeepsInvariants(s: State, acts: seq<Act>)
    requires LockHeld(s) && Consistent(s) && Intact(s) && Runs(s, acts)
    ensures LockHeld(Ran(s, acts)) && Consistent(Ran(s, acts)) && Intact(Ran(s, acts))
    decreases |acts|
  {
    hide LockHeld, Consistent, Intact, Enabled, Take;
    if acts != [] {
      StepKeepsLock(s, acts[0]);
      StepKeepsConsistent(s, acts[0]);
      StepKeepsIntact(s, acts[0]);
      RunKeepsInvariants(Take(s, acts[0]), acts[1..]);
    }
  }

  lemma RestingIsFine(s: State)
    requires Resting(s)
    ensures LockHeld(s) && Consistent(s) && Intact(s)
  {
    assert forall p: Pid :: ProcOf(s, p) == Idle;
  }

  /** Publication is atomic. Whatever ran before, in whatever interleaving, a
      commit stands for the output row, the profile and every registry entry as
      they are at the moment of the commit. */
  lemma CommitIsCurrent(s: State, acts: seq<Act>, p: Pid)
    requires Resting(s) && Runs(s, acts)
    requires var end := Ran(s, acts);
      CanBuild(end, p, Publish) && |Take(end, BuildAct(p, Publish)).commits| > |end.commits|
    ensures var end := Ran(s, acts);
      var after := Take(end, BuildAct(p, Publish));
      var c := after.commits[|after.commits| - 1];
      && after.commits == end.commits + [c]
      && c.output in after.outputs && after.outputs[c.output] == c.row
      && c.row.profile in after.profiles && after.profiles[c.row.profile] == c.profile && !c.profile.archived
      && Current(after.cells, c.log)
  {
    hide LockHeld, Intact, Runs, Ran;
    RestingIsFine(s);
    RunKeepsInvariants(s, acts);
    assert BuildOk(Ran(s, acts), ProcOf(Ran(s, acts), p));
  }

  // -------------------------------------------------------------- what a build reads

  /** A build is a program: what it reads next depends on the output, the profile, and
      what it has read; at the end it has nothing more to read. */
  type Plan = (OutputRow, Profile, seq<Read>) -> Option<Cell>

  /** The log is what the plan asked for, one entry after another. */
  ghost predicate Asked(plan: Plan, row: OutputRow, p: Profile, log: seq<Read>) {
    forall i :: 0 <= i < |log| ==> plan(row, p, log[..i]) == Some(log[i].cell)
  }

  ghost predicate Follows(plan: Plan, row: OutputRow, p: Profile, log: seq<Read>) {
    Asked(plan, row, p, log) && plan(row, p, log) == None
  }

  /** The step reads what the plan asks for, or locks when it asks for nothing. */
  ghost predicate Obeys(plan: Plan, s: State, a: Act) {
    a.BuildAct? ==>
      match ProcOf(s, a.pid)
      case Building(d, Some(_)) =>
        && (a.build.ReadCell? ==> d.profile.Some? && plan(d.row, d.profile.value, d.log) == Some(a.build.cell))
        && (a.build.LockBuild? ==> d.profile.Some? && plan(d.row, d.profile.value, d.log) == None)
      case _ => true
  }

  ghost predicate Planned(plan: Plan, s: State, acts: seq<Act>)
    requires Runs(s, acts)
    decreases |acts|
  {
    acts == [] || (Obeys(plan, s, acts[0]) && Planned(plan, Take(s, acts[0]), acts[1..]))
  }

  ghost predicate DraftOk(plan: Plan, q: Proc) {
    match q
    case Building(d, None) => d.log == []
    case Building(d, Some(_)) => d.profile.Some? && Asked(plan, d.row, d.profile.value, d.log)
    case Publishing(d) => d.profile.Some? && Follows(plan, d.row, d.profile.value, d.log)
    case _ => true
  }

  ghost predicate DraftsOk(plan: Plan, s: State) {
    forall p: Pid :: DraftOk(plan, ProcOf(s, p))
  }

  lemma AskedMore(plan: Plan, row: OutputRow, p: Profile, log: seq<Read>, r: Read)
    requires Asked(plan, row, p, log) && plan(row, p, log) == Some(r.cell)
    ensures Asked(plan, row, p, log + [r])
  {
    var more := log + [r];
    forall i | 0 <= i < |more| ensures plan(row, p, more[..i]) == Some(more[i].cell) {
      assert more[..i] == log[..i];
      assert log[..|log|] == log;
    }
  }

  lemma StepKeepsDrafts(plan: Plan, s: State, a: Act)
    requires LockHeld(s) && DraftsOk(plan, s) && Enabled(s, a) && Obeys(plan, s, a)
    ensures DraftsOk(plan, Take(s, a))
  {
    hide LockHeld, Asked, Named, Publishable;
    var t := Take(s, a);
    StepKeepsLock(s, a);
    forall x: Pid ensures DraftOk(plan, ProcOf(t, x)) {
      assert DraftOk(plan, ProcOf(s, x));
      if a.BuildAct? && x == a.pid {
        BuildKeepsDraft(plan, s, x, a.build);
      }
    }
  }

  lemma BuildKeepsDraft(plan: Plan, s: State, p: Pid, b: BuildStep)
    requires CanBuild(s, p, b) && DraftOk(plan, ProcOf(s, p)) && Obeys(plan, s, BuildAct(p, b))
    ensures DraftOk(plan, BuildProc(s, p, b))
  {
    var q := ProcOf(s, p);
    if q.Building? && b.ReadCell? {
      AskedMore(plan, q.draft.row, q.draft.profile.value, q.draft.log, Read(b.cell, Lookup(s.cells, b.cell)));
    }
  }

  lemma {:induction false} RunKeepsDrafts(plan: Plan, s: State, acts: seq<Act>)
    requires LockHeld(s) && DraftsOk(plan, s) && Runs(s, acts) && Planned(plan, s, acts)
    ensures DraftsOk(plan, Ran(s, acts))
    decreases |acts|
  {
    hide LockHeld, DraftsOk, Enabled, Take, Obeys;
    if acts != [] {
      StepKeepsLock(s, acts[0]);
      StepKeepsDrafts(plan, s, acts[0]);
      RunKeepsDrafts(plan, Take(s, acts[0]), acts[1..]);
    }
  }

  lemma NextRead(plan: Plan, row: OutputRow, p: Profile, log: seq<Read>, n: nat)
    requires Follows(plan, row, p, log) && n <= |log|
    ensures plan(row, p, log[..n]) == if n == |log| then None else Some(log[n].cell)
  {
    assert log[..|log|] == log;
  }

  /** Two builds that follow the plan over the same entries read the same. */
  lemma {:induction false} SameReads(plan: Plan, row: OutputRow, p: Profile, cells: Registry, a: seq<Read>,
      b: seq<Read>, n: nat)
    requires Follows(plan, row, p, a) && Follows(plan, row, p, b) && Current(cells, a) && Current(cells, b)
    requires n <= |a| && n <= |b| && a[..n] == b[..n]
    ensures a == b
    decreases |a| - n
  {
    NextRead(plan, row, p, a, n);
    NextRead(plan, row, p, b, n);
    if n < |a| {
      assert a[..n + 1] == a[..n] + [a[n]] && b[..n + 1] == b[..n] + [b[n]];
      SameReads(plan, row, p, cells, a, b, n + 1);
    } else {
      assert a == a[..n] && b == b[..n];
    }
  }

  lemma Publishes(s: State, p: Pid)
    requires CanBuild(s, p, Publish) && |Take(s, BuildAct(p, Publish)).commits| > |s.commits|
    ensures ProcOf(s, p).Publishing? && Publishable(s, ProcOf(s, p).candidate)
    ensures var d := ProcOf(s, p).candidate;
      Take(s, BuildAct(p, Publish)).commits == s.commits + [Commit(d.output, d.row, d.profile.value, d.log)]
  {
  }

  /** A commit is the one that a build running alone at that moment would make: it
      read everything its plan asks for, and whatever follows the same plan over the
      entries as they are now reads exactly the same. */
  lemma CommitIsUninterrupted(plan: Plan, s: State, acts: seq<Act>, p: Pid)
    requires Resting(s) && Runs(s, acts) && Planned(plan, s, acts)
    requires var end := Ran(s, acts);
      CanBuild(end, p, Publish) && |Take(end, BuildAct(p, Publish)).commits| > |end.commits|
    ensures var after := Take(Ran(s, acts), BuildAct(p, Publish));
      var c := after.commits[|after.commits| - 1];
      && Follows(plan, c.row, c.profile, c.log)
      && (forall log :: Follows(plan, c.row, c.profile, log) && Current(after.cells, log) ==> log == c.log)
  {
    hide LockHeld, Intact, Runs, Ran, Planned, Follows, Publishable, Take;
    RestingIsFine(s);
    assert forall x: Pid :: ProcOf(s, x) == Idle;
    RunKeepsDrafts(plan, s, acts);
    CommitIsCurrent(s, acts, p);
    var end := Ran(s, acts);
    var after := Take(end, BuildAct(p, Publish));
    Publishes(end, p);
    assert DraftOk(plan, ProcOf(end, p));
    var c := after.commits[|after.commits| - 1];
    forall log | Follows(plan, c.row, c.profile, log) && Current(after.cells, log) ensures log == c.log {
      SameReads(plan, c.row, c.profile, after.cells, log, c.log, 0);
    }
  }

  // -------------------------------------------------------------- progress

  /** Only then, but then: a build whose output row and profile are stored as it read
      them and whose generation is the current one publishes when no edit holds the
      lock, and changes nothing else. */
  lemma CurrentBuildCommits(s: State, p: Pid, d: Draft)
    requires ProcOf(s, p) == Building(d, Some(s.generation)) && s.writer.None? && Publishable(s, d)
    ensures CanBuild(s, p, LockBuild)
    ensures var locked := Take(s, BuildAct(p, LockBuild));
      CanBuild(locked, p, Publish) &&
      var end := Take(locked, BuildAct(p, Publish));
      && end.commits == s.commits + [Commit(d.output, d.row, d.profile.value, d.log)]
      && ProcOf(end, p) == Idle && end.readers == s.readers - {p} && end.writer.None?
      && end == s.(procs := end.procs, readers := end.readers, commits := end.commits)
  {
  }

  /** A build of an older generation gives up, and a candidate that the store does not
      accept is not committed. */
  lemma OtherBuildsDoNot(s: State, p: Pid, d: Draft, g: nat)
    ensures ProcOf(s, p) == Building(d, Some(g)) && g != s.generation && s.writer.None? ==>
      CanBuild(s, p, LockBuild) && ProcOf(Take(s, BuildAct(p, LockBuild)), p) == Idle
    ensures ProcOf(s, p) == Publishing(d) && !Publishable(s, d) ==>
      CanBuild(s, p, Publish) && Take(s, BuildAct(p, Publish)).commits == s.commits
  {
  }

  ghost function ReadActs(p: Pid, cells: seq<Cell>): seq<Act> {
    seq(|cells|, i requires 0 <= i < |cells| => BuildAct(p, ReadCell(cells[i])))
  }

  ghost function Reads(registry: Registry, cells: seq<Cell>): seq<Read> {
    seq(|cells|, i requires 0 <= i < |cells| => Read(cells[i], Lookup(registry, cells[i])))
  }

  lemma {:induction false} ReadingAll(s: State, p: Pid, d: Draft, cells: seq<Cell>)
    requires ProcOf(s, p) == Building(d, Some(s.generation)) && s.writer.None?
    ensures Runs(s, ReadActs(p, cells))
    ensures var end := Ran(s, ReadActs(p, cells));
      && ProcOf(end, p) == Building(d.(log := d.log + Reads(s.cells, cells)), Some(s.generation))
      && end == s.(procs := end.procs, readers := end.readers)
    decreases |cells|
  {
    if cells == [] {
      assert d.log + Reads(s.cells, cells) == d.log;
    } else {
      var first := Read(cells[0], Lookup(s.cells, cells[0]));
      var t := Take(s, BuildAct(p, ReadCell(cells[0])));
      ReadingAll(t, p, d.(log := d.log + [first]), cells[1..]);
      assert ReadActs(p, cells)[1..] == ReadActs(p, cells[1..]);
      assert Reads(s.cells, cells) == [first] + Reads(s.cells, cells[1..]);
      assert d.log + Reads(s.cells, cells) == d.log + [first] + Reads(s.cells, cells[1..]);
    }
  }

  lemma {:induction false} RunsTogether(s: State, a: seq<Act>, b: seq<Act>)
    requires Runs(s, a) && Runs(Ran(s, a), b)
    ensures Runs(s, a + b) && Ran(s, a + b) == Ran(Ran(s, a), b)
    decreases |a|
  {
    hide Enabled, Take;
    if a == [] {
      assert a + b == b;
    } else {
      RunsTogether(Take(s, a[0]), a[1..], b);
      assert (a + b)[1..] == a[1..] + b;
    }
  }

  lemma RunsMore(s: State, acts: seq<Act>, a: Act)
    requires Runs(s, acts) && Enabled(Ran(s, acts), a)
    ensures Runs(s, acts + [a]) && Ran(s, acts + [a]) == Take(Ran(s, acts), a)
  {
    hide Enabled, Take;
    var t := Ran(s, acts);
    assert [a][1..] == [];
    assert Runs(Take(t, a), []) && Ran(Take(t, a), []) == Take(t, a);
    assert Runs(t, [a]) && Ran(t, [a]) == Take(t, a);
    RunsTogether(s, acts, [a]);
  }

  /** The first three steps of a build. */
  lemma BuildOpens(s: State, p: Pid, output: Str) returns (acts: seq<Act>)
    requires Resting(s) && output in s.outputs
    requires s.outputs[output].profile in s.profiles && !s.profiles[s.outputs[output].profile].archived
    ensures Runs(s, acts)
    ensures var row, end := s.outputs[output], Ran(s, acts);
      && ProcOf(end, p) == Building(Draft(output, row, Some(s.profiles[row.profile]), []), Some(s.generation))
      && end == s.(procs := end.procs, readers := {}) && end.writer.None?
  {
    acts := [];
    RunsMore(s, acts, BuildAct(p, StartBuild(output)));
    acts := acts + [BuildAct(p, StartBuild(output))];
    RunsMore(s, acts, BuildAct(p, ReadProfile));
    acts := acts + [BuildAct(p, ReadProfile)];
    RunsMore(s, acts, BuildAct(p, ReadGeneration));
    acts := acts + [BuildAct(p, ReadGeneration)];
  }

  /** From a service at rest, every stored output of a profile in use can be built from
      whatever entries its plan reads, and the build is committed. */
  lemma EveryOutputCanBePublished(s: State, p: Pid, output: Str, cells: seq<Cell>) returns (acts: seq<Act>)
    requires Resting(s) && output in s.outputs
    requires s.outputs[output].profile in s.profiles && !s.profiles[s.outputs[output].profile].archived
    ensures Runs(s, acts)
    ensures var row := s.outputs[output];
      var end := Ran(s, acts);
      && end.commits == s.commits + [Commit(output, row, s.profiles[row.profile], Reads(s.cells, cells))]
      && end.cells == s.cells && end.profiles == s.profiles && end.generation == s.generation
  {
    hide Take, Enabled, CanBuild, Runs, Ran, Resting;
    var row := s.outputs[output];
    var d := Draft(output, row, Some(s.profiles[row.profile]), []);
    acts := BuildOpens(s, p, output);
    var begun := Ran(s, acts);
    ReadingAll(begun, p, d, cells);
    RunsTogether(s, acts, ReadActs(p, cells));
    acts := acts + ReadActs(p, cells);
    assert [] + Reads(s.cells, cells) == Reads(s.cells, cells);
    var read, log := Ran(s, acts), Reads(s.cells, cells);
    CurrentBuildCommits(read, p, d.(log := log));
    assert Enabled(read, BuildAct(p, LockBuild)) by {
      BuildEnabled(read, p, LockBuild);
    }
    RunsMore(s, acts, BuildAct(p, LockBuild));
    acts := acts + [BuildAct(p, LockBuild)];
    BuildEnabled(Ran(s, acts), p, Publish);
    RunsMore(s, acts, BuildAct(p, Publish));
    acts := acts + [BuildAct(p, Publish)];
  }

  lemma BuildEnabled(s: State, p: Pid, b: BuildStep)
    ensures Enabled(s, BuildAct(p, b)) <==> CanBuild(s, p, b)
  {
  }

  ghost function CheckActs(p: Pid, names: seq<Cell>): seq<Act> {
    seq(|names|, i requires 0 <= i < |names| => SaveAct(p, CheckName(names[i])))
  }

  lemma {:induction false} CheckingAll(s: State, p: Pid, id: Str, saved: Profile, checked: set<Cell>, names: seq<Cell>)
    requires ProcOf(s, p) == Saving(id, saved, checked) && forall c :: c in names ==> c in s.cells
    ensures Runs(s, CheckActs(p, names))
    ensures var end := Ran(s, CheckActs(p, names));
      && ProcOf(end, p) == Saving(id, saved, checked + Elements(names))
      && end == s.(procs := end.procs, readers := end.readers, writer := end.writer)
    decreases |names|
  {
    if names == [] {
      assert checked + Elements(names) == checked;
    } else {
      var t := Take(s, SaveAct(p, CheckName(names[0])));
      CheckingAll(t, p, id, saved, checked + {names[0]}, names[1..]);
      assert CheckActs(p, names)[1..] == CheckActs(p, names[1..]);
      assert checked + {names[0]} + Elements(names[1..]) == checked + Elements(names);
    }
  }

  /** A profile all of whose names exist can be stored, whatever it replaces. */
  lemma EveryProfileCanBeSaved(s: State, p: Pid, id: Str, candidate: Profile, names: seq<Cell>) returns (acts: seq<Act>)
    requires Resting(s) && Elements(names) == Names(candidate) && Names(candidate) <= s.cells.Keys
    ensures Runs(s, acts) && Ran(s, acts).profiles == s.profiles[id := candidate]
    ensures Ran(s, acts).cells == s.cells && Ran(s, acts).generation == s.generation
  {
    hide Names, Runs, Ran;
    forall c | c in names ensures c in s.cells {
      assert c in Elements(names);
    }
    assert Runs(s, []) && Ran(s, []) == s by {
      NoSteps(s);
    }
    RunsMore(s, [], SaveAct(p, StartSave(id, candidate)));
    acts := [] + [SaveAct(p, StartSave(id, candidate))];
    CheckingAll(Ran(s, acts), p, id, candidate, {}, names);
    assert {} + Elements(names) == Elements(names);
    RunsTogether(s, acts, CheckActs(p, names));
    acts := acts + CheckActs(p, names);
    RunsMore(s, acts, SaveAct(p, Save));
    acts := acts + [SaveAct(p, Save)];
  }

  lemma NoSteps(s: State)
    ensures Runs(s, []) && Ran(s, []) == s
  {
  }

  ghost function DeleteActs(p: Pid, cells: seq<Cell>): seq<Act> {
    seq(|cells|, i requires 0 <= i < |cells| => EditAct(p, Delete(cells[i])))
  }

  lemma {:induction false} DeletingAll(s: State, p: Pid, released: set<Cell>, cells: seq<Cell>)
    requires ProcOf(s, p) == Writing(released, {}) && s.writer == Some(p) && s.readers == {}
    requires forall c :: c in cells ==> c in released
    ensures Runs(s, DeleteActs(p, cells))
    ensures var end := Ran(s, DeleteActs(p, cells));
      && ProcOf(end, p) == Writing(released, {}) && end.writer == Some(p)
      && end == s.(procs := end.procs, readers := {}, cells := s.cells - Elements(cells))
    decreases |cells|
  {
    if cells == [] {
      assert s.cells - Elements(cells) == s.cells;
    } else {
      var t := Take(s, EditAct(p, Delete(cells[0])));
      DeletingAll(t, p, released, cells[1..]);
      assert DeleteActs(p, cells)[1..] == DeleteActs(p, cells[1..]);
      assert s.cells - {cells[0]} - Elements(cells[1..]) == s.cells - Elements(cells);
    }
  }

  lemma RemovalOpens(s: State, p: Pid, removed: set<Cell>) returns (acts: seq<Act>)
    requires Resting(s) && !Named(s.profiles, removed)
    ensures Runs(s, acts)
    ensures var end := Ran(s, acts);
      && ProcOf(end, p) == Writing(removed, {}) && end.writer == Some(p)
      && end == s.(procs := end.procs, readers := {}, writer := Some(p))
  {
    hide Named, AllNames, Runs, Ran;
    NoSteps(s);
    acts := [];
    RunsMore(s, acts, EditAct(p, LockEdit));
    acts := acts + [EditAct(p, LockEdit)];
    RunsMore(s, acts, EditAct(p, CheckReferences(removed)));
    acts := acts + [EditAct(p, CheckReferences(removed))];
    NothingImported(s.profiles, removed);
    RunsMore(s, acts, EditAct(p, StoreEdit(map[])));
    acts := acts + [EditAct(p, StoreEdit(map[]))];
    assert {} - s.cells.Keys == {};
  }

  lemma NothingImported(profiles: map<Str, Profile>, removed: set<Cell>)
    ensures AllNames(map[]) == {} && !Named(map[], removed) && profiles + map[] == profiles
  {
  }

  /** Nobody has to go on: a build gives up, a profile that names something missing is
      refused, an edit whose entries are still named is unlocked, and each leaves nothing
      behind. Outputs and archived profiles change without the lock. */
  lemma AnybodyCanStop(s: State, p: Pid, o: Str, row: OutputRow, id: Str, archived: bool)
    ensures ProcOf(s, p).Building? ==>
      Enabled(s, BuildAct(p, GiveUp)) && Take(s, BuildAct(p, GiveUp)) == Moved(s, p, Idle)
    ensures ProcOf(s, p).Saving? ==>
      Enabled(s, SaveAct(p, Refuse)) && Take(s, SaveAct(p, Refuse)) == Moved(s, p, Idle)
    ensures ProcOf(s, p).Locked? || ProcOf(s, p).Bumped? ==>
      Enabled(s, EditAct(p, Unlock)) && Take(s, EditAct(p, Unlock)) == Moved(s, p, Idle)
    ensures Enabled(s, EditOutput(o, row))
    ensures Take(s, EditOutput(o, row)) == s.(outputs := s.outputs[o := row])
    ensures id in s.profiles ==>
      Enabled(s, Archive(id, archived)) &&
      Take(s, Archive(id, archived)).profiles == s.profiles[id := s.profiles[id].(archived := archived)]
  {
    hide AllNames, Names, Named, Publishable;
  }

  /** An edit that would release an entry that a stored profile names does not get past
      its check. */
  lemma NamedEntriesAreKept(s: State, p: Pid, id: Str, cells: set<Cell>)
    requires id in s.profiles
    requires (exists l :: l in s.profiles[id].lists && ListCell(l) in cells) ||
      exists c :: c in s.profiles[id].categories && CategoryCell(c) in cells
    ensures !Enabled(s, EditAct(p, CheckReferences(cells)))
  {
    if l :| l in s.profiles[id].lists && ListCell(l) in cells {
      assert ListCell(l) in Names(s.profiles[id]) * cells;
    } else {
      var c :| c in s.profiles[id].categories && CategoryCell(c) in cells;
      assert CategoryCell(c) in Names(s.profiles[id]) * cells;
    }
  }

  /** What no stored profile names can be removed from the library, and the generation
      moves, so that no build under way will publish what it read before. */
  lemma EveryUnusedEntryCanBeRemoved(s: State, p: Pid, cells: seq<Cell>) returns (acts: seq<Act>)
    requires Resting(s) && !Named(s.profiles, Elements(cells))
    ensures Runs(s, acts)
    ensures var end := Ran(s, acts);
      && end.cells == s.cells - Elements(cells) && end.generation == s.generation + 1
      && end.profiles == s.profiles && end.writer.None? && end.readers == {}
  {
    hide Named, AllNames, Runs, Ran, Resting, Elements;
    acts := RemovalOpens(s, p, Elements(cells));
    forall c | c in cells ensures c in Elements(cells) {
      InElements(cells, c);
    }
    DeletingAll(Ran(s, acts), p, Elements(cells), cells);
    RunsTogether(s, acts, DeleteActs(p, cells));
    acts := acts + DeleteActs(p, cells);
    RunsMore(s, acts, EditAct(p, Bump));
    acts := acts + [EditAct(p, Bump)];
    RunsMore(s, acts, EditAct(p, Unlock));
    acts := acts + [EditAct(p, Unlock)];
  }

  lemma InElements(cells: seq<Cell>, c: Cell)
    ensures c in cells <==> c in Elements(cells)
  {
  }

  // -------------------------------------------------------------- references

  /** Library references stay intact: in every interleaving, when no library edit
      is under way, every stored profile names only lists and categories that
      exist. A removal never makes it otherwise, not even for a moment. */
  lemma ReferencesStayIntact(s: State, acts: seq<Act>)
    requires Resting(s) && Runs(s, acts)
    ensures var end := Ran(s, acts);
      forall id :: id in end.profiles ==> Names(end.profiles[id]) <= end.cells.Keys + Owed(end)
    ensures var end := Ran(s, acts);
      !Dirty(end) ==> forall id, l :: id in end.profiles && l in end.profiles[id].lists ==> ListCell(l) in end.cells
    ensures var end := Ran(s, acts);
      !Dirty(end) ==>
        forall id, c :: id in end.profiles && c in end.profiles[id].categories ==> CategoryCell(c) in end.cells
  {
    hide LockHeld, Consistent, Runs, Ran;
    RestingIsFine(s);
    RunKeepsInvariants(s, acts);
    var end := Ran(s, acts);
    if !Dirty(end) {
      forall id, l | id in end.profiles && l in end.profiles[id].lists ensures ListCell(l) in end.cells {
        assert ListCell(l) in Names(end.profiles[id]);
      }
      forall id, c | id in end.profiles && c in end.profiles[id].categories ensures CategoryCell(c) in end.cells {
        assert CategoryCell(c) in Names(end.profiles[id]);
      }
    }
  }

  ghost function Writes(p: Pid, entries: seq<(Cell, Str)>): seq<Act> {
    seq(|entries|, i requires 0 <= i < |entries| => EditAct(p, Write(entries[i].0, entries[i].1)))
  }

  /** An import that writes every entry its profiles name may always finish: once the
      entries are written, nothing is owed. */
  lemma {:induction false} InstallingPays(s: State, p: Pid, entries: seq<(Cell, Str)>)
    requires ProcOf(s, p).Writing? && forall c :: c in ProcOf(s, p).owed ==> exists e :: e in entries && e.0 == c
    ensures Runs(s, Writes(p, entries)) && CanEdit(Ran(s, Writes(p, entries)), p, Bump)
    decreases |entries|
  {
    if entries == [] {
      assert ProcOf(s, p).owed == {};
    } else {
      var t := Take(s, EditAct(p, Write(entries[0].0, entries[0].1)));
      assert ProcOf(t, p) == Writing(ProcOf(s, p).released, ProcOf(s, p).owed - {entries[0].0});
      assert entries == [entries[0]] + entries[1..];
      InstallingPays(t, p, entries[1..]);
      assert Writes(p, entries)[1..] == Writes(p, entries[1..]);
    }
  }
}
