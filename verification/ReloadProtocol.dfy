/**
 The daemon's reload protocol and the command-line updaters beside it, as one state machine.

 Any number of actors take steps in any order. A request passes the gate, raises the `reloading`
 flag, takes the project's file lock, updates the project, starts the reload, may hand over to
 a background monitor, lowers the flag, rolls back if the reload failed, and releases. After a
 handover the same actor is both: the monitor goes on, and the handler drops the gate at some
 point beside it. An updater does the locked part alone. Every outcome that depends on I/O, on
 the engine or on a timer is a choice of the event that is taken.
 */
module ReloadProtocol {
  import opened Wrappers

  type Actor = nat
  type RequestId = string
  type Name = string
  /** The contents of a directory, of the state file or of the runtime artifacts. */
  type Contents = int

  /** A managed directory, or a link in its place that leads nowhere. */
  datatype Root = Tree(contents: Contents) | Dangling(target: string)

  datatype Project = Project(dirs: map<Name, Root>, state: Contents)

  datatype Kind = Request(id: RequestId, update: bool, scope: set<Name>) | Updater(scope: set<Name>)

  /** `Failed` is undone, `Broken` failed in the undoing as well. */
  datatype Outcome = Pending | Refused | Failed | Broken | Kept

  datatype Phase =
    | Idle
    | Gated          // holds the gate, the body is being read and checked
    | Cleared        // has seen `reloading` false
    | Flagged        // has raised `reloading`
    | Recorded       // has recorded the start
    | Locked         // holds the file lock
    | Captured       // has captured the state file and the runtime artifacts
    | BackedUp       // has backed up the scoped directories
    | Installed      // directories replaced and state recorded, not validated yet
    | Undoing        // apply or validation failed, directories to restore
    | UndoneDirs     // state to restore
    | Loading        // the project is settled, the new configuration is being loaded
    | Reloading      // the reload task runs
    | ToFinish       // about to lower `reloading`
    | ToRecord       // has lowered it, about to record the end
    | RollDirs | RollState | RollArtifacts
    | Releasing      // about to drop the lock guard
    | Leaving        // about to drop the gate guard
    | Done

  datatype Local = Local(
    kind: Kind, phase: Phase, gated: bool, background: bool, changed: bool, rollback: bool, outcome: Outcome,
    snapState: Contents, snapArtifacts: Contents,
    // history, read by no step: what the lock was taken on, and what validation accepted
    orig: Project, origArtifacts: Contents, synced: Project)

  /** What the actors share: the daemon's gate and flag, the file lock, and the project's files. */
  datatype Shared = Shared(
    gate: Option<Actor>, reloading: bool, current: Option<RequestId>,
    lock: Option<Actor>, project: Project, backup: map<Name, Root>, artifacts: Contents)

  datatype World = World(shared: Shared, actors: map<Actor, Local>)

  /** The result of a step: the actor that moved, and the shared part. */
  datatype Moved = Moved(l: Local, shared: Shared)

  datatype EnterAct = TakeGate | RejectBody | SeeFlag | SetFlag | RecordStart | TryLock | LockFails

  datatype UpdateAct =
    | Capture(captured: bool)
    | SkipUpdate
    | SyncFails
    | PersistOnly(state: Contents)
    | Backup
    | BackupFails(part: map<Name, Root>)
    | Apply(dirs: map<Name, Root>, newState: Contents)
    | ApplyFails(part: map<Name, Root>)

  datatype CheckAct = Validate(valid: bool) | UndoDirs | UndoState | UndoFails(part: map<Name, Root>, torn: Contents)

  datatype ReloadAct = LoadConfig(loaded: bool) | HandOver | TaskEnds(kept: bool, left: Contents)

  datatype FinishAct = ClearFlag | RecordFinish

  datatype RollAct =
    | RollBackDirs
    | RollBackState
    | RollBackArtifacts
    | RollBackFails(part: map<Name, Root>, torn: Contents, left: Contents)

  datatype LeaveAct = DropGate | ReleaseLock | LeaveGate

  datatype Act =
    | Enter(enter: EnterAct)
    | Update(update: UpdateAct)
    | Check(check: CheckAct)
    | Reload(reload: ReloadAct)
    | Finish(finish: FinishAct)
    | Roll(roll: RollAct)
    | Leave(leave: LeaveAct)

  datatype Event = Event(actor: Actor, act: Act)

  // ---- the steps ----

  /** `dirs` with the names in `scope` taken from `from`. */
  function Overlay(dirs: map<Name, Root>, from: map<Name, Root>, scope: set<Name>): map<Name, Root> {
    (map d | d in dirs && d !in scope :: dirs[d]) + (map d | d in from && d in scope :: from[d])
  }

  /** What a backup of the scoped directories saves: those that exist, so no link that leads nowhere. */
  function Saved(dirs: map<Name, Root>, scope: set<Name>): map<Name, Root> {
    map d | d in dirs && d in scope && dirs[d].Tree? :: dirs[d]
  }

  /** What backup and restore make of directories: the scoped roots that lead nowhere are gone. */
  function Restored(dirs: map<Name, Root>, scope: set<Name>): map<Name, Root> {
    Overlay(dirs, Saved(dirs, scope), scope)
  }

  predicate DanglingIn(dirs: map<Name, Root>, scope: set<Name>) {
    exists d :: d in dirs && d in scope && dirs[d].Dangling?
  }

  predicate Updates(l: Local) {
    l.kind.Request? ==> l.kind.update
  }

  /** Where an actor that holds the lock goes when it is finished with the project. */
  function AfterSync(l: Local, outcome: Outcome): Local {
    l.(phase := if l.kind.Request? then ToFinish else Releasing, rollback := false, outcome := outcome)
  }

  /** From arrival to the attempt on the file lock. */
  function EnterStep(s: Shared, a: Actor, l: Local, act: EnterAct): Option<Moved> {
    match act
    case TakeGate =>
      if l.phase.Idle? && l.kind.Request? then
        if s.gate == None then Some(Moved(l.(phase := Gated, gated := true), s.(gate := Some(a))))
        else Some(Moved(l.(phase := Done, outcome := Refused), s))
      else None
    case RejectBody =>
      if l.phase.Gated? then Some(Moved(l.(phase := Done, gated := false, outcome := Refused), s.(gate := None))) else None
    case SeeFlag =>
      if !l.phase.Gated? then None
      else if s.reloading then Some(Moved(l.(phase := Done, gated := false, outcome := Refused), s.(gate := None)))
      else Some(Moved(l.(phase := Cleared), s))
    case SetFlag =>
      if l.phase.Cleared? then Some(Moved(l.(phase := Flagged), s.(reloading := true))) else None
    case RecordStart =>
      if l.phase.Flagged? && l.kind.Request? then
        Some(Moved(l.(phase := Recorded), s.(current := Some(l.kind.id))))
      else None
    case TryLock =>
      if l.phase.Recorded? || (l.phase.Idle? && l.kind.Updater?) then
        if s.lock == None then
          Some(Moved(l.(phase := Locked, orig := s.project, origArtifacts := s.artifacts), s.(lock := Some(a))))
        else Some(Moved(AfterSync(l, Refused), s))
      else None
    case LockFails =>
      if l.phase.Recorded? || (l.phase.Idle? && l.kind.Updater?) then Some(Moved(AfterSync(l, Refused), s)) else None
  }

  /** With the lock held: capture, back up, replace and record. */
  function UpdateStep(s: Shared, a: Actor, l: Local, act: UpdateAct): Option<Moved> {
    match act
    case Capture(captured) =>
      if !l.phase.Locked? then None
      else if captured then
        Some(Moved(l.(phase := Captured, snapState := s.project.state, snapArtifacts := s.artifacts), s))
      else Some(Moved(AfterSync(l, Failed), s))
    case SkipUpdate =>
      if l.phase.Captured? && !Updates(l) then Some(Moved(l.(phase := Loading, synced := s.project), s)) else None
    case SyncFails =>
      if l.phase.Captured? && Updates(l) then Some(Moved(AfterSync(l, Failed), s)) else None
    case PersistOnly(state) =>
      if l.phase.Captured? && Updates(l) then
        Some(Moved(l.(phase := Installed, changed := false), s.(project := s.project.(state := state))))
      else None
    case Backup =>
      if l.phase.Captured? && Updates(l) then
        Some(Moved(l.(phase := BackedUp, changed := true), s.(backup := Saved(s.project.dirs, l.kind.scope))))
      else None
    case BackupFails(part) =>
      if l.phase.Captured? && Updates(l) then Some(Moved(AfterSync(l, Failed), s.(backup := part))) else None
    case Apply(dirs, state) =>
      if l.phase.BackedUp? then
        Some(Moved(l.(phase := Installed), s.(project := Project(Overlay(s.project.dirs, dirs, l.kind.scope), state))))
      else None
    case ApplyFails(part) =>
      if l.phase.BackedUp? then
        Some(Moved(l.(phase := Undoing), s.(project := s.project.(dirs := Overlay(s.project.dirs, part, l.kind.scope)))))
      else None
  }

  /** The check after the synchronisation, and the undo when it or the apply failed. */
  function CheckStep(s: Shared, a: Actor, l: Local, act: CheckAct): Option<Moved> {
    match act
    case Validate(valid) =>
      if !l.phase.Installed? then None
      else if !valid then Some(Moved(l.(phase := Undoing), s))
      else if l.kind.Request? then Some(Moved(l.(phase := Loading, synced := s.project), s))
      else Some(Moved(l.(phase := Releasing, synced := s.project, outcome := Kept), s))
    case UndoDirs =>
      if l.phase.Undoing? then Some(Moved(l.(phase := UndoneDirs), RestoreDirs(s, l))) else None
    case UndoState =>
      if l.phase.UndoneDirs? then
        Some(Moved(AfterSync(l, Failed), s.(project := s.project.(state := l.snapState))))
      else None
    case UndoFails(part, torn) =>
      if l.phase.Undoing? || l.phase.UndoneDirs? then
        Some(Moved(AfterSync(l, Broken), s.(project := Project(Overlay(s.project.dirs, part, l.kind.scope), torn))))
      else None
  }

  /** From the settled project to the end of the reload task. */
  function ReloadStep(s: Shared, a: Actor, l: Local, act: ReloadAct): Option<Moved> {
    match act
    case LoadConfig(loaded) =>
      if !l.phase.Loading? then None
      else if loaded then Some(Moved(l.(phase := Reloading), s))
      else Some(Moved(l.(phase := ToFinish, rollback := Updates(l), outcome := Failed), s))
    case HandOver =>
      if l.phase.Reloading? && !l.background then Some(Moved(l.(background := true), s)) else None
    case TaskEnds(kept, left) =>
      if l.phase.Reloading? then
        Some(Moved(l.(phase := ToFinish, rollback := !kept && Updates(l), outcome := if kept then Kept else Failed),
                   s.(artifacts := left)))
      else None
  }

  /** The end of the reload: the flag, then the record. */
  function FinishStep(s: Shared, a: Actor, l: Local, act: FinishAct): Option<Moved> {
    match act
    case ClearFlag =>
      if l.phase.ToFinish? then Some(Moved(l.(phase := ToRecord), s.(reloading := false))) else None
    case RecordFinish =>
      if l.phase.ToRecord? && l.kind.Request? then
        Some(Moved(l.(phase := if l.rollback then RollDirs else Releasing),
                   s.(current := if s.current == Some(l.kind.id) then None else s.current)))
      else None
  }

  /** The late rollback. */
  function RollStep(s: Shared, a: Actor, l: Local, act: RollAct): Option<Moved> {
    match act
    case RollBackDirs =>
      if l.phase.RollDirs? then Some(Moved(l.(phase := RollState), RestoreDirs(s, l))) else None
    case RollBackState =>
      if l.phase.RollState? then
        Some(Moved(l.(phase := RollArtifacts), s.(project := s.project.(state := l.snapState))))
      else None
    case RollBackArtifacts =>
      if l.phase.RollArtifacts? then
        Some(Moved(l.(phase := Releasing), s.(artifacts := l.snapArtifacts)))
      else None
    case RollBackFails(part, torn, left) =>
      if l.phase.RollDirs? || l.phase.RollState? || l.phase.RollArtifacts? then
        Some(Moved(l.(phase := Releasing, outcome := Broken),
                   s.(project := Project(Overlay(s.project.dirs, part, l.kind.scope), torn), artifacts := left)))
      else None
  }

  /** The release of the lock and of the gate; after a handover the handler drops the gate when it returns. */
  function LeaveStep(s: Shared, a: Actor, l: Local, act: LeaveAct): Option<Moved> {
    match act
    case DropGate =>
      if l.background && l.gated then Some(Moved(l.(gated := false), s.(gate := None))) else None
    case ReleaseLock =>
      if l.phase.Releasing? then
        Some(Moved(l.(phase := Leaving), s.(lock := if s.lock == Some(a) then None else s.lock)))
      else None
    case LeaveGate =>
      if l.phase.Leaving? then
        Some(Moved(l.(phase := Done, gated := false), s.(gate := if l.gated then None else s.gate)))
      else None
  }

  /** One step: what the world becomes, or `None` when the step cannot be taken. */
  function Take(w: World, e: Event): Option<World> {
    if e.actor !in w.actors then None
    else
      match Step(w.shared, e.actor, w.actors[e.actor], e.act)
      case None => None
      case Some(m) => Some(World(m.shared, w.actors[e.actor := m.l]))
  }

  function Step(s: Shared, a: Actor, l: Local, act: Act): Option<Moved> {
    match act
    case Enter(x) => EnterStep(s, a, l, x)
    case Update(x) => UpdateStep(s, a, l, x)
    case Check(x) => CheckStep(s, a, l, x)
    case Reload(x) => ReloadStep(s, a, l, x)
    case Finish(x) => FinishStep(s, a, l, x)
    case Roll(x) => RollStep(s, a, l, x)
    case Leave(x) => LeaveStep(s, a, l, x)
  }

  /** `restore_managed_dirs`, when the update had changed something. */
  function RestoreDirs(s: Shared, l: Local): Shared {
    if l.changed then s.(project := s.project.(dirs := Overlay(s.project.dirs, s.backup, l.kind.scope))) else s
  }

  /** A run: the events taken one after the other. */
  function Exec(w: World, es: seq<Event>): Option<World>
    decreases |es|
  {
    if es == [] then Some(w)
    else
      match Take(w, es[0])
      case None => None
      case Some(next) => Exec(next, es[1..])
  }

  ghost predicate Init(w: World) {
    && w.shared.gate == None && !w.shared.reloading && w.shared.current == None && w.shared.lock == None
    && forall a | a in w.actors ::
         w.actors[a].phase.Idle? && !w.actors[a].gated && !w.actors[a].background && w.actors[a].outcome.Pending?
  }

  // ---- who is where ----

  /** The phases in the order they are passed. */
  function Stage(p: Phase): nat {
    match p
    case Idle => 0
    case Gated => 1
    case Cleared => 2
    case Flagged => 3
    case Recorded => 4
    case Locked => 5
    case Captured => 6
    case BackedUp => 7
    case Installed => 8
    case Undoing => 9
    case UndoneDirs => 10
    case Loading => 11
    case Reloading => 12
    case ToFinish => 13
    case ToRecord => 14
    case RollDirs => 15
    case RollState => 16
    case RollArtifacts => 17
    case Releasing => 18
    case Leaving => 19
    case Done => 20
  }

  /** Between the acquisition of the file lock and the drop of its guard. */
  predicate HoldsLock(l: Local) {
    5 <= Stage(l.phase) <= 18 && !l.outcome.Refused?
  }

  /** Between raising the `reloading` flag and lowering it. */
  predicate Active(l: Local) {
    l.kind.Request? && 3 <= Stage(l.phase) <= 13
  }

  /** Between recording the start and recording the end. */
  predicate OnRecord(l: Local) {
    l.kind.Request? && 4 <= Stage(l.phase) <= 14
  }

  // ---- the invariant ----

  ghost predicate Shape(l: Local) {
    && (l.kind.Updater? ==> !l.background && (l.phase.Idle? || 5 <= Stage(l.phase) <= 10 || 18 <= Stage(l.phase)))
    && (l.kind.Request? && !l.background ==> (l.gated <==> 1 <= Stage(l.phase) <= 19))
    && (l.gated ==> l.kind.Request? && 1 <= Stage(l.phase) <= 19)
    && (l.background ==> 12 <= Stage(l.phase))
    && (7 <= Stage(l.phase) <= 10 ==> Updates(l))
    && (Stage(l.phase) <= 12 ==> l.outcome.Pending?)
    && (13 <= Stage(l.phase) ==> !l.outcome.Pending?)
    && (15 <= Stage(l.phase) <= 17 ==> l.outcome.Failed? && Updates(l))
    && (l.rollback && 13 <= Stage(l.phase) <= 14 ==> l.outcome.Failed? && Updates(l))
  }

  ghost predicate Holds(token: Option<Actor>, a: Actor, has: bool) {
    token == Some(a) <==> has
  }

  /** What an actor's own phase says about the shared tokens. */
  ghost predicate Own(s: Shared, a: Actor, l: Local) {
    && Shape(l)
    && Holds(s.gate, a, l.gated)
    && Holds(s.lock, a, HoldsLock(l))
    && (Active(l) ==> s.reloading)
    && (l.phase.Cleared? ==> !s.reloading)
  }

  /** The directories that an undo of this actor's leads to. */
  ghost function UndoneDirsOf(l: Local): map<Name, Root> {
    if l.changed then Restored(l.orig.dirs, l.kind.scope) else l.orig.dirs
  }

  /** The scoped directories can be put back: the backup is this actor's, and nothing else has changed. */
  ghost predicate Undoable(s: Shared, l: Local) {
    && l.snapState == l.orig.state
    && if l.changed then
         && s.backup == Saved(l.orig.dirs, l.kind.scope)
         && Overlay(s.project.dirs, s.backup, l.kind.scope) == Restored(l.orig.dirs, l.kind.scope)
       else s.project.dirs == l.orig.dirs
  }

  /** The project is the original one; if an update was undone, without the scoped roots that led nowhere. */
  ghost predicate PutBack(project: Project, l: Local) {
    project == l.orig || (Updates(l) && project == l.orig.(dirs := Restored(l.orig.dirs, l.kind.scope)))
  }

  ghost predicate Settled(s: Shared, l: Local) {
    && (l.outcome.Failed? ==> PutBack(s.project, l) && (Updates(l) ==> s.artifacts == l.origArtifacts))
    && (l.outcome.Kept? ==> s.project == l.synced)
  }

  /** Nothing has touched the runtime artifacts, or the capture of them is still at hand. */
  ghost predicate ArtifactsOk(s: Shared, l: Local) {
    match l.phase
    case Locked => s.artifacts == l.origArtifacts
    case Captured | BackedUp | Installed | Undoing | UndoneDirs | Loading =>
      s.artifacts == l.origArtifacts == l.snapArtifacts
    case Reloading => l.snapArtifacts == l.origArtifacts
    case ToFinish | ToRecord => l.rollback ==> l.snapArtifacts == l.origArtifacts
    case RollDirs | RollState | RollArtifacts => l.snapArtifacts == l.origArtifacts
    case _ => true
  }

  /** What the holder of the lock can rely on at each point. */
  ghost predicate HolderOk(s: Shared, l: Local) {
    ArtifactsOk(s, l) && ProjectOk(s, l) && (!Updates(l) ==> s.project == l.orig)
  }

  ghost predicate HolderFine(s: Shared, l: Local) {
    HoldsLock(l) ==> HolderOk(s, l)
  }

  ghost predicate ProjectOk(s: Shared, l: Local) {
    match l.phase
    case Locked => s.project == l.orig
    case Captured => s.project == l.orig && l.snapState == l.orig.state
    case BackedUp => s.project == l.orig && l.changed && Undoable(s, l)
    case Installed | Undoing | RollDirs => Undoable(s, l)
    case UndoneDirs | RollState => s.project.dirs == UndoneDirsOf(l) && l.snapState == l.orig.state
    case Loading | Reloading => s.project == l.synced && if Updates(l) then Undoable(s, l) else s.project == l.orig
    case ToFinish | ToRecord => if l.rollback then Undoable(s, l) else Settled(s, l)
    case RollArtifacts => PutBack(s.project, l)
    case Releasing => Settled(s, l)
    case _ => true
  }

  ghost predicate TokenStep(before: Option<Actor>, after: Option<Actor>, a: Actor, had: bool, has: bool) {
    && (has && !had ==> before == None)
    && after == if has then Some(a) else if had then None else before
  }

  /** What a step does to the tokens, the flag and the record, in terms of the actor that moves. */
  ghost predicate Facts(s: Shared, a: Actor, l: Local, s': Shared, l': Local) {
    && l'.kind == l.kind && Stage(l.phase) <= Stage(l'.phase) && Own(s', a, l')
    && TokenStep(s.gate, s'.gate, a, l.gated, l'.gated)
    && TokenStep(s.lock, s'.lock, a, HoldsLock(l), HoldsLock(l'))
    && (Active(l') && !Active(l) ==> l.phase.Cleared?)
    && (Active(l) && !Active(l') ==> l.phase.ToFinish?)
    && s'.reloading == (if Active(l') then true else if Active(l) then false else s.reloading)
    && (l'.phase.Cleared? ==> !s.reloading)
    && (OnRecord(l') && !OnRecord(l) ==> Active(l) && s'.current == Some(l.kind.id))
    && (OnRecord(l) && !OnRecord(l') ==> s'.current == if s.current == Some(l.kind.id) then None else s.current)
    && (OnRecord(l) == OnRecord(l') ==> s'.current == s.current)
    && (!HoldsLock(l) ==> s'.project == s.project && s'.backup == s.backup && s'.artifacts == s.artifacts)
  }

  lemma EnterFacts(s: Shared, a: Actor, l: Local, act: EnterAct)
    requires Own(s, a, l) && EnterStep(s, a, l, act).Some?
    ensures var m := EnterStep(s, a, l, act).value; Facts(s, a, l, m.shared, m.l)
  {
    hide Overlay, Saved, Restored;
  }

  lemma UpdateFacts(s: Shared, a: Actor, l: Local, act: UpdateAct)
    requires Own(s, a, l) && UpdateStep(s, a, l, act).Some?
    ensures var m := UpdateStep(s, a, l, act).value; Facts(s, a, l, m.shared, m.l)
  {
    hide Overlay, Saved, Restored;
  }

  lemma CheckFacts(s: Shared, a: Actor, l: Local, act: CheckAct)
    requires Own(s, a, l) && CheckStep(s, a, l, act).Some?
    ensures var m := CheckStep(s, a, l, act).value; Facts(s, a, l, m.shared, m.l)
  {
    hide Overlay, Saved, Restored;
  }

  lemma ReloadFacts(s: Shared, a: Actor, l: Local, act: ReloadAct)
    requires Own(s, a, l) && ReloadStep(s, a, l, act).Some?
    ensures var m := ReloadStep(s, a, l, act).value; Facts(s, a, l, m.shared, m.l)
  {
    hide Overlay, Saved, Restored;
  }

  lemma FinishFacts(s: Shared, a: Actor, l: Local, act: FinishAct)
    requires Own(s, a, l) && FinishStep(s, a, l, act).Some?
    ensures var m := FinishStep(s, a, l, act).value; Facts(s, a, l, m.shared, m.l)
  {
    hide Overlay, Saved, Restored;
  }

  lemma RollFacts(s: Shared, a: Actor, l: Local, act: RollAct)
    requires Own(s, a, l) && RollStep(s, a, l, act).Some?
    ensures var m := RollStep(s, a, l, act).value; Facts(s, a, l, m.shared, m.l)
  {
    hide Overlay, Saved, Restored;
  }

  lemma DropGateFacts(s: Shared, a: Actor, l: Local)
    requires Own(s, a, l) && l.background && l.gated
    ensures Facts(s, a, l, s.(gate := None), l.(gated := false))
  {
    hide Overlay, Saved, Restored;
    assert Stage(l.phase) == Stage(l.(gated := false).phase);
    assert Active(l) == Active(l.(gated := false)) && OnRecord(l) == OnRecord(l.(gated := false));
  }

  lemma ReleaseFacts(s: Shared, a: Actor, l: Local)
    requires Own(s, a, l) && l.phase.Releasing?
    ensures var m := LeaveStep(s, a, l, ReleaseLock).value; Facts(s, a, l, m.shared, m.l)
  {
    assert !Active(l) && !OnRecord(l);
  }

  lemma LeaveGateFacts(s: Shared, a: Actor, l: Local)
    requires Own(s, a, l) && l.phase.Leaving?
    ensures var m := LeaveStep(s, a, l, LeaveGate).value; Facts(s, a, l, m.shared, m.l)
  {
    assert !Active(l) && !OnRecord(l) && !HoldsLock(l);
  }

  lemma LeaveFacts(s: Shared, a: Actor, l: Local, act: LeaveAct)
    requires Own(s, a, l) && LeaveStep(s, a, l, act).Some?
    ensures var m := LeaveStep(s, a, l, act).value; Facts(s, a, l, m.shared, m.l)
  {
    match act
    case DropGate => DropGateFacts(s, a, l);
    case ReleaseLock =>
      hide TokenStep, Own;
      ReleaseFacts(s, a, l);
    case LeaveGate =>
      hide TokenStep, Own;
      LeaveGateFacts(s, a, l);
  }

  lemma StepFacts(s: Shared, a: Actor, l: Local, act: Act)
    requires Own(s, a, l) && Step(s, a, l, act).Some?
    ensures var m := Step(s, a, l, act).value; Facts(s, a, l, m.shared, m.l)
  {
    hide EnterStep, UpdateStep, CheckStep, ReloadStep, FinishStep, RollStep, LeaveStep, Own, Facts;
    match act
    case Enter(x) => EnterFacts(s, a, l, x);
    case Update(x) => UpdateFacts(s, a, l, x);
    case Check(x) => CheckFacts(s, a, l, x);
    case Reload(x) => ReloadFacts(s, a, l, x);
    case Finish(x) => FinishFacts(s, a, l, x);
    case Roll(x) => RollFacts(s, a, l, x);
    case Leave(x) => LeaveFacts(s, a, l, x);
  }

  /** Only a scoped root that leads nowhere gets lost on the way through a backup. */
  lemma RestoredExactly(dirs: map<Name, Root>, scope: set<Name>)
    ensures Restored(dirs, scope) == dirs <==> !DanglingIn(dirs, scope)
  {
    if !DanglingIn(dirs, scope) {
      assert Restored(dirs, scope) == dirs;
    } else {
      var d :| d in dirs && d in scope && dirs[d].Dangling?;
      assert d !in Restored(dirs, scope);
    }
  }

  lemma OverlayTwice(dirs: map<Name, Root>, first: map<Name, Root>, second: map<Name, Root>, scope: set<Name>)
    ensures Overlay(Overlay(dirs, first, scope), second, scope) == Overlay(dirs, second, scope)
  {
  }

  lemma BackedUpIsUndoable(s: Shared, l: Local)
    requires s.project == l.orig && l.snapState == l.orig.state
    ensures Undoable(s.(backup := Saved(s.project.dirs, l.kind.scope)), l.(phase := BackedUp, changed := true))
  {
  }

  /** The holder of the lock keeps what it needs to roll back, and has rolled back where it says so. */
  lemma UpdateKeepsHolder(s: Shared, a: Actor, l: Local, act: UpdateAct)
    requires Own(s, a, l) && HolderFine(s, l) && UpdateStep(s, a, l, act).Some?
    ensures var m := UpdateStep(s, a, l, act).value; HolderFine(m.shared, m.l)
  {
    hide Overlay, Saved, Restored;
    match act
    case Backup => BackedUpIsUndoable(s, l);
    case Apply(dirs, _) => OverlayTwice(s.project.dirs, dirs, Saved(l.orig.dirs, l.kind.scope), l.kind.scope);
    case ApplyFails(part) => OverlayTwice(s.project.dirs, part, Saved(l.orig.dirs, l.kind.scope), l.kind.scope);
    case _ =>
  }

  lemma CheckKeepsHolder(s: Shared, a: Actor, l: Local, act: CheckAct)
    requires Own(s, a, l) && HolderFine(s, l) && CheckStep(s, a, l, act).Some?
    ensures var m := CheckStep(s, a, l, act).value; HolderFine(m.shared, m.l)
  {
    hide Overlay, Saved, Restored;
  }

  lemma ReloadKeepsHolder(s: Shared, a: Actor, l: Local, act: ReloadAct)
    requires Own(s, a, l) && HolderFine(s, l) && ReloadStep(s, a, l, act).Some?
    ensures var m := ReloadStep(s, a, l, act).value; HolderFine(m.shared, m.l)
  {
    hide Overlay, Saved, Restored;
  }

  lemma FinishKeepsHolder(s: Shared, a: Actor, l: Local, act: FinishAct)
    requires Own(s, a, l) && HolderFine(s, l) && FinishStep(s, a, l, act).Some?
    ensures var m := FinishStep(s, a, l, act).value; HolderFine(m.shared, m.l)
  {
    hide Overlay, Saved, Restored;
  }

  lemma RollKeepsHolder(s: Shared, a: Actor, l: Local, act: RollAct)
    requires Own(s, a, l) && HolderFine(s, l) && RollStep(s, a, l, act).Some?
    ensures var m := RollStep(s, a, l, act).value; HolderFine(m.shared, m.l)
  {
    hide Overlay, Saved, Restored;
  }

  lemma LeaveKeepsHolder(s: Shared, a: Actor, l: Local, act: LeaveAct)
    requires Own(s, a, l) && HolderFine(s, l) && LeaveStep(s, a, l, act).Some?
    ensures var m := LeaveStep(s, a, l, act).value; HolderFine(m.shared, m.l)
  {
    hide Overlay, Saved, Restored;
  }

  lemma EnterKeepsHolder(s: Shared, a: Actor, l: Local, act: EnterAct)
    requires Own(s, a, l) && HolderFine(s, l) && EnterStep(s, a, l, act).Some?
    ensures var m := EnterStep(s, a, l, act).value; HolderFine(m.shared, m.l)
  {
    hide Overlay, Saved, Restored, Undoable;
  }

  // ---- every reachable world ----

  ghost predicate SomeActive(w: World) {
    exists a :: a in w.actors && Active(w.actors[a])
  }

  ghost predicate OneActive(w: World) {
    forall a, b | a in w.actors && b in w.actors && Active(w.actors[a]) && Active(w.actors[b]) :: a == b
  }

  ghost predicate Names(w: World, a: Actor, id: RequestId) {
    a in w.actors && OnRecord(w.actors[a]) && w.actors[a].kind.id == id
  }

  ghost predicate Inv(w: World) {
    && (forall a | a in w.actors :: Own(w.shared, a, w.actors[a]))
    && (forall a | a in w.actors && HoldsLock(w.actors[a]) :: HolderOk(w.shared, w.actors[a]))
    && (w.shared.gate.Some? ==> w.shared.gate.value in w.actors)
    && (w.shared.lock.Some? ==> w.shared.lock.value in w.actors)
    && OneActive(w)
    && (w.shared.reloading ==> SomeActive(w))
    && (w.shared.current.Some? ==> exists a :: Names(w, a, w.shared.current.value))
  }

  lemma InitHolds(w: World)
    requires Init(w)
    ensures Inv(w)
  {
  }

  /** A step changes one actor, and the others' own facts survive what it does to the shared part. */
  lemma OthersKeepTheirs(w: World, e: Event, b: Actor)
    requires Inv(w) && Take(w, e).Some? && b in w.actors && b != e.actor
    ensures Own(Take(w, e).value.shared, b, w.actors[b])
    ensures HoldsLock(w.actors[b]) ==> HolderOk(Take(w, e).value.shared, w.actors[b])
  {
    var a, l := e.actor, w.actors[e.actor];
    StepFacts(w.shared, a, l, e.act);
    var m := Step(w.shared, a, l, e.act).value;
    assert Own(w.shared, a, l) && Own(w.shared, b, w.actors[b]);
    if HoldsLock(w.actors[b]) {
      assert !HoldsLock(l);
      HolderReadsProjectOnly(w.shared, m.shared, w.actors[b]);
    }
  }

  lemma HolderReadsProjectOnly(s: Shared, s': Shared, l: Local)
    requires s.project == s'.project && s.backup == s'.backup && s.artifacts == s'.artifacts && HolderOk(s, l)
    ensures HolderOk(s', l)
  {
  }

  lemma StepKeepsHolder(s: Shared, a: Actor, l: Local, act: Act)
    requires Own(s, a, l) && HolderFine(s, l) && Step(s, a, l, act).Some?
    ensures var m := Step(s, a, l, act).value; HolderFine(m.shared, m.l)
  {
    hide EnterStep, UpdateStep, CheckStep, ReloadStep, FinishStep, RollStep, LeaveStep, Own, HolderFine;
    match act
    case Enter(x) => EnterKeepsHolder(s, a, l, x);
    case Update(x) => UpdateKeepsHolder(s, a, l, x);
    case Check(x) => CheckKeepsHolder(s, a, l, x);
    case Reload(x) => ReloadKeepsHolder(s, a, l, x);
    case Finish(x) => FinishKeepsHolder(s, a, l, x);
    case Roll(x) => RollKeepsHolder(s, a, l, x);
    case Leave(x) => LeaveKeepsHolder(s, a, l, x);
  }

  lemma StepKeepsFlag(w: World, e: Event)
    requires Inv(w) && Take(w, e).Some?
    ensures OneActive(Take(w, e).value)
    ensures Take(w, e).value.shared.reloading ==> SomeActive(Take(w, e).value)
  {
    var a, l, w' := e.actor, w.actors[e.actor], Take(w, e).value;
    StepFacts(w.shared, a, l, e.act);
    assert Own(w.shared, a, l);
    forall b | b in w.actors
      ensures Own(w.shared, b, w.actors[b])
    {
    }
    if w'.shared.reloading {
      if Active(w'.actors[a]) {
        assert SomeActive(w');
      } else {
        var b :| b in w.actors && Active(w.actors[b]);
        assert b in w'.actors && Active(w'.actors[b]);
      }
    }
  }

  lemma StepKeepsCurrent(w: World, e: Event)
    requires Inv(w) && Take(w, e).Some? && Take(w, e).value.shared.current.Some?
    ensures exists a :: Names(Take(w, e).value, a, Take(w, e).value.shared.current.value)
  {
    var a, l, w' := e.actor, w.actors[e.actor], Take(w, e).value;
    StepFacts(w.shared, a, l, e.act);
    var id := w'.shared.current.value;
    if OnRecord(w'.actors[a]) && w'.actors[a].kind.id == id {
      assert Names(w', a, id);
    } else {
      var b :| Names(w, b, w.shared.current.value);
      assert Names(w', b, id);
    }
  }

  lemma StepKeepsInv(w: World, e: Event)
    requires Inv(w) && Take(w, e).Some?
    ensures Inv(Take(w, e).value)
  {
    var a, l, w' := e.actor, w.actors[e.actor], Take(w, e).value;
    StepFacts(w.shared, a, l, e.act);
    hide Step, HolderOk, HoldsLock, OneActive, SomeActive, Names;
    assert Own(w.shared, a, l);
    StepKeepsHolder(w.shared, a, l, e.act);
    forall b | b in w.actors && b != a
      ensures Own(w'.shared, b, w.actors[b])
      ensures HoldsLock(w.actors[b]) ==> HolderOk(w'.shared, w.actors[b])
    {
      OthersKeepTheirs(w, e, b);
    }
    StepKeepsFlag(w, e);
    if w'.shared.current.Some? {
      StepKeepsCurrent(w, e);
    }
  }

  lemma {:induction false} RunKeepsInv(w: World, es: seq<Event>)
    requires Inv(w) && Exec(w, es).Some?
    ensures Inv(Exec(w, es).value)
    decreases |es|
  {
    if es != [] {
      StepKeepsInv(w, es[0]);
      RunKeepsInv(Take(w, es[0]).value, es[1..]);
    }
  }

  // ---- safety over whole runs ----

  /** At most one actor is between taking the file lock and dropping it, and at most one is past the gate. */
  lemma MutualExclusion(w: World, es: seq<Event>, a: Actor, b: Actor)
    requires Init(w) && Exec(w, es).Some?
    requires a in Exec(w, es).value.actors && b in Exec(w, es).value.actors
    ensures var now := Exec(w, es).value;
      && (HoldsLock(now.actors[a]) && HoldsLock(now.actors[b]) ==> a == b)
      && (now.actors[a].gated && now.actors[b].gated ==> a == b)
  {
    InitHolds(w);
    RunKeepsInv(w, es);
    var now := Exec(w, es).value;
    assert Own(now.shared, a, now.actors[a]) && Own(now.shared, b, now.actors[b]);
  }

  /** The flag is up exactly while one request, and only one, is between raising and lowering it. */
  lemma ReloadingMeansOneActive(w: World, es: seq<Event>)
    requires Init(w) && Exec(w, es).Some?
    ensures var now := Exec(w, es).value; (now.shared.reloading <==> SomeActive(now)) && OneActive(now)
  {
    InitHolds(w);
    RunKeepsInv(w, es);
    var now := Exec(w, es).value;
    forall a | a in now.actors && Active(now.actors[a])
      ensures now.shared.reloading
    {
      assert Own(now.shared, a, now.actors[a]);
    }
  }

  /** With nobody between start and finish, the status shows no reload and no request. */
  lemma QuietIsClean(w: World, es: seq<Event>)
    requires Init(w) && Exec(w, es).Some?
    requires var now := Exec(w, es).value;
      forall a | a in now.actors :: !Active(now.actors[a]) && !OnRecord(now.actors[a])
    ensures !Exec(w, es).value.shared.reloading && Exec(w, es).value.shared.current == None
  {
    InitHolds(w);
    RunKeepsInv(w, es);
  }

  /** Only the holder of the file lock changes the project, the backup or the artifacts. */
  lemma OnlyTheHolderWrites(w: World, e: Event)
    requires Inv(w) && Take(w, e).Some? && w.shared.lock != Some(e.actor)
    ensures var s, s' := w.shared, Take(w, e).value.shared;
      s'.project == s.project && s'.backup == s.backup && s'.artifacts == s.artifacts
  {
    StepFacts(w.shared, e.actor, w.actors[e.actor], e.act);
  }

  /** How many steps an actor can still take at most. */
  function StepsLeft(l: Local): nat {
    2 * (20 - Stage(l.phase)) + (if l.background then 0 else 1) + (if l.gated then 1 else 0)
  }

  /** What one step does to the progress and the history of the actor that takes it. */
  ghost predicate Progress(l: Local, act: Act, l': Local) {
    && StepsLeft(l') < StepsLeft(l)
    && (5 <= Stage(l.phase) ==> l'.orig == l.orig && l'.origArtifacts == l.origArtifacts)
    && (9 <= Stage(l.phase) ==> l'.synced == l.synced)
    && (act == Enter(SetFlag) ==> l.phase.Cleared? && l'.phase.Flagged?)
    && (act == Finish(ClearFlag) ==> l.phase.ToFinish? && l'.phase.ToRecord?)
    && (l.phase.Cleared? ==> act == Enter(SetFlag))
    && (l.phase.ToFinish? ==> act == Finish(ClearFlag) || (act == Leave(DropGate) && l'.phase.ToFinish?))
  }

  lemma EnterProgress(s: Shared, a: Actor, l: Local, act: EnterAct)
    requires EnterStep(s, a, l, act).Some?
    ensures Progress(l, Enter(act), EnterStep(s, a, l, act).value.l)
  {
  }

  lemma UpdateProgress(s: Shared, a: Actor, l: Local, act: UpdateAct)
    requires UpdateStep(s, a, l, act).Some?
    ensures Progress(l, Update(act), UpdateStep(s, a, l, act).value.l)
  {
  }

  lemma CheckProgress(s: Shared, a: Actor, l: Local, act: CheckAct)
    requires CheckStep(s, a, l, act).Some?
    ensures Progress(l, Check(act), CheckStep(s, a, l, act).value.l)
  {
  }

  lemma ReloadProgress(s: Shared, a: Actor, l: Local, act: ReloadAct)
    requires Shape(l) && ReloadStep(s, a, l, act).Some?
    ensures Progress(l, Reload(act), ReloadStep(s, a, l, act).value.l)
  {
  }

  lemma FinishProgress(s: Shared, a: Actor, l: Local, act: FinishAct)
    requires FinishStep(s, a, l, act).Some?
    ensures Progress(l, Finish(act), FinishStep(s, a, l, act).value.l)
  {
  }

  lemma RollProgress(s: Shared, a: Actor, l: Local, act: RollAct)
    requires RollStep(s, a, l, act).Some?
    ensures Progress(l, Roll(act), RollStep(s, a, l, act).value.l)
  {
  }

  lemma LeaveProgress(s: Shared, a: Actor, l: Local, act: LeaveAct)
    requires Shape(l) && LeaveStep(s, a, l, act).Some?
    ensures Progress(l, Leave(act), LeaveStep(s, a, l, act).value.l)
  {
  }

  lemma StepProgress(s: Shared, a: Actor, l: Local, act: Act)
    requires Shape(l) && Step(s, a, l, act).Some?
    ensures Progress(l, act, Step(s, a, l, act).value.l)
  {
    hide EnterStep, UpdateStep, CheckStep, ReloadStep, FinishStep, RollStep, LeaveStep, Shape, Progress;
    match act
    case Enter(x) => EnterProgress(s, a, l, x);
    case Update(x) => UpdateProgress(s, a, l, x);
    case Check(x) => CheckProgress(s, a, l, x);
    case Reload(x) => ReloadProgress(s, a, l, x);
    case Finish(x) => FinishProgress(s, a, l, x);
    case Roll(x) => RollProgress(s, a, l, x);
    case Leave(x) => LeaveProgress(s, a, l, x);
  }

  lemma {:induction false} RunKeepsHistory(w: World, es: seq<Event>, a: Actor)
    requires Inv(w) && Exec(w, es).Some? && a in w.actors
    ensures a in Exec(w, es).value.actors
    ensures var l, l' := w.actors[a], Exec(w, es).value.actors[a];
      && Stage(l.phase) <= Stage(l'.phase) && l'.kind == l.kind
      && (5 <= Stage(l.phase) ==> l'.orig == l.orig && l'.origArtifacts == l.origArtifacts)
      && (9 <= Stage(l.phase) ==> l'.synced == l.synced)
    decreases |es|
  {
    if es != [] {
      var e := es[0];
      assert Own(w.shared, e.actor, w.actors[e.actor]);
      hide Step;
      StepFacts(w.shared, e.actor, w.actors[e.actor], e.act);
      StepProgress(w.shared, e.actor, w.actors[e.actor], e.act);
      StepKeepsInv(w, e);
      RunKeepsHistory(Take(w, e).value, es[1..], a);
    }
  }

  lemma LockDropped(w: World, a: Actor)
    requires Inv(w) && Take(w, Event(a, Leave(ReleaseLock))).Some? && !w.actors[a].outcome.Refused?
    ensures Settled(w.shared, w.actors[a])
    ensures !Updates(w.actors[a]) ==> w.shared.project == w.actors[a].orig
    ensures Take(w, Event(a, Leave(ReleaseLock))).value.shared.project == w.shared.project
    ensures Take(w, Event(a, Leave(ReleaseLock))).value.shared.artifacts == w.shared.artifacts
  {
    assert Own(w.shared, a, w.actors[a]);
    assert HoldsLock(w.actors[a]);
  }

  /** What the holder of the lock leaves when it drops it, whatever has happened in between. */
  lemma HolderReturns(got: World, during: seq<Event>, a: Actor)
    requires Inv(got) && a in got.actors && 5 <= Stage(got.actors[a].phase)
    requires Exec(got, during).Some?
    requires Take(Exec(got, during).value, Event(a, Leave(ReleaseLock))).Some?
    ensures var l, end := got.actors[a], Exec(got, during).value;
      var left := Take(end, Event(a, Leave(ReleaseLock))).value.shared;
      && (end.actors[a].outcome.Failed? ==> PutBack(left.project, l))
      && (end.actors[a].outcome.Failed? && Updates(l) ==> left.artifacts == l.origArtifacts)
      && (end.actors[a].outcome.Kept? && 9 <= Stage(l.phase) ==> left.project == l.synced)
      && (!end.actors[a].outcome.Refused? && !Updates(l) ==> left.project == l.orig)
  {
    RunKeepsInv(got, during);
    RunKeepsHistory(got, during, a);
    var end := Exec(got, during).value;
    if !end.actors[a].outcome.Refused? {
      LockDropped(end, a);
    }
  }

  lemma LockTaken(w: World, a: Actor)
    requires Inv(w) && Take(w, Event(a, Enter(TryLock))).Some?
    ensures var got := Take(w, Event(a, Enter(TryLock))).value;
      got.shared.lock == Some(a) ==>
        a in got.actors && got.actors[a].phase == Locked && got.actors[a].orig == w.shared.project
        && got.actors[a].origArtifacts == w.shared.artifacts
  {
    assert Own(w.shared, a, w.actors[a]);
  }

  lemma ProjectValidated(w: World, a: Actor)
    requires Inv(w) && Take(w, Event(a, Check(Validate(true)))).Some?
    ensures var ok := Take(w, Event(a, Check(Validate(true)))).value;
      a in ok.actors && 9 <= Stage(ok.actors[a].phase) && ok.actors[a].synced == w.shared.project
      && Checked(ok.actors[a])
  {
    OwnOf(w, a);
    hide Inv;
  }

  // ---- how an actor ends, told from what happened ----

  /** What makes the update or the reload of the holder of the lock fail. */
  predicate Fails(act: Act) {
    match act
    case Update(u) => u == Capture(false) || u.SyncFails? || u.BackupFails? || u.ApplyFails?
    case Check(c) => c == Validate(false)
    case Reload(r) => r == LoadConfig(false) || (r.TaskEnds? && !r.kept)
    case _ => false
  }

  /** And what goes wrong while it is undone. */
  predicate Breaks(act: Act) {
    (act.Check? && act.check.UndoFails?) || (act.Roll? && act.roll.RollBackFails?)
  }

  /** What settles that it is kept: the reload task's good end, or for an update alone its good check. */
  predicate Keeps(kind: Kind, act: Act) {
    (act.Reload? && act.reload.TaskEnds? && act.reload.kept) || (kind.Updater? && act == Check(Validate(true)))
  }

  ghost predicate SomeFails(es: seq<Event>, a: Actor) {
    exists i :: 0 <= i < |es| && es[i].actor == a && Fails(es[i].act)
  }

  ghost predicate SomeBreaks(es: seq<Event>, a: Actor) {
    exists i :: 0 <= i < |es| && es[i].actor == a && Breaks(es[i].act)
  }

  ghost predicate SomeKeeps(es: seq<Event>, a: Actor, kind: Kind) {
    exists i :: 0 <= i < |es| && es[i].actor == a && Keeps(kind, es[i].act)
  }

  /** How it stands with the actor: what it has ended as, or that it is being undone, or that all is well so far. */
  function Standing(l: Local): Outcome {
    if l.outcome.Pending? && (l.phase.Undoing? || l.phase.UndoneDirs?) then Failed
    else l.outcome
  }

  /** What becomes of a standing, by what happened: whatever ends well or is undone has nothing else to come. */
  ghost predicate Follows(before: Outcome, fails: bool, breaks: bool, keeps: bool, after: Outcome) {
    match before
    case Pending =>
      && (breaks ==> fails) && !(fails && keeps)
      && after == if breaks then Broken else if fails then Failed else if keeps then Kept else Pending
    case Failed => !fails && !keeps && after == if breaks then Broken else Failed
    case _ => !fails && !breaks && !keeps && after == before
  }

  ghost predicate InTheLock(l: Local) {
    5 <= Stage(l.phase) && !l.outcome.Refused?
  }

  ghost predicate StandingMoves(l: Local, act: Act, l': Local) {
    InTheLock(l') && Follows(Standing(l), Fails(act), Breaks(act), Keeps(l.kind, act), Standing(l'))
  }

  /** The way in is behind an actor that has the lock. */
  lemma NoWayBackIn(s: Shared, a: Actor, l: Local, act: EnterAct)
    requires Shape(l) && InTheLock(l)
    ensures EnterStep(s, a, l, act) == None
  {
  }

  lemma UpdateStanding(s: Shared, a: Actor, l: Local, act: UpdateAct)
    requires Shape(l) && InTheLock(l) && UpdateStep(s, a, l, act).Some?
    ensures StandingMoves(l, Update(act), UpdateStep(s, a, l, act).value.l)
  {
    hide Overlay, Saved;
  }

  lemma CheckStanding(s: Shared, a: Actor, l: Local, act: CheckAct)
    requires Shape(l) && InTheLock(l) && CheckStep(s, a, l, act).Some?
    ensures StandingMoves(l, Check(act), CheckStep(s, a, l, act).value.l)
  {
    hide Overlay, Saved;
  }

  lemma ReloadStanding(s: Shared, a: Actor, l: Local, act: ReloadAct)
    requires Shape(l) && InTheLock(l) && ReloadStep(s, a, l, act).Some?
    ensures StandingMoves(l, Reload(act), ReloadStep(s, a, l, act).value.l)
  {
    hide Overlay, Saved;
  }

  lemma FinishStanding(s: Shared, a: Actor, l: Local, act: FinishAct)
    requires Shape(l) && InTheLock(l) && FinishStep(s, a, l, act).Some?
    ensures StandingMoves(l, Finish(act), FinishStep(s, a, l, act).value.l)
  {
    hide Overlay, Saved;
  }

  lemma RollStanding(s: Shared, a: Actor, l: Local, act: RollAct)
    requires Shape(l) && InTheLock(l) && RollStep(s, a, l, act).Some?
    ensures StandingMoves(l, Roll(act), RollStep(s, a, l, act).value.l)
  {
    hide Overlay, Saved;
  }

  lemma LeaveStanding(s: Shared, a: Actor, l: Local, act: LeaveAct)
    requires Shape(l) && InTheLock(l) && LeaveStep(s, a, l, act).Some?
    ensures StandingMoves(l, Leave(act), LeaveStep(s, a, l, act).value.l)
  {
    hide Overlay, Saved;
  }

  lemma StepStanding(s: Shared, a: Actor, l: Local, act: Act)
    requires Own(s, a, l) && InTheLock(l) && Step(s, a, l, act).Some?
    ensures StandingMoves(l, act, Step(s, a, l, act).value.l)
  {
    hide EnterStep, UpdateStep, CheckStep, ReloadStep, FinishStep, RollStep, LeaveStep, Shape, InTheLock, StandingMoves;
    match act
    case Enter(x) => NoWayBackIn(s, a, l, x);
    case Update(x) => UpdateStanding(s, a, l, x);
    case Check(x) => CheckStanding(s, a, l, x);
    case Reload(x) => ReloadStanding(s, a, l, x);
    case Finish(x) => FinishStanding(s, a, l, x);
    case Roll(x) => RollStanding(s, a, l, x);
    case Leave(x) => LeaveStanding(s, a, l, x);
  }

  lemma FollowsOn(before: Outcome, f: bool, b: bool, k: bool, mid: Outcome, fs: bool, bs: bool, ks: bool, after: Outcome)
    requires Follows(before, f, b, k, mid) && Follows(mid, fs, bs, ks, after)
    ensures Follows(before, f || fs, b || bs, k || ks, after)
  {
  }

  lemma FirstOrLater(es: seq<Event>, a: Actor, kind: Kind)
    requires es != []
    ensures SomeFails(es, a) <==> (es[0].actor == a && Fails(es[0].act)) || SomeFails(es[1..], a)
    ensures SomeBreaks(es, a) <==> (es[0].actor == a && Breaks(es[0].act)) || SomeBreaks(es[1..], a)
    ensures SomeKeeps(es, a, kind) <==> (es[0].actor == a && Keeps(kind, es[0].act)) || SomeKeeps(es[1..], a, kind)
  {
    hide Fails, Breaks, Keeps;
    var rest := es[1..];
    assert forall i :: 0 <= i < |rest| ==> rest[i] == es[i + 1];
    forall i | 0 < i < |es| ensures es[i] == rest[i - 1] {
    }
  }

  /** From the lock on, how an actor stands at any point of a run is told by its own steps so far. */
  lemma {:induction false} RunStanding(w: World, es: seq<Event>, a: Actor)
    requires Inv(w) && Exec(w, es).Some? && a in w.actors && InTheLock(w.actors[a])
    ensures a in Exec(w, es).value.actors && InTheLock(Exec(w, es).value.actors[a])
    ensures Follows(Standing(w.actors[a]), SomeFails(es, a), SomeBreaks(es, a), SomeKeeps(es, a, w.actors[a].kind),
                    Standing(Exec(w, es).value.actors[a]))
    decreases |es|
  {
    hide Fails, Breaks, Keeps, SomeFails, SomeBreaks, SomeKeeps, Standing, InTheLock, Step, Follows;
    var l := w.actors[a];
    if es == [] {
      NothingFollows(l, a);
    } else {
      var e, next := es[0], Take(w, es[0]).value;
      StepKeepsInv(w, e);
      FirstOrLater(es, a, l.kind);
      assert Own(w.shared, e.actor, w.actors[e.actor]);
      if e.actor == a {
        StepFacts(w.shared, a, l, e.act);
        StepStanding(w.shared, a, l, e.act);
        RunStanding(next, es[1..], a);
        assert next.actors[a].kind == l.kind;
        FollowsOn(Standing(l), Fails(e.act), Breaks(e.act), Keeps(l.kind, e.act), Standing(next.actors[a]),
                  SomeFails(es[1..], a), SomeBreaks(es[1..], a), SomeKeeps(es[1..], a, l.kind),
                  Standing(Exec(w, es).value.actors[a]));
      } else {
        RunStanding(next, es[1..], a);
      }
    }
  }

  lemma NothingFollows(l: Local, a: Actor)
    requires InTheLock(l)
    ensures Follows(Standing(l), SomeFails([], a), SomeBreaks([], a), SomeKeeps([], a, l.kind), Standing(l))
  {
  }

  /** At the drop of the lock an actor is told to have ended in one of three ways. */
  lemma EndedAtRelease(s: Shared, a: Actor, l: Local)
    requires Own(s, a, l) && InTheLock(l) && l.phase.Releasing?
    ensures Standing(l) == l.outcome && l.outcome in {Failed, Broken, Kept}
  {
  }

  /**
   An actor that has got the lock and comes to dropping it has ended by what happened in between:
   broken if and only if an undo failed, failed if and only if something failed and was undone, and
   otherwise kept, which takes the task's good end, or the good check of an update alone.
   */
  lemma OutcomeByEvents(got: World, during: seq<Event>, a: Actor)
    requires Inv(got) && a in got.actors && got.actors[a].phase.Locked? && Exec(got, during).Some?
    requires Take(Exec(got, during).value, Event(a, Leave(ReleaseLock))).Some?
    ensures a in Exec(got, during).value.actors
    ensures var outcome := Exec(got, during).value.actors[a].outcome;
      && (outcome == Broken <==> SomeBreaks(during, a))
      && (outcome == Failed <==> SomeFails(during, a) && !SomeBreaks(during, a))
      && (outcome == Kept <==> SomeKeeps(during, a, got.actors[a].kind))
      && outcome in {Failed, Broken, Kept}
  {
    hide Fails, Breaks, Keeps, SomeFails, SomeBreaks, SomeKeeps;
    var l, end := got.actors[a], Exec(got, during).value;
    assert Own(got.shared, a, l);
    RunStanding(got, during, a);
    RunKeepsInv(got, during);
    EndedAtRelease(end.shared, a, end.actors[a]);
  }

  /** `a`, in the world where it has just got the lock, fails in the run and is undone, up to dropping the lock. */
  ghost predicate FailsIn(got: World, a: Actor, during: seq<Event>) {
    && Exec(got, during).Some? && Take(Exec(got, during).value, Event(a, Leave(ReleaseLock))).Some?
    && SomeFails(during, a) && !SomeBreaks(during, a)
  }

  ghost function LeftBy(got: World, a: Actor, during: seq<Event>): Shared
    requires Exec(got, during).Some? && Take(Exec(got, during).value, Event(a, Leave(ReleaseLock))).Some?
  {
    Take(Exec(got, during).value, Event(a, Leave(ReleaseLock))).value.shared
  }

  /**
   Take any run in which `a` gets the lock at one point and drops it at a later one, with anything
   in between. If a step of its update or reload failed and no undo failed on top, the project is
   what it was when the lock was taken, for an update at most without the scoped roots that led
   nowhere; and for an update the runtime artifacts are what they were.
   */
  lemma FailureRestoresTheProject(w: World, before: seq<Event>, a: Actor, during: seq<Event>)
    requires Init(w) && Exec(w, before).Some?
    requires Take(Exec(w, before).value, Event(a, Enter(TryLock))).Some?
    requires var got := Take(Exec(w, before).value, Event(a, Enter(TryLock))).value;
      got.shared.lock == Some(a) && FailsIn(got, a, during)
    ensures var got := Take(Exec(w, before).value, Event(a, Enter(TryLock))).value;
      var l, start, end := got.actors[a], Exec(w, before).value.shared, LeftBy(got, a, during);
      && (end.project == start.project ||
            (Updates(l) && end.project == start.project.(dirs := Restored(start.project.dirs, l.kind.scope))))
      && (!DanglingIn(start.project.dirs, l.kind.scope) ==> end.project == start.project)
      && (Updates(l) ==> end.artifacts == start.artifacts)
  {
    hide SomeFails, SomeBreaks;
    InitHolds(w);
    RunKeepsInv(w, before);
    var start := Exec(w, before).value;
    StepKeepsInv(start, Event(a, Enter(TryLock)));
    LockTaken(start, a);
    var got := Take(start, Event(a, Enter(TryLock))).value;
    OutcomeByEvents(got, during, a);
    HolderReturns(got, during, a);
    RestoredExactly(start.shared.project.dirs, got.actors[a].kind.scope);
  }

  /** What `a` has done since its good check ends well: the reload task does, or there is no reload to come. */
  ghost predicate EndsWell(ok: World, a: Actor, during: seq<Event>) {
    && Exec(ok, during).Some? && Take(Exec(ok, during).value, Event(a, Leave(ReleaseLock))).Some?
    && a in ok.actors && (ok.actors[a].kind.Request? ==> SomeKeeps(during, a, ok.actors[a].kind))
  }

  /** A request about to load its configuration, or an update alone about to drop the lock. */
  ghost predicate Checked(l: Local) {
    InTheLock(l) && if l.kind.Request? then l.phase.Loading? && l.outcome.Pending? else l.phase.Releasing? && l.outcome.Kept?
  }

  lemma EndsKept(ok: World, during: seq<Event>, a: Actor)
    requires Inv(ok) && EndsWell(ok, a, during) && Checked(ok.actors[a])
    ensures a in Exec(ok, during).value.actors && Exec(ok, during).value.actors[a].outcome == Kept
  {
    hide Inv, Fails, Breaks, Keeps, SomeFails, SomeBreaks, SomeKeeps;
    RunStanding(ok, during, a);
    RunKeepsInv(ok, during);
    var l := Exec(ok, during).value.actors[a];
    assert Own(Exec(ok, during).value.shared, a, l) by { OwnOf(Exec(ok, during).value, a); }
    hide Own;
    EndedAtRelease(Exec(ok, during).value.shared, a, l);
  }

  lemma OwnOf(w: World, a: Actor)
    requires Inv(w) && a in w.actors
    ensures Own(w.shared, a, w.actors[a])
  {
  }

  lemma KeptReturns(ok: World, during: seq<Event>, a: Actor)
    requires Inv(ok) && EndsWell(ok, a, during) && Checked(ok.actors[a])
    ensures LeftBy(ok, a, during).project == ok.actors[a].synced
  {
    hide Inv, SomeKeeps;
    EndsKept(ok, during, a);
    HolderReturns(ok, during, a);
  }

  /**
   From the moment `a` has its synchronised project validated until it drops the lock with the
   reload task applied or blocked, or with no reload to come, the project stays the validated one.
   */
  lemma SuccessKeepsTheProject(w: World, before: seq<Event>, a: Actor, during: seq<Event>)
    requires Init(w) && Exec(w, before).Some?
    requires Take(Exec(w, before).value, Event(a, Check(Validate(true)))).Some?
    requires EndsWell(Take(Exec(w, before).value, Event(a, Check(Validate(true)))).value, a, during)
    ensures var ok := Take(Exec(w, before).value, Event(a, Check(Validate(true)))).value;
      LeftBy(ok, a, during).project == Exec(w, before).value.shared.project
  {
    hide EndsWell, LeftBy, Inv;
    InitHolds(w);
    RunKeepsInv(w, before);
    var start := Exec(w, before).value;
    var ok := Take(start, Event(a, Check(Validate(true)))).value;
    StepKeepsInv(start, Event(a, Check(Validate(true))));
    ProjectValidated(start, a);
    KeptReturns(ok, during, a);
  }

  // ---- who is refused ----

  /** At some point of the run the actor takes the lock. */
  ghost predicate GetsLock(w: World, es: seq<Event>, a: Actor)
    requires Exec(w, es).Some?
    decreases |es|
  {
    es != [] &&
    var next := Take(w, es[0]).value;
    (es[0] == Event(a, Enter(TryLock)) && next.shared.lock == Some(a)) || GetsLock(next, es[1..], a)
  }

  /** Only the attempt on the lock, when it succeeds, gets an actor into the lock. */
  ghost predicate StaysOut(l: Local, act: Act, taken: bool, l': Local) {
    InTheLock(l') <==> act == Enter(TryLock) && taken
  }

  lemma EnterStaysOut(s: Shared, a: Actor, l: Local, act: EnterAct)
    requires Own(s, a, l) && !InTheLock(l) && EnterStep(s, a, l, act).Some?
    ensures var m := EnterStep(s, a, l, act).value; StaysOut(l, Enter(act), m.shared.lock == Some(a), m.l)
  {
  }

  lemma LaterStaysOut(s: Shared, a: Actor, l: Local, act: Act)
    requires Shape(l) && !InTheLock(l) && !act.Enter? && Step(s, a, l, act).Some?
    ensures !InTheLock(Step(s, a, l, act).value.l)
  {
    hide Overlay, Saved;
  }

  lemma StepStaysOut(s: Shared, a: Actor, l: Local, act: Act)
    requires Own(s, a, l) && !InTheLock(l) && Step(s, a, l, act).Some?
    ensures var m := Step(s, a, l, act).value; StaysOut(l, act, m.shared.lock == Some(a), m.l)
  {
    hide InTheLock, EnterStep, UpdateStep, CheckStep, ReloadStep, FinishStep, RollStep, LeaveStep;
    match act
    case Enter(x) => EnterStaysOut(s, a, l, x);
    case _ => LaterStaysOut(s, a, l, act);
  }

  lemma OthersTurn(w: World, e: Event, a: Actor)
    requires Take(w, e).Some? && a in w.actors && e.actor != a
    ensures a in Take(w, e).value.actors && Take(w, e).value.actors[a] == w.actors[a]
  {
  }

  lemma {:induction false} InTheLockByEvents(w: World, es: seq<Event>, a: Actor)
    requires Inv(w) && Exec(w, es).Some? && a in w.actors && !InTheLock(w.actors[a])
    ensures a in Exec(w, es).value.actors && (InTheLock(Exec(w, es).value.actors[a]) <==> GetsLock(w, es, a))
    decreases |es|
  {
    hide InTheLock, Step, Inv;
    if es != [] {
      var e, next := es[0], Take(w, es[0]).value;
      StepKeepsInv(w, e);
      if e.actor == a {
        OwnOf(w, a);
        StepStaysOut(w.shared, a, w.actors[a], e.act);
      } else {
        OthersTurn(w, e, a);
      }
      if InTheLock(next.actors[a]) {
        RunStanding(next, es[1..], a);
      } else {
        InTheLockByEvents(next, es[1..], a);
      }
    }
  }

  /** An actor that is done was refused if and only if it never had the lock, and otherwise has ended in one of three ways. */
  lemma RefusedByEvents(w: World, es: seq<Event>, a: Actor)
    requires Init(w) && Exec(w, es).Some? && a in w.actors
    requires a in Exec(w, es).value.actors && Exec(w, es).value.actors[a].phase.Done?
    ensures var outcome := Exec(w, es).value.actors[a].outcome;
      && (outcome == Refused <==> !GetsLock(w, es, a))
      && (GetsLock(w, es, a) ==> outcome in {Failed, Broken, Kept})
  {
    InitHolds(w);
    NotInYet(w, a);
    hide Init, Inv, Own, InTheLock, GetsLock, Exec;
    RunKeepsInv(w, es);
    InTheLockByEvents(w, es, a);
    OwnOf(Exec(w, es).value, a);
    InTheLockAtTheEnd(Exec(w, es).value.shared, a, Exec(w, es).value.actors[a]);
  }

  lemma NotInYet(w: World, a: Actor)
    requires Init(w) && a in w.actors
    ensures !InTheLock(w.actors[a])
  {
  }

  lemma InTheLockAtTheEnd(s: Shared, a: Actor, l: Local)
    requires Own(s, a, l) && l.phase.Done?
    ensures l.outcome == Refused <==> !InTheLock(l)
    ensures l.outcome in {Refused, Failed, Broken, Kept}
  {
  }

  // ---- what a kept update leaves ----

  /** No actor goes back. */
  lemma {:induction false} RunGoesOn(w: World, es: seq<Event>, a: Actor)
    requires Inv(w) && Exec(w, es).Some? && a in w.actors
    ensures a in Exec(w, es).value.actors && Stage(w.actors[a].phase) <= Stage(Exec(w, es).value.actors[a].phase)
    decreases |es|
  {
    hide Step, Stage;
    if es != [] {
      StepKeepsInv(w, es[0]);
      OwnOf(w, es[0].actor);
      StepFacts(w.shared, es[0].actor, w.actors[es[0].actor], es[0].act);
      RunGoesOn(Take(w, es[0]).value, es[1..], a);
    }
  }

  lemma OutOfInstalled(s: Shared, a: Actor, l: Local, act: Act)
    requires Shape(l) && l.phase.Installed? && Step(s, a, l, act).Some?
    ensures Stage(Installed) < Stage(Step(s, a, l, act).value.l.phase)
  {
    hide Overlay, Saved;
  }

  lemma InstalledStep(w: World, e: Event, a: Actor)
    requires Inv(w) && Take(w, e).Some? && a in w.actors && w.actors[a].phase.Installed?
    ensures a in Take(w, e).value.actors
    ensures Take(w, e).value.actors[a].phase.Installed? ==> Take(w, e).value.shared.project == w.shared.project
    ensures Stage(Installed) <= Stage(Take(w, e).value.actors[a].phase)
    ensures !Take(w, e).value.actors[a].phase.Installed? ==> Stage(Installed) < Stage(Take(w, e).value.actors[a].phase)
  {
    OwnOf(w, a);
    hide Inv, Step, Stage;
    if e.actor != a {
      OnlyTheHolderWrites(w, e);
    } else {
      OutOfInstalled(w.shared, a, w.actors[a], e.act);
    }
  }

  /** What has been installed stands until it is validated, whatever the others do. */
  lemma {:induction false} InstalledStands(w: World, es: seq<Event>, a: Actor)
    requires Inv(w) && Exec(w, es).Some? && a in w.actors && w.actors[a].phase.Installed?
    requires a in Exec(w, es).value.actors && Exec(w, es).value.actors[a].phase.Installed?
    ensures Exec(w, es).value.shared.project == w.shared.project
    decreases |es|
  {
    hide Step, Inv;
    if es != [] {
      StepKeepsInv(w, es[0]);
      InstalledStep(w, es[0], a);
      RunGoesOn(Take(w, es[0]).value, es[1..], a);
      InstalledStands(Take(w, es[0]).value, es[1..], a);
    }
  }

  /** The scoped directories are those of the checkout, the others are what they were, and the state is the new one. */
  ghost predicate IsUpdated(project: Project, start: Project, dirs: map<Name, Root>, state: Contents, scope: set<Name>) {
    && project.state == state
    && forall d :: if d in scope then (d in project.dirs <==> d in dirs) && (d in dirs ==> project.dirs[d] == dirs[d])
                   else (d in project.dirs <==> d in start.dirs) && (d in start.dirs ==> project.dirs[d] == start.dirs[d])
  }

  lemma Applied(w: World, a: Actor, dirs: map<Name, Root>, state: Contents)
    requires Inv(w) && Take(w, Event(a, Update(Apply(dirs, state)))).Some?
    ensures var done := Take(w, Event(a, Update(Apply(dirs, state)))).value;
      && a in done.actors && done.actors[a].phase.Installed?
      && IsUpdated(done.shared.project, w.shared.project, dirs, state, w.actors[a].kind.scope)
  {
    hide Inv;
  }

  lemma Persisted(w: World, a: Actor, state: Contents)
    requires Inv(w) && Take(w, Event(a, Update(PersistOnly(state)))).Some?
    ensures var done := Take(w, Event(a, Update(PersistOnly(state)))).value;
      && a in done.actors && done.actors[a].phase.Installed?
      && done.shared.project == Project(w.shared.project.dirs, state)
  {
    hide Inv;
  }

  /** What a step of the update installs is there when the lock is dropped, if the update ends well. */
  lemma InstalledIsKept(done: World, between: seq<Event>, a: Actor, during: seq<Event>)
    requires Inv(done) && a in done.actors && done.actors[a].phase.Installed? && Exec(done, between).Some?
    requires Take(Exec(done, between).value, Event(a, Check(Validate(true)))).Some?
    requires EndsWell(Take(Exec(done, between).value, Event(a, Check(Validate(true)))).value, a, during)
    ensures LeftBy(Take(Exec(done, between).value, Event(a, Check(Validate(true)))).value, a, during).project ==
            done.shared.project
  {
    hide EndsWell, LeftBy, Inv;
    var start := Exec(done, between).value;
    RunKeepsInv(done, between);
    InstalledStands(done, between, a);
    var ok := Take(start, Event(a, Check(Validate(true)))).value;
    StepKeepsInv(start, Event(a, Check(Validate(true))));
    ProjectValidated(start, a);
    KeptReturns(ok, during, a);
  }

  /** So a kept update has put the checkout's directories in place, and the new state, and nothing else. */
  lemma SuccessInstallsTheCheckout(w: World, before: seq<Event>, a: Actor, dirs: map<Name, Root>, state: Contents,
                                   between: seq<Event>, during: seq<Event>)
    requires Init(w) && Exec(w, before).Some?
    requires Take(Exec(w, before).value, Event(a, Update(Apply(dirs, state)))).Some?
    requires var done := Take(Exec(w, before).value, Event(a, Update(Apply(dirs, state)))).value;
      && Exec(done, between).Some? && Take(Exec(done, between).value, Event(a, Check(Validate(true)))).Some?
      && EndsWell(Take(Exec(done, between).value, Event(a, Check(Validate(true)))).value, a, during)
    ensures var start := Exec(w, before).value;
      var done := Take(start, Event(a, Update(Apply(dirs, state)))).value;
      var ok := Take(Exec(done, between).value, Event(a, Check(Validate(true)))).value;
      IsUpdated(LeftBy(ok, a, during).project, start.shared.project, dirs, state, start.actors[a].kind.scope)
  {
    hide EndsWell, LeftBy, Inv, IsUpdated;
    InitHolds(w);
    RunKeepsInv(w, before);
    var start := Exec(w, before).value;
    StepKeepsInv(start, Event(a, Update(Apply(dirs, state))));
    Applied(start, a, dirs, state);
    InstalledIsKept(Take(start, Event(a, Update(Apply(dirs, state)))).value, between, a, during);
  }

  /** And where nothing had changed, only the new state. */
  lemma SuccessRecordsTheState(w: World, before: seq<Event>, a: Actor, state: Contents, between: seq<Event>,
                               during: seq<Event>)
    requires Init(w) && Exec(w, before).Some?
    requires Take(Exec(w, before).value, Event(a, Update(PersistOnly(state)))).Some?
    requires var done := Take(Exec(w, before).value, Event(a, Update(PersistOnly(state)))).value;
      && Exec(done, between).Some? && Take(Exec(done, between).value, Event(a, Check(Validate(true)))).Some?
      && EndsWell(Take(Exec(done, between).value, Event(a, Check(Validate(true)))).value, a, during)
    ensures var start := Exec(w, before).value;
      var done := Take(start, Event(a, Update(PersistOnly(state)))).value;
      var ok := Take(Exec(done, between).value, Event(a, Check(Validate(true)))).value;
      LeftBy(ok, a, during).project == Project(start.shared.project.dirs, state)
  {
    hide EndsWell, LeftBy, Inv;
    InitHolds(w);
    RunKeepsInv(w, before);
    var start := Exec(w, before).value;
    StepKeepsInv(start, Event(a, Update(PersistOnly(state))));
    Persisted(start, a, state);
    InstalledIsKept(Take(start, Event(a, Update(PersistOnly(state)))).value, between, a, during);
  }

  /** A reload without an update leaves the project alone, however it ends. */
  lemma WithoutUpdateNothingChanges(w: World, before: seq<Event>, a: Actor, during: seq<Event>)
    requires Init(w) && Exec(w, before).Some?
    requires Take(Exec(w, before).value, Event(a, Enter(TryLock))).Some?
    requires var got := Take(Exec(w, before).value, Event(a, Enter(TryLock))).value;
      && got.shared.lock == Some(a) && !Updates(got.actors[a])
      && Exec(got, during).Some? && Take(Exec(got, during).value, Event(a, Leave(ReleaseLock))).Some?
    ensures var got := Take(Exec(w, before).value, Event(a, Enter(TryLock))).value;
      LeftBy(got, a, during).project == Exec(w, before).value.shared.project
  {
    InitHolds(w);
    RunKeepsInv(w, before);
    var start := Exec(w, before).value;
    StepKeepsInv(start, Event(a, Enter(TryLock)));
    LockTaken(start, a);
    var got := Take(start, Event(a, Enter(TryLock))).value;
    assert Own(got.shared, a, got.actors[a]);
    RunStanding(got, during, a);
    HolderReturns(got, during, a);
  }

  // ---- every request finishes, and finishes once ----

  /** No actor gets stuck: whatever the shared state, an unfinished one has a step to take. */
  lemma NobodyIsStuck(s: Shared, a: Actor, l: Local)
    requires Own(s, a, l) && !l.phase.Done?
    ensures exists act :: Step(s, a, l, act).Some?
  {
    var act :=
      match l.phase
      case Idle => if l.kind.Request? then Enter(TakeGate) else Enter(TryLock)
      case Gated => Enter(RejectBody)
      case Cleared => Enter(SetFlag)
      case Flagged => Enter(RecordStart)
      case Recorded => Enter(TryLock)
      case Locked => Update(Capture(true))
      case Captured => if Updates(l) then Update(SyncFails) else Update(SkipUpdate)
      case BackedUp => Update(ApplyFails(map[]))
      case Installed => Check(Validate(true))
      case Undoing => Check(UndoDirs)
      case UndoneDirs => Check(UndoState)
      case Loading => Reload(LoadConfig(true))
      case Reloading => Reload(TaskEnds(true, s.artifacts))
      case ToFinish => Finish(ClearFlag)
      case ToRecord => Finish(RecordFinish)
      case RollDirs => Roll(RollBackDirs)
      case RollState => Roll(RollBackState)
      case RollArtifacts => Roll(RollBackArtifacts)
      case Releasing => Leave(ReleaseLock)
      case Leaving => Leave(LeaveGate);
    assert Step(s, a, l, act).Some?;
  }

  function Count(es: seq<Event>, e: Event): nat {
    if es == [] then 0 else (if es[0] == e then 1 else 0) + Count(es[1..], e)
  }

  function CountBy(es: seq<Event>, a: Actor): nat {
    if es == [] then 0 else (if es[0].actor == a then 1 else 0) + CountBy(es[1..], a)
  }

  lemma FlagChange(s: Shared, a: Actor, l: Local, act: Act)
    requires Own(s, a, l) && Step(s, a, l, act).Some?
    ensures var l' := Step(s, a, l, act).value.l;
      (if Active(l') then 1 else 0) - (if Active(l) then 1 else 0)
        == (if act == Enter(SetFlag) then 1 else 0) - (if act == Finish(ClearFlag) then 1 else 0)
    ensures act == Enter(SetFlag) ==> Stage(l.phase) == 2
  {
    StepProgress(s, a, l, act);
    StepFacts(s, a, l, act);
    ActiveChange(s, a, l, act, Step(s, a, l, act).value.shared, Step(s, a, l, act).value.l);
  }

  lemma ActiveChange(s: Shared, a: Actor, l: Local, act: Act, s': Shared, l': Local)
    requires Own(s, a, l) && Facts(s, a, l, s', l') && Progress(l, act, l')
    requires Active(l) && !Active(l') ==> l.phase.ToFinish? 
    ensures (if Active(l') then 1 else 0) - (if Active(l) then 1 else 0)
        == (if act == Enter(SetFlag) then 1 else 0) - (if act == Finish(ClearFlag) then 1 else 0)
  {
  }

  /**
   Along any run an actor takes a bounded number of steps, raises the flag at most once, and has
   lowered it as often as it raised it unless it is in between right now.
   */
  lemma {:induction false} FinishesOnce(w: World, es: seq<Event>, a: Actor)
    requires Inv(w) && Exec(w, es).Some? && a in w.actors
    ensures a in Exec(w, es).value.actors
    ensures CountBy(es, a) + StepsLeft(Exec(w, es).value.actors[a]) <= StepsLeft(w.actors[a])
    ensures Count(es, Event(a, Enter(SetFlag))) <= if Stage(w.actors[a].phase) < 3 then 1 else 0
    ensures Count(es, Event(a, Enter(SetFlag))) - Count(es, Event(a, Finish(ClearFlag)))
         == (if Active(Exec(w, es).value.actors[a]) then 1 else 0) - (if Active(w.actors[a]) then 1 else 0)
    decreases |es|
  {
    if es != [] {
      var e := es[0];
      var l := w.actors[e.actor];
      assert Own(w.shared, e.actor, l);
      hide Step;
      StepProgress(w.shared, e.actor, l, e.act);
      StepFacts(w.shared, e.actor, l, e.act);
      FlagChange(w.shared, e.actor, l, e.act);
      StepKeepsInv(w, e);
      FinishesOnce(Take(w, e).value, es[1..], a);
    }
  }

  /** So a request that is done has lowered the flag exactly as often as it raised it: never or once. */
  lemma DoneIsBalanced(w: World, es: seq<Event>, a: Actor)
    requires Init(w) && Exec(w, es).Some? && a in w.actors
    requires a in Exec(w, es).value.actors && Exec(w, es).value.actors[a].phase.Done?
    ensures Count(es, Event(a, Finish(ClearFlag))) == Count(es, Event(a, Enter(SetFlag))) <= 1
    ensures CountBy(es, a) <= 41
  {
    hide Exec, Count, CountBy;
    InitHolds(w);
    FinishesOnce(w, es, a);
  }

  // ---- which request the status names ----

  ghost predicate DistinctIds(w: World) {
    forall a, b | a in w.actors && b in w.actors && w.actors[a].kind.Request? && w.actors[b].kind.Request?
      && w.actors[a].kind.id == w.actors[b].kind.id :: a == b
  }

  /** The request that is under way is the one the status names. */
  ghost predicate NamesTheActive(w: World) {
    forall a | a in w.actors && Active(w.actors[a]) && OnRecord(w.actors[a]) ::
      w.shared.current == Some(w.actors[a].kind.id)
  }

  lemma NameSurvives(s: Shared, a: Actor, l: Local, s': Shared, l': Local, id: RequestId)
    requires Facts(s, a, l, s', l') && !Active(l) && s.current == Some(id)
    requires l.kind.Request? ==> l.kind.id != id
    ensures s'.current == Some(id)
  {
  }

  lemma StepKeepsName(w: World, e: Event)
    requires Inv(w) && DistinctIds(w) && NamesTheActive(w) && Take(w, e).Some?
    ensures DistinctIds(Take(w, e).value) && NamesTheActive(Take(w, e).value)
  {
    var a, l := e.actor, w.actors[e.actor];
    assert Own(w.shared, a, l);
    StepFacts(w.shared, a, l, e.act);
    var m := Step(w.shared, a, l, e.act).value;
    assert Take(w, e).value == World(m.shared, w.actors[a := m.l]);
    hide Step, Take, Own, Inv;
    if Active(m.l) && OnRecord(m.l) && OnRecord(l) {
      assert Active(l);
    }
    forall b | b in w.actors && b != a && Active(w.actors[b]) && OnRecord(w.actors[b])
      ensures m.shared.current == Some(w.actors[b].kind.id)
    {
      NameSurvives(w.shared, a, l, m.shared, m.l, w.actors[b].kind.id);
    }
  }

  /** With distinct request ids, in every reachable world the status names the request under way. */
  lemma {:induction false} StatusNamesTheActive(w: World, es: seq<Event>)
    requires Inv(w) && DistinctIds(w) && NamesTheActive(w) && Exec(w, es).Some?
    ensures NamesTheActive(Exec(w, es).value)
    decreases |es|
  {
    if es != [] {
      StepKeepsName(w, es[0]);
      StepKeepsInv(w, es[0]);
      StatusNamesTheActive(Take(w, es[0]).value, es[1..]);
    }
  }

  // ---- a repeated id ----

  lemma {:induction false} Extend(w: World, es: seq<Event>, e: Event)
    requires Exec(w, es).Some?
    ensures Exec(w, es + [e]) == Take(Exec(w, es).value, e)
    decreases |es|
  {
    hide Take;
    if es == [] {
      assert es + [e] == [e] && [e][1..] == [];
    } else {
      assert (es + [e])[1..] == es[1..] + [e];
      Extend(Take(w, es[0]).value, es[1..], e);
    }
  }

  /** A run, and the world it leads to. */
  datatype Run = Run(es: seq<Event>, end: World)

  ghost predicate Runs(w: World, r: Run) {
    Exec(w, r.es) == Some(r.end)
  }

  lemma Go(w: World, r: Run, a: Actor, act: Act) returns (r': Run)
    requires Runs(w, r) && a in r.end.actors && Step(r.end.shared, a, r.end.actors[a], act).Some?
    ensures var m := Step(r.end.shared, a, r.end.actors[a], act).value;
      Runs(w, r') && r'.end == World(m.shared, r.end.actors[a := m.l])
  {
    hide Step;
    Extend(w, r.es, Event(a, act));
    var m := Step(r.end.shared, a, r.end.actors[a], act).value;
    r' := Run(r.es + [Event(a, act)], World(m.shared, r.end.actors[a := m.l]));
  }

  /** A request that finds gate and flag free starts, and puts its id on record. */
  lemma Starts(w: World, r: Run, a: Actor) returns (r': Run)
    requires Runs(w, r) && a in r.end.actors && r.end.actors[a].phase.Idle? && r.end.actors[a].kind.Request?
    requires r.end.shared.gate == None && !r.end.shared.reloading
    ensures var l := r.end.actors[a];
      Runs(w, r') && r'.end == World(r.end.shared.(gate := Some(a), reloading := true, current := Some(l.kind.id)),
                                     r.end.actors[a := l.(phase := Recorded, gated := true)])
  {
    hide Runs;
    var r1 := Go(w, r, a, Enter(TakeGate));
    var r2 := Go(w, r1, a, Enter(SeeFlag));
    var r3 := Go(w, r2, a, Enter(SetFlag));
    r' := Go(w, r3, a, Enter(RecordStart));
  }

  /** Its project is settled, with or without an update. */
  lemma Settles(w: World, r: Run, a: Actor) returns (r': Run)
    requires Runs(w, r) && a in r.end.actors && r.end.actors[a].phase.Recorded? && r.end.actors[a].kind.Request?
    requires r.end.shared.lock == None
    ensures Runs(w, r') && a in r'.end.actors && r'.end.actors == r.end.actors[a := r'.end.actors[a]]
    ensures var l, l' := r.end.actors[a], r'.end.actors[a];
      l'.phase.Loading? && l'.kind == l.kind && l'.gated == l.gated && l'.background == l.background
    ensures var s, s' := r.end.shared, r'.end.shared;
      s'.gate == s.gate && s'.reloading == s.reloading && s'.current == s.current
  {
    hide Runs;
    var r1 := Go(w, r, a, Enter(TryLock));
    var r2 := Go(w, r1, a, Update(Capture(true)));
    if r.end.actors[a].kind.update {
      var r3 := Go(w, r2, a, Update(PersistOnly(0)));
      r' := Go(w, r3, a, Check(Validate(true)));
    } else {
      r' := Go(w, r2, a, Update(SkipUpdate));
    }
  }

  /** It is handed over, its reload ends well, and it has lowered the flag but not recorded the end. */
  lemma LowersTheFlag(w: World, r: Run, a: Actor) returns (r': Run)
    requires Runs(w, r) && a in r.end.actors && r.end.actors[a].phase.Loading? && r.end.actors[a].kind.Request?
    requires r.end.actors[a].gated && !r.end.actors[a].background
    ensures Runs(w, r') && a in r'.end.actors && r'.end.actors == r.end.actors[a := r'.end.actors[a]]
    ensures var l := r'.end.actors[a]; l.phase.ToRecord? && l.kind == r.end.actors[a].kind
    ensures var s' := r'.end.shared; s'.gate == None && !s'.reloading && s'.current == r.end.shared.current
  {
    hide Runs;
    var r1 := Go(w, r, a, Reload(LoadConfig(true)));
    var r2 := Go(w, r1, a, Reload(HandOver));
    var r3 := Go(w, r2, a, Leave(DropGate));
    var r4 := Go(w, r3, a, Reload(TaskEnds(true, 0)));
    r' := Go(w, r4, a, Finish(ClearFlag));
  }

  /**
   Of any two requests with one id, the first can record its end after the second has started, and
   the status then names nobody while the second one's reload is under way.
   */
  lemma RepeatedIdHidesTheReload(w: World, a: Actor, b: Actor) returns (es: seq<Event>)
    requires Init(w) && a in w.actors && b in w.actors && a != b
    requires w.actors[a].kind.Request? && w.actors[b].kind.Request? && w.actors[a].kind.id == w.actors[b].kind.id
    ensures Exec(w, es).Some?
    ensures var now := Exec(w, es).value; now.shared.reloading && now.shared.current == None && !NamesTheActive(now)
  {
    assert Runs(w, Run([], w));
    var r1 := Starts(w, Run([], w), a);
    var r2 := Settles(w, r1, a);
    var r3 := LowersTheFlag(w, r2, a);
    var r4 := Starts(w, r3, b);
    var r5 := Go(w, r4, a, Finish(RecordFinish));
    assert Active(r5.end.actors[b]) && OnRecord(r5.end.actors[b]);
    es := r5.es;
  }

  /** The status names the request under way in every run exactly when no two requests share an id. */
  lemma StatusExactly(w: World)
    requires Init(w)
    ensures DistinctIds(w) <==> forall es | Exec(w, es).Some? :: NamesTheActive(Exec(w, es).value)
  {
    InitHolds(w);
    if DistinctIds(w) {
      forall es | Exec(w, es).Some? ensures NamesTheActive(Exec(w, es).value) {
        StatusNamesTheActive(w, es);
      }
    } else {
      var a, b :| a in w.actors && b in w.actors && w.actors[a].kind.Request? && w.actors[b].kind.Request?
        && w.actors[a].kind.id == w.actors[b].kind.id && a != b;
      var es := RepeatedIdHidesTheReload(w, a, b);
    }
  }

  // ---- a root that leads nowhere ----

  /** The holder of the lock backs up, fails to apply anything, and undoes it. */
  lemma FailsAndUndoes(got: World, a: Actor) returns (r: Run)
    requires a in got.actors && got.actors[a].phase.Locked? && Updates(got.actors[a])
    ensures Runs(got, r) && a in r.end.actors
    ensures var l, l' := got.actors[a], r.end.actors[a];
      && l'.kind == l.kind && l'.outcome.Failed? && !l'.rollback
      && l'.phase == if l.kind.Request? then ToFinish else Releasing
    ensures r.end.shared.project ==
      got.shared.project.(dirs := Restored(got.shared.project.dirs, got.actors[a].kind.scope))
  {
    var l, dirs := got.actors[a], got.shared.project.dirs;
    assert Runs(got, Run([], got));
    hide Runs, Overlay, Saved;
    var r1 := Go(got, Run([], got), a, Update(Capture(true)));
    var r2 := Go(got, r1, a, Update(Backup));
    var r3 := Go(got, r2, a, Update(ApplyFails(map[])));
    var r4 := Go(got, r3, a, Check(UndoDirs));
    r := Go(got, r4, a, Check(UndoState));
    OverlayTwice(dirs, map[], Saved(dirs, l.kind.scope), l.kind.scope);
  }

  /** A failed request that has nothing to roll back gets to the release of the lock. */
  lemma ComesToRelease(got: World, r: Run, a: Actor) returns (r': Run)
    requires Runs(got, r) && a in r.end.actors && r.end.actors[a].outcome.Failed? && !r.end.actors[a].rollback
    requires r.end.actors[a].phase == if r.end.actors[a].kind.Request? then ToFinish else Releasing
    ensures Runs(got, r') && a in r'.end.actors && r'.end.actors[a].outcome.Failed? && r'.end.actors[a].phase.Releasing?
    ensures r'.end.shared.project == r.end.shared.project
  {
    hide Runs;
    r' := r;
    if r.end.actors[a].kind.Request? {
      var r1 := Go(got, r, a, Finish(ClearFlag));
      r' := Go(got, r1, a, Finish(RecordFinish));
    }
  }

  lemma DanglingRootIsLost(got: World, a: Actor) returns (during: seq<Event>)
    requires Inv(got) && a in got.actors && got.actors[a].phase.Locked? && Updates(got.actors[a])
    requires DanglingIn(got.shared.project.dirs, got.actors[a].kind.scope)
    ensures FailsIn(got, a, during) && LeftBy(got, a, during).project != got.shared.project
  {
    hide Inv, SomeFails, SomeBreaks, SomeKeeps, Restored, DanglingIn;
    var r := FailsAndUndoes(got, a);
    var r' := ComesToRelease(got, r, a);
    during := r'.es;
    OutcomeByEvents(got, during, a);
    RestoredExactly(got.shared.project.dirs, got.actors[a].kind.scope);
  }

  /**
   From where `a` has the lock, every run in which it fails and is undone leaves the project as it
   was, exactly unless `a` updates and a root in its scope leads nowhere.
   */
  lemma FailureRestoresExactly(w: World, before: seq<Event>, a: Actor)
    requires Init(w) && Exec(w, before).Some?
    requires Take(Exec(w, before).value, Event(a, Enter(TryLock))).Some?
    requires Take(Exec(w, before).value, Event(a, Enter(TryLock))).value.shared.lock == Some(a)
    ensures var got := Take(Exec(w, before).value, Event(a, Enter(TryLock))).value;
      var l, start := got.actors[a], Exec(w, before).value.shared;
      (forall during | FailsIn(got, a, during) :: LeftBy(got, a, during).project == start.project) <==>
      !(Updates(l) && DanglingIn(start.project.dirs, l.kind.scope))
  {
    var start := Exec(w, before).value;
    var got := Take(start, Event(a, Enter(TryLock))).value;
    InitHolds(w);
    RunKeepsInv(w, before);
    StepKeepsInv(start, Event(a, Enter(TryLock)));
    LockTaken(start, a);
    hide Inv, FailsIn, LeftBy, Restored, DanglingIn;
    if Updates(got.actors[a]) && DanglingIn(start.shared.project.dirs, got.actors[a].kind.scope) {
      var during := DanglingRootIsLost(got, a);
    } else {
      forall during | FailsIn(got, a, during) ensures LeftBy(got, a, during).project == start.shared.project {
        FailureRestoresTheProject(w, before, a, during);
      }
    }
  }
}
