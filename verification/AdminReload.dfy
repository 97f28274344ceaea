/**
 One reload request in the daemon, from the gate to the recorded end: the fields of the shared
 application state that it updates, and the project files it updates and rolls back.
 */
module AdminReload {
  import opened Wrappers
  import opened FileTree
  import opened TreeCompare
  import opened ManagedDirs
  import opened RemoteState
  import opened RemoteUpdate
  import Protocol = ReloadProtocol

  datatype ReloadRequest = ReloadRequest(update: bool, version: Option<string>, group: Option<string>)

  /** What the reload task ends with; a task that dies counts as failed. */
  datatype TaskResult = Applied | Blocked | TaskFailed

  /** The runtime artifact files as captured. */
  datatype Artifacts = Artifacts(ruleMapping: Option<Content>, authorityDb: Option<Content>)

  /** What the handler keeps for the rollback; `update` is there if the project was synchronised. */
  datatype ReloadContext = ReloadContext(snapshot: Snapshot, artifacts: Artifacts, update: Option<UpdateResult>)

  /** The response's result, and whether an undo that was due went through. */
  datatype Response = Response(result: string, undone: bool)

  /**
   What a request meets: whether its body is too large, whether the remote's configuration loads
   and is enabled and goes with the group, whether the runtime is shutting down, whether the file
   lock can be taken, whether the handler waits to the end, which trees' configuration loads, and
   what the engine makes of the reload.
   */
  datatype Surroundings = Surroundings(tooLarge: bool, configured: bool, fits: bool, cancelled: bool, locked: bool,
                                       waits: bool, loads: Files -> bool, task: TaskResult)

  /** `RemoteGroup`'s parser. */
  function ParseGroupName(raw: string): Option<RemoteGroup> {
    if raw == "models" then Some(Models) else if raw == "infra" then Some(Infra) else None
  }

  /** The label under which an update reports its group. */
  function GroupLabel(g: RemoteGroup): string {
    match g
    case Models => "models"
    case Infra => "infra"
  }

  /** A label names its group and no other string does; a group named after a directory manages it. */
  lemma GroupNamesExactly(raw: string, g: RemoteGroup)
    ensures ParseGroupName(raw) == Some(g) <==> raw == GroupLabel(g)
    ensures ParseGroupName(raw) == Some(g) && raw in ManagedDirsFor(None) ==> raw in ManagedDirsFor(Some(g))
    ensures ParseGroupName("models").Some?
  {
  }

  /** The group a request asks for: `None` for an invalid one. */
  function RequestedGroup(req: ReloadRequest): Option<Option<RemoteGroup>> {
    if req.group == None || req.group.value == "" then Some(None)
    else
      match ParseGroupName(req.group.value)
      case None => None
      case Some(g) => Some(Some(g))
  }

  /** `version` and `group` are for updates only. */
  predicate WellPosed(req: ReloadRequest) {
    && (!req.update ==> req.version == None && (req.group == None || req.group.value == ""))
    && RequestedGroup(req).Some?
  }

  ghost predicate SameFile(a: Files, b: Files, p: Path) {
    && (p in a <==> p in b)
    && (p in a ==> a[p].File? && b[p].File? && a[p].content == b[p].content)
  }

  /** The project as the update was to leave it. */
  ghost predicate UpdateInPlace(before: Files, now: Files, resolves: Resolver, group: Option<RemoteGroup>,
                                requested: Option<string>)
  {
    exists result: UpdateResult :: result.requested == requested && Recorded(before, now, resolves, group, result)
  }

  ghost predicate Recorded(before: Files, now: Files, resolves: Resolver, group: Option<RemoteGroup>, result: UpdateResult) {
    && (forall d | d in ManagedDirsFor(group) :: Installed(now, resolves, CachePathFor(group), d, result.changed))
    && NextState(KnownState(before), group, result).Some?
    && LoadedState(now) == HasState(NextState(KnownState(before), group, result).value)
    && RecordsCheckout(before, now, result.requested, group, result)
  }

  // ---- the flag and the request on record ----

  datatype Flags = Flags(reloading: bool, current: Option<string>)

  function Started(id: string): Flags {
    Flags(true, Some(id))
  }

  function Finished(f: Flags, id: string): Flags {
    Flags(false, if f.current == Some(id) then None else f.current)
  }

  function FlagsOf(s: Protocol.Shared): Flags {
    Flags(s.reloading, s.current)
  }

  /** The protocol's two start steps do to the shared flags what `mark_reload_started` does to the fields. */
  lemma ProtocolStarts(s: Protocol.Shared, a: Protocol.Actor, l: Protocol.Local)
    requires l.kind.Request? && l.phase.Cleared?
    ensures var m := Protocol.Step(s, a, l, Protocol.Enter(Protocol.SetFlag));
      m.Some? &&
      var n := Protocol.Step(m.value.shared, a, m.value.l, Protocol.Enter(Protocol.RecordStart));
      n.Some? && FlagsOf(n.value.shared) == Started(l.kind.id)
  {
  }

  /** And its two end steps what `mark_reload_finished` does. */
  lemma ProtocolFinishes(s: Protocol.Shared, a: Protocol.Actor, l: Protocol.Local)
    requires l.kind.Request? && l.phase.ToFinish?
    ensures var m := Protocol.Step(s, a, l, Protocol.Finish(Protocol.ClearFlag));
      m.Some? &&
      var n := Protocol.Step(m.value.shared, a, m.value.l, Protocol.Finish(Protocol.RecordFinish));
      n.Some? && FlagsOf(n.value.shared) == Finished(FlagsOf(s), l.kind.id)
  {
  }

  class AppState {
    var gateHeld: bool
    var reloading: bool
    var currentRequestId: Option<string>
    var lastReloadRequestId: Option<string>
    var lastReloadResult: Option<string>
    var lastReloadStartedAt: Option<int>
    var lastReloadFinishedAt: Option<int>

    ghost function Seen(): Flags
      reads this
    {
      Flags(reloading, currentRequestId)
    }

    /** `mark_reload_started`. */
    method MarkReloadStarted(id: string, now: int)
      modifies this
      ensures Seen() == Started(id) && gateHeld == old(gateHeld)
      ensures lastReloadRequestId == Some(id) && lastReloadResult == None
      ensures lastReloadStartedAt == Some(now) && lastReloadFinishedAt == None
    {
      reloading := true;
      currentRequestId := Some(id);
      lastReloadRequestId := Some(id);
      lastReloadStartedAt := Some(now);
      lastReloadFinishedAt := None;
      lastReloadResult := None;
    }

    /** `mark_reload_finished`. */
    method MarkReloadFinished(id: string, result: string, now: int)
      modifies this
      ensures Seen() == Finished(old(Seen()), id) && gateHeld == old(gateHeld)
      ensures lastReloadRequestId == Some(id) && lastReloadResult == Some(result)
      ensures lastReloadStartedAt == old(lastReloadStartedAt) && lastReloadFinishedAt == Some(now)
    {
      reloading := false;
      if currentRequestId == Some(id) {
        currentRequestId := None;
      }
      lastReloadRequestId := Some(id);
      lastReloadResult := Some(result);
      lastReloadFinishedAt := Some(now);
    }

    /** The reload is over and on record, and nothing else is pending. */
    ghost predicate OnRecord(id: string, result: string)
      reads this
    {
      && !reloading && currentRequestId == None && lastReloadFinishedAt.Some?
      && lastReloadRequestId == Some(id) && lastReloadResult == Some(result)
    }
  }

  // ---- the runtime artifacts ----

  const RULE_MAPPING: Path := [".run", "rule_mapping.dat"]
  const RULE_MAPPING_TMP: Path := [".run", "rule_mapping..tmp"]
  const AUTHORITY_DB: Path := [".run", "authority.sqlite"]
  const AUTHORITY_DB_TMP: Path := [".run", "authority..tmp"]

  ghost function ArtifactZone(): iset<Path> {
    FileZone(RULE_MAPPING, RULE_MAPPING_TMP) + FileZone(AUTHORITY_DB, AUTHORITY_DB_TMP)
  }

  ghost predicate ArtifactsAre(fs: Files, a: Artifacts) {
    FileIs(fs, RULE_MAPPING, a.ruleMapping) && FileIs(fs, AUTHORITY_DB, a.authorityDb)
  }

  /** The artifact files are files or missing, in a runtime area that is a directory or missing. */
  ghost predicate Replaceable(fs: Files) {
    CanReplace(fs, RULE_MAPPING, RULE_MAPPING_TMP) && CanReplace(fs, AUTHORITY_DB, AUTHORITY_DB_TMP)
  }

  ghost predicate SameArtifacts(a: Files, b: Files) {
    SameFile(a, b, RULE_MAPPING) && SameFile(a, b, AUTHORITY_DB)
  }

  /** `capture_runtime_artifact_snapshot`. */
  method CaptureArtifacts(w: Workspace) returns (r: Option<Artifacts>)
    ensures r.Some? ==> ArtifactsAre(w.fs, r.value)
    ensures w.reliable && Replaceable(w.fs) ==> r.Some?
  {
    var ruleMapping := ReadOptionalFile(w, RULE_MAPPING);
    if ruleMapping == None {
      return None;
    }
    var authorityDb := ReadOptionalFile(w, AUTHORITY_DB);
    return if authorityDb.Some? then Some(Artifacts(ruleMapping.value, authorityDb.value)) else None;
  }

  /** `restore_runtime_artifact_snapshot`. */
  method RestoreArtifacts(w: Workspace, a: Artifacts) returns (ok: bool)
    requires w.Valid()
    modifies w`fs
    ensures w.Valid() && Only(old(w.fs), w.fs, ArtifactZone())
    ensures ok ==> ArtifactsAre(w.fs, a)
    ensures w.reliable && Replaceable(old(w.fs)) ==> ok
    ensures ok && Replaceable(old(w.fs)) ==> Replaceable(w.fs)
  {
    NamesApart();
    ok := RestoreOptionalFile(w, RULE_MAPPING, RULE_MAPPING_TMP, a.ruleMapping);
    ghost var mid := w.fs;
    if ok {
      OneArtifactAtATime(old(w.fs), mid);
      ok := RestoreOptionalFile(w, AUTHORITY_DB, AUTHORITY_DB_TMP, a.authorityDb);
      OneArtifactAtATime(mid, w.fs);
    }
    Wider(old(w.fs), mid, FileZone(RULE_MAPPING, RULE_MAPPING_TMP), ArtifactZone());
    Wider(mid, w.fs, FileZone(AUTHORITY_DB, AUTHORITY_DB_TMP), ArtifactZone());
    OnlyThrough(old(w.fs), mid, w.fs, ArtifactZone());
  }

  lemma OneArtifactAtATime(a: Files, b: Files)
    ensures Only(a, b, FileZone(RULE_MAPPING, RULE_MAPPING_TMP)) ==>
      Agree(a, b, AUTHORITY_DB) && Agree(a, b, AUTHORITY_DB_TMP)
    ensures Only(a, b, FileZone(AUTHORITY_DB, AUTHORITY_DB_TMP)) ==>
      Agree(a, b, RULE_MAPPING) && Agree(a, b, RULE_MAPPING_TMP)
  {
    NamesApart();
    assert RULE_MAPPING in [RULE_MAPPING, RULE_MAPPING_TMP] && RULE_MAPPING_TMP in [RULE_MAPPING, RULE_MAPPING_TMP];
  }

  lemma NamesApart()
    ensures RULE_MAPPING[1] != RULE_MAPPING_TMP[1] && AUTHORITY_DB[1] != AUTHORITY_DB_TMP[1]
    ensures forall p | p in [RULE_MAPPING, RULE_MAPPING_TMP] :: p[1] != AUTHORITY_DB[1] && p[1] != AUTHORITY_DB_TMP[1]
    ensures forall p | p in [RULE_MAPPING, RULE_MAPPING_TMP, AUTHORITY_DB, AUTHORITY_DB_TMP] ::
      p[1] != "project_remote" && p[1] != STATE[1] && p[1] != STATE_TMP[1]
  {
    assert RULE_MAPPING[1][0] == RULE_MAPPING_TMP[1][0] == 'r';
    assert AUTHORITY_DB[1][0] == AUTHORITY_DB_TMP[1][0] == 'a';
    assert "project_remote"[0] == STATE[1][0] == STATE_TMP[1][0] == 'p';
  }

  /** Anything in the area of the remotes, and the state file with its temporary. */
  ghost predicate OfTheUpdate(p: Path) {
    |p| >= 2 && p[0] == ".run" && p[1] in {"project_remote", STATE[1], STATE_TMP[1]}
  }

  lemma ArtifactsAreElsewhere(a: Files, b: Files)
    requires Only(a, b, ArtifactZone())
    ensures forall p | OfTheUpdate(p) :: Agree(a, b, p)
    ensures Only(a, b, RunZone())
  {
    NamesApart();
    var names := [RULE_MAPPING, RULE_MAPPING_TMP, AUTHORITY_DB, AUTHORITY_DB_TMP];
    assert names[0] in names && names[1] in names && names[2] in names && names[3] in names;
    forall p | OfTheUpdate(p) ensures p !in ArtifactZone() {
    }
    assert ArtifactZone() <= RunZone();
  }

  /** The engine may write the runtime artifacts while it reloads, and nothing else here. */
  method RunReloadTask(w: Workspace, env: Surroundings) returns (t: TaskResult)
    requires w.Valid()
    modifies w`fs
    ensures w.Valid() && Only(old(w.fs), w.fs, ArtifactZone()) && t == env.task
    ensures w.reliable && Replaceable(old(w.fs)) ==> Replaceable(w.fs)
  {
    var left: Artifacts := *;
    var written := RestoreArtifacts(w, left);
    t := env.task;
  }

  // ---- undoing the update ----

  /** The backup, the snapshot and the artifacts are those of the project as it was `before`. */
  ghost predicate CanUndo(ctx: ReloadContext, before: Files, now: Files, resolves: Resolver) {
    && WellFormed(before) && FileIs(before, STATE, ctx.snapshot.stateFile) && ArtifactsAre(before, ctx.artifacts)
    && (ctx.update.Some? && ctx.update.value.changed ==>
          BackupInPlace(now, before, resolves, ManagedDirsFor(ctx.snapshot.group)))
    && (ctx.update.Some? && !ctx.update.value.changed ==> DirsStillAs(before, now, ManagedDirsFor(ctx.snapshot.group)))
  }

  /** What a rollback without a warning amounts to. */
  ghost predicate Undone(before: Files, now: Files, resolves: Resolver, group: Option<RemoteGroup>) {
    && DirsRolledBack(before, now, resolves, ManagedDirsFor(group))
    && SameFile(before, now, STATE) && SameArtifacts(before, now)
  }

  /** Nothing stands in the way of undoing the update, if there was one. */
  ghost predicate CanFinish(ctx: ReloadContext, fs: Files) {
    ctx.update.Some? ==>
      CanRollBack(fs, ManagedDirsFor(ctx.snapshot.group), ctx.update.value.changed) && Replaceable(fs)
  }

  ghost function ReloadZone(group: Option<RemoteGroup>): iset<Path> {
    UpdateZone(group) + ArtifactZone()
  }

  /** What the artifacts' restore leaves of the rest. */
  lemma StillUndone(before: Files, a: Files, b: Files, resolves: Resolver, dirs: seq<Name>)
    requires Scope(dirs) && DirsRolledBack(before, a, resolves, dirs) && Only(a, b, ArtifactZone())
    ensures DirsRolledBack(before, b, resolves, dirs) && Agree(a, b, STATE)
  {
    ArtifactsAreElsewhere(a, b);
    RunAreaKeepsDirs(a, b, dirs);
    assert OfTheUpdate(STATE);
    forall d | d in dirs
      ensures SameTree(b, [d], before, [d]) || (DanglingRoot(before, resolves, d) && Absent(b, [d]))
    {
      assert SameTree(b, [d], a, [d]);
    }
  }

  /** An update does not get in the way of the artifacts. */
  lemma StillReplaceable(a: Files, b: Files, group: Option<RemoteGroup>)
    requires Only(a, b, UpdateZone(group)) && CanReplace(b, STATE, STATE_TMP)
    ensures Replaceable(a) ==> Replaceable(b)
  {
    NamesApart();
    var names := [RULE_MAPPING, RULE_MAPPING_TMP, AUTHORITY_DB, AUTHORITY_DB_TMP];
    assert names[0] in names && names[1] in names && names[2] in names && names[3] in names;
    forall p | p in names ensures Agree(a, b, p) {
      UpdateStaysInScope(group, p);
    }
  }

  /** `rollback_updated_project`: both restores are tried, and a failure of either is only a warning. */
  method RollBackUpdatedProject(w: Workspace, ctx: ReloadContext, ghost before: Files) returns (warning: bool)
    requires w.Valid() && CanUndo(ctx, before, w.fs, w.resolves)
    modifies w`fs
    ensures w.Valid() && Only(old(w.fs), w.fs, ReloadZone(ctx.snapshot.group))
    ensures ctx.update.None? ==> !warning && w.fs == old(w.fs)
    ensures ctx.update.Some? && !warning ==> Undone(before, w.fs, w.resolves, ctx.snapshot.group)
    ensures w.reliable && CanFinish(ctx, old(w.fs)) ==> !warning
  {
    if ctx.update == None {
      return false;
    }
    hide CanReplace, CanRestore, Replaceable;
    ghost var group := ctx.snapshot.group;
    var restored := RestoreUpdate(w, ctx.snapshot, ctx.update.value.changed, before);
    ghost var mid := w.fs;
    Wider(old(w.fs), mid, DirsZone(ManagedDirsFor(group)) + StateZone(), ReloadZone(group));
    if restored && CanReplace(old(w.fs), STATE, STATE_TMP) {
      Wider(old(w.fs), mid, DirsZone(ManagedDirsFor(group)) + StateZone(), UpdateZone(group));
      StillReplaceable(old(w.fs), mid, group);
    }
    var artifactsRestored := RestoreArtifacts(w, ctx.artifacts);
    Wider(mid, w.fs, ArtifactZone(), ReloadZone(group));
    OnlyThrough(old(w.fs), mid, w.fs, ReloadZone(group));
    if restored {
      StillUndone(before, mid, w.fs, w.resolves, ManagedDirsFor(group));
    }
    warning := !restored || !artifactsRestored;
  }

  // ---- the end of the reload task ----

  /** The result a response names for the reload task's end. */
  function ResultName(t: TaskResult): string {
    match t
    case Applied => "reload_done"
    case Blocked => "restart_required"
    case TaskFailed => "reload_failed"
  }

  /** `map_reload_result`, and the monitor's branch for a task that died: only a failure is rolled back. */
  method MapReloadResult(state: AppState, w: Workspace, t: TaskResult, id: string, ctx: ReloadContext, now: int,
                         ghost before: Files) returns (r: Response)
    requires w.Valid() && CanUndo(ctx, before, w.fs, w.resolves) && state.Seen() == Started(id)
    modifies state, w`fs
    ensures w.Valid() && Only(old(w.fs), w.fs, ReloadZone(ctx.snapshot.group))
    ensures r.result == "reload_done" <==> t == Applied
    ensures r.result == "restart_required" <==> t == Blocked
    ensures r.result == ResultName(t) && state.OnRecord(id, r.result) && state.gateHeld == old(state.gateHeld)
    ensures t != TaskFailed || ctx.update.None? ==> w.fs == old(w.fs)
    ensures t == TaskFailed && ctx.update.Some? && r.undone ==> Undone(before, w.fs, w.resolves, ctx.snapshot.group)
    ensures w.reliable && CanFinish(ctx, old(w.fs)) ==> r.undone
  {
    state.MarkReloadFinished(id, ResultName(t), now);
    var warning := false;
    if t == TaskFailed {
      warning := RollBackUpdatedProject(w, ctx, before);
    }
    r := Response(ResultName(t), !warning);
  }

  // ---- the locked part ----

  /** What the whole reload leaves behind, by the result it reports. */
  ghost predicate Leaves(r: Response, req: ReloadRequest, before: Files, now: Files, resolves: Resolver,
                         group: Option<RemoteGroup>)
  {
    && r.result in {"update_in_progress", "update_failed", "reload_done", "restart_required", "reload_failed"}
    && Only(before, now, ReloadZone(group))
    && (r.result == "update_in_progress" ==> now == before)
    && (!req.update ==> Only(before, now, ArtifactZone()))
    && (req.update && r.result in {"reload_done", "restart_required"} ==> UpdateInPlace(before, now, resolves, group, req.version))
    && (req.update && r.result == "update_failed" && r.undone ==>
          DirsRolledBack(before, now, resolves, ManagedDirsFor(group)) && LoadedState(now) == LoadedState(before))
    && (req.update && r.result == "reload_failed" && r.undone ==> Undone(before, now, resolves, group))
  }

  /** The configuration is loaded and the reload task is under way: everything to finish the reload with is at hand. */
  ghost predicate InFlight(ctx: ReloadContext, req: ReloadRequest, before: Files, now: Files, resolves: Resolver,
                           group: Option<RemoteGroup>)
  {
    && CanUndo(ctx, before, now, resolves) && ctx.snapshot.group == group && Only(before, now, ReloadZone(group))
    && (req.update ==>
          ctx.update.Some? && ctx.update.value.requested == req.version && Recorded(before, now, resolves, group, ctx.update.value))
    && (!req.update ==> ctx.update.None? && Only(before, now, ArtifactZone()))
  }

  lemma InstalledSurvives(a: Files, b: Files, resolves: Resolver, remote: Path, d: Name, changed: bool)
    requires Installed(a, resolves, remote, d, changed)
    requires SameTree(b, [d], a, [d]) && SameTree(b, remote + [d], a, remote + [d])
    ensures Installed(b, resolves, remote, d, changed)
  {
    RootOfSameTree(a, b, remote + [d]);
    if !changed {
      ViewFrame(a, b, resolves, remote + [d], [d]);
    }
  }

  lemma BelowTheUpdate(a: Files, b: Files, p: Path)
    requires Only(a, b, ArtifactZone()) && OfTheUpdate(p)
    ensures SameTree(b, p, a, p)
  {
    ArtifactsAreElsewhere(a, b);
    forall q | p <= q ensures Agree(a, b, q) {
      assert OfTheUpdate(q);
    }
    AgreeBelowIsSameTree(a, b, p);
  }

  lemma RecordedSurvives(before: Files, a: Files, b: Files, resolves: Resolver, group: Option<RemoteGroup>,
                         result: UpdateResult)
    requires Recorded(before, a, resolves, group, result) && Only(a, b, ArtifactZone())
    ensures Recorded(before, b, resolves, group, result)
  {
    ArtifactsAreElsewhere(a, b);
    RunAreaKeepsDirs(a, b, ManagedDirsFor(group));
    assert OfTheUpdate(STATE) && OfTheUpdate(HeadFile(group));
    forall d | d in ManagedDirsFor(group) ensures Installed(b, resolves, CachePathFor(group), d, result.changed) {
      BelowTheUpdate(a, b, CachePathFor(group) + [d]);
      InstalledSurvives(a, b, resolves, CachePathFor(group), d, result.changed);
    }
  }

  lemma BackupSurvives(before: Files, a: Files, b: Files, resolves: Resolver, dirs: seq<Name>)
    requires BackupInPlace(a, before, resolves, dirs) && Only(a, b, ArtifactZone())
    ensures BackupInPlace(b, before, resolves, dirs)
  {
    ArtifactsAreElsewhere(a, b);
    assert OfTheUpdate(MANIFEST);
    forall d | d in ExistingDirs(before, resolves, dirs) ensures SameTree(b, BACKUP + [d], before, [d]) {
      BelowTheUpdate(a, b, BACKUP + [d]);
      assert SameTree(a, BACKUP + [d], before, [d]);
    }
  }

  /** Whatever the reload task writes, the reload can still be finished. */
  lemma TaskKeepsFlight(ctx: ReloadContext, req: ReloadRequest, before: Files, a: Files, b: Files, resolves: Resolver,
                        group: Option<RemoteGroup>)
    requires InFlight(ctx, req, before, a, resolves, group) && Only(a, b, ArtifactZone())
    ensures InFlight(ctx, req, before, b, resolves, group)
  {
    hide BackupInPlace, Recorded;
    var dirs := ManagedDirsFor(group);
    Wider(a, b, ArtifactZone(), ReloadZone(group));
    OnlyThrough(before, a, b, ReloadZone(group));
    if !req.update {
      OnlyThrough(before, a, b, ArtifactZone());
    } else {
      RecordedSurvives(before, a, b, resolves, group, ctx.update.value);
      if ctx.update.value.changed {
        BackupSurvives(before, a, b, resolves, dirs);
      } else {
        ArtifactsAreElsewhere(a, b);
        RunAreaKeepsDirs(a, b, dirs);
      }
    }
  }

  lemma StillRestorable(a: Files, b: Files, dirs: seq<Name>)
    requires Only(a, b, ArtifactZone()) && CanRestore(a, dirs)
    ensures CanRestore(b, dirs)
  {
    ArtifactsAreElsewhere(a, b);
    assert OfTheUpdate(MANIFEST);
    if MANIFEST in a {
      forall d | d in ParseManifest(a[MANIFEST].content).value
        ensures BACKUP + [d] in b && Ordinary(b, BACKUP + [d])
      {
        BelowTheUpdate(a, b, BACKUP + [d]);
        assert BACKUP + [d] + [] == BACKUP + [d] && At(b, BACKUP + [d], []) == At(a, BACKUP + [d], []);
        forall rel ensures At(b, BACKUP + [d], rel) != Some(Special) {
          assert At(b, BACKUP + [d], rel) == At(a, BACKUP + [d], rel);
        }
      }
    }
  }

  lemma StillFinishable(ctx: ReloadContext, a: Files, b: Files)
    requires Only(a, b, ArtifactZone()) && (Replaceable(a) ==> Replaceable(b))
    ensures CanFinish(ctx, a) ==> CanFinish(ctx, b)
  {
    hide CanRestore;
    if ctx.update.Some? && CanFinish(ctx, a) {
      ArtifactsAreElsewhere(a, b);
      assert OfTheUpdate(STATE) && OfTheUpdate(STATE_TMP);
      if ctx.update.value.changed {
        StillRestorable(a, b, ManagedDirsFor(ctx.snapshot.group));
      }
    }
  }

  /** What the end of the reload task and its rollback, if one is due, make of a reload under way. */
  lemma FlightEnds(t: TaskResult, r: Response, ctx: ReloadContext, req: ReloadRequest, before: Files, ended: Files, now: Files,
                   resolves: Resolver, group: Option<RemoteGroup>)
    requires InFlight(ctx, req, before, ended, resolves, group) && r.result == ResultName(t)
    requires Only(ended, now, ReloadZone(group))
    requires t != TaskFailed || ctx.update.None? ==> now == ended
    requires t == TaskFailed && ctx.update.Some? && r.undone ==> Undone(before, now, resolves, group)
    ensures Leaves(r, req, before, now, resolves, group)
  {
    hide Recorded, DirsRolledBack, Undone, CanUndo, Only, ReloadZone;
    OnlyThrough(before, ended, now, ReloadZone(group));
  }

  /** A reload under way, to its end: what `monitor_reload_task` does, and the handler that waits for it. */
  method FinishReload(state: AppState, w: Workspace, env: Surroundings, loaded: bool, id: string, ctx: ReloadContext,
                      now: int, ghost req: ReloadRequest, ghost before: Files) returns (r: Response)
    requires w.Valid() && state.Seen() == Started(id)
    requires InFlight(ctx, req, before, w.fs, w.resolves, ctx.snapshot.group)
    modifies state, w`fs
    ensures w.Valid() && state.OnRecord(id, r.result) && state.gateHeld == old(state.gateHeld)
    ensures Leaves(r, req, before, w.fs, w.resolves, ctx.snapshot.group)
    ensures r.result == ResultName(if loaded then env.task else TaskFailed)
    ensures w.reliable && CanFinish(ctx, old(w.fs)) ==> r.undone
  {
    hide CanUndo, Undone, Leaves, Only, CanFinish, Replaceable;
    var t := TaskFailed;
    if loaded {
      t := RunReloadTask(w, env);
      if w.reliable {
        StillFinishable(ctx, old(w.fs), w.fs);
      }
      TaskKeepsFlight(ctx, req, before, old(w.fs), w.fs, w.resolves, ctx.snapshot.group);
    }
    ghost var ended := w.fs;
    assert CanUndo(ctx, before, ended, w.resolves);
    r := MapReloadResult(state, w, t, id, ctx, now, before);
    FlightEnds(t, r, ctx, req, before, ended, w.fs, w.resolves, ctx.snapshot.group);
  }

  lemma FailedUpdateLeaves(undone: bool, req: ReloadRequest, before: Files, now: Files, resolves: Resolver,
                           group: Option<RemoteGroup>)
    requires Only(before, now, ReloadZone(group)) && (!req.update ==> now == before)
    requires undone ==> DirsRolledBack(before, now, resolves, ManagedDirsFor(group)) && LoadedState(now) == LoadedState(before)
    ensures Leaves(Response("update_failed", undone), req, before, now, resolves, group)
  {
  }

  /** A reload that came to load the configuration ends as the loader and the engine say. */
  ghost predicate EndsAs(result: string, env: Surroundings, req: ReloadRequest, before: Files, resolves: Resolver,
                         group: Option<RemoteGroup>)
  {
    exists ctx: ReloadContext, fs: Files ::
      InFlight(ctx, req, before, fs, resolves, group) && result == ResultName(if env.loads(fs) then env.task else TaskFailed)
  }

  /** Load the configuration, start the reload, and wait for its end or leave it to the monitor. */
  method LoadAndReload(state: AppState, w: Workspace, env: Surroundings, id: string, ctx: ReloadContext, now: int,
                       ghost req: ReloadRequest, ghost before: Files)
    returns (r: Response, pending: Option<ReloadContext>)
    requires w.Valid() && state.Seen() == Started(id)
    requires InFlight(ctx, req, before, w.fs, w.resolves, ctx.snapshot.group)
    modifies state, w`fs
    ensures w.Valid() && state.gateHeld == old(state.gateHeld)
    ensures pending.None? ==> state.OnRecord(id, r.result) && Leaves(r, req, before, w.fs, w.resolves, ctx.snapshot.group)
    ensures pending.None? ==> EndsAs(r.result, env, req, before, w.resolves, ctx.snapshot.group)
    ensures pending.None? ==> r.result !in {"update_failed", "update_in_progress"}
    ensures pending.Some? <==> env.loads(old(w.fs)) && !env.waits
    ensures pending.Some? ==> pending.value == ctx && w.fs == old(w.fs)
    ensures pending.None? && !env.waits ==> r.result == "reload_failed"
    ensures pending.Some? ==> state.Seen() == Started(id) && r.result == "running"
    ensures w.reliable && CanFinish(ctx, old(w.fs)) ==> r.undone && (pending.Some? ==> CanFinish(ctx, w.fs))
  {
    hide InFlight, Leaves, CanFinish;
    var loaded := env.loads(w.fs);
    if loaded && !env.waits {
      return Response("running", true), Some(ctx);
    }
    r := FinishReload(state, w, env, loaded, id, ctx, now, req, before);
    pending := None;
  }

  /** Nothing stands where the reload writes. */
  ghost predicate Clear(fs: Files, req: ReloadRequest, group: Option<RemoteGroup>) {
    Replaceable(fs) && CanReplace(fs, STATE, STATE_TMP) && (req.update ==> Unhindered(fs, group))
  }

  /** The only reasons left for an update to fail: a state that it may not overwrite, a configuration that does not load. */
  ghost predicate UpdateMayFail(fs: Files, req: ReloadRequest, resolves: Resolver, loads: Files -> bool,
                                group: Option<RemoteGroup>)
  {
    req.update && (!CanUpdate(fs, group) || CheckRefused(fs, resolves, loads, req.version, group))
  }

  /**
   Capture, synchronise if asked to, load the configuration and start the reload, with the file
   lock held. `pending` is what the monitor gets when the handler does not wait to the end.
   */
  method ReloadLocked(state: AppState, w: Workspace, env: Surroundings, id: string, req: ReloadRequest,
                      group: Option<RemoteGroup>, now: int)
    returns (r: Response, pending: Option<ReloadContext>)
    requires w.Valid() && state.Seen() == Started(id) && state.gateHeld
    modifies state, w`fs
    ensures w.Valid() && state.gateHeld == old(state.gateHeld)
    ensures pending.None? ==> state.OnRecord(id, r.result) && Leaves(r, req, old(w.fs), w.fs, w.resolves, group)
    ensures pending.Some? ==> state.Seen() == Started(id) && r.result == "running"
    ensures pending.Some? ==> InFlight(pending.value, req, old(w.fs), w.fs, w.resolves, group)
    ensures pending.Some? ==> env.loads(w.fs) && !env.waits
    ensures pending.None? && !env.waits ==> r.result in {"update_failed", "reload_failed"}
    ensures r.result != "update_in_progress"
    ensures pending.None? && r.result != "update_failed" ==> EndsAs(r.result, env, req, old(w.fs), w.resolves, group)
    ensures w.reliable && Clear(old(w.fs), req, group) ==> r.undone && (pending.Some? ==> CanFinish(pending.value, w.fs))
    ensures w.reliable && Clear(old(w.fs), req, group) && r.result == "update_failed" ==>
      UpdateMayFail(old(w.fs), req, w.resolves, w.loads, group)
  {
    ClearMeans(w.fs, req, group);
    hide Clear, UpdateMayFail, CanFinish, Replaceable, CanReplace, EndsAs, Leaves, InFlight, CanUndo;
    ghost var before := w.fs;
    pending := None;
    var ctx := CaptureBefore(w, group);
    if ctx == None {
      state.MarkReloadFinished(id, "update_failed", now);
      StillAsBefore(before, w.resolves, group);
      FailedUpdateLeaves(true, req, before, w.fs, w.resolves, group);
      return Response("update_failed", true), None;
    }
    ReadyToGo(ctx.value, req, before, w.resolves, group);
    if req.update {
      var undone;
      ctx, undone := UpdateFirst(w, req, group, ctx.value);
      if ctx == None {
        state.MarkReloadFinished(id, "update_failed", now);
        return Response("update_failed", undone), None;
      }
    }
    r, pending := LoadAndReload(state, w, env, id, ctx.value, now, req, before);
  }

  /** The snapshot and the artifacts, for a rollback. */
  method CaptureBefore(w: Workspace, group: Option<RemoteGroup>) returns (ctx: Option<ReloadContext>)
    requires w.Valid()
    ensures ctx.Some? ==> CanUndo(ctx.value, w.fs, w.fs, w.resolves) && ctx.value.snapshot.group == group
    ensures ctx.Some? ==> ctx.value.update == None
    ensures w.reliable && CanReplace(w.fs, STATE, STATE_TMP) && Replaceable(w.fs) ==> ctx.Some?
  {
    var snapshot := CaptureSnapshot(w, group);
    var artifacts := CaptureArtifacts(w);
    if snapshot == None || artifacts == None {
      return None;
    }
    return Some(ReloadContext(snapshot.value, artifacts.value, None));
  }

  lemma ReadyToGo(ctx: ReloadContext, req: ReloadRequest, before: Files, resolves: Resolver, group: Option<RemoteGroup>)
    requires CanUndo(ctx, before, before, resolves) && ctx.snapshot.group == group && ctx.update == None
    ensures !req.update ==> InFlight(ctx, req, before, before, resolves, group)
    ensures CanFinish(ctx, before)
  {
  }

  /** The synchronisation, where it is asked for. */
  method UpdateFirst(w: Workspace, req: ReloadRequest, group: Option<RemoteGroup>, ctx: ReloadContext)
    returns (ctx': Option<ReloadContext>, undone: bool)
    requires req.update && w.Valid() && CanUndo(ctx, w.fs, w.fs, w.resolves) && ctx.snapshot.group == group
    modifies w`fs
    ensures w.Valid()
    ensures ctx'.Some? ==> InFlight(ctx'.value, req, old(w.fs), w.fs, w.resolves, group) && ctx'.value.snapshot == ctx.snapshot
    ensures ctx'.None? ==> Leaves(Response("update_failed", undone), req, old(w.fs), w.fs, w.resolves, group)
    ensures w.reliable && Clear(old(w.fs), req, group) ==>
      if ctx'.Some? then CanFinish(ctx'.value, w.fs)
      else undone && UpdateMayFail(old(w.fs), req, w.resolves, w.loads, group)
  {
    hide Clear, UpdateMayFail, CanFinish, Replaceable, CanRollBack;
    hide Leaves, Recorded, BackupInPlace, DirsRolledBack, DirsStillAs, LoadedState, ArtifactsAre, FileIs;
    ghost var before := w.fs;
    var outcome := SyncForReload(w, req, group, ctx.snapshot);
    if !outcome.Updated? {
      undone := outcome == SyncFailed(false) || outcome == CheckFailed(false);
      FailedUpdateLeaves(undone, req, before, w.fs, w.resolves, group);
      return None, undone;
    }
    ctx' := Some(ctx.(update := Some(outcome.result)));
    undone := true;
    FinishableIfFree(ctx'.value, w.fs);
  }

  /** `run_remote_sync`, in the terms of the reload. */
  method SyncForReload(w: Workspace, req: ReloadRequest, group: Option<RemoteGroup>, snapshot: Snapshot)
    returns (r: UpdateOutcome)
    requires req.update && w.Valid() && snapshot.group == group && FileIs(w.fs, STATE, snapshot.stateFile)
    modifies w`fs
    ensures w.Valid() && Only(old(w.fs), w.fs, ReloadZone(group))
    ensures r.Updated? ==> r.result.requested == req.version && Recorded(old(w.fs), w.fs, w.resolves, group, r.result)
    ensures r.Updated? && r.result.changed ==> BackupInPlace(w.fs, old(w.fs), w.resolves, ManagedDirsFor(group))
    ensures r.Updated? && !r.result.changed ==> DirsStillAs(old(w.fs), w.fs, ManagedDirsFor(group))
    ensures r in {SyncFailed(false), CheckFailed(false)} ==>
      DirsRolledBack(old(w.fs), w.fs, w.resolves, ManagedDirsFor(group))
    ensures r in {SyncFailed(false), CheckFailed(false)} ==> LoadedState(w.fs) == LoadedState(old(w.fs))
    ensures w.reliable && Clear(old(w.fs), req, group) && !r.Updated? ==> r in {SyncFailed(false), CheckFailed(false)}
    ensures w.reliable && Clear(old(w.fs), req, group) && !r.Updated? ==>
      UpdateMayFail(old(w.fs), req, w.resolves, w.loads, group)
    ensures r.Updated? && Clear(old(w.fs), req, group) ==>
      CanRollBack(w.fs, ManagedDirsFor(group), r.result.changed) && Replaceable(w.fs)
  {
    hide CanReplace, CanBackUpAll, CanUpdate, CheckRefused, Replaceable, CanRestore;
    r := RunRemoteUpdateLocked(w, req.version, group, snapshot);
    Wider(old(w.fs), w.fs, UpdateZone(group), ReloadZone(group));
    if r == CheckFailed(false) {
      SameFileSameState(old(w.fs), w.fs, snapshot.stateFile);
    }
    if r.Updated? && Unhindered(old(w.fs), group) {
      StillReplaceable(old(w.fs), w.fs, group);
    }
  }

  lemma ClearMeans(fs: Files, req: ReloadRequest, group: Option<RemoteGroup>)
    ensures Clear(fs, req, group) ==> Replaceable(fs) && CanReplace(fs, STATE, STATE_TMP)
  {
  }

  lemma FinishableIfFree(ctx: ReloadContext, fs: Files)
    ensures ctx.update.None? ==> CanFinish(ctx, fs)
    ensures ctx.update.Some? && Replaceable(fs) ==>
      CanRollBack(fs, ManagedDirsFor(ctx.snapshot.group), ctx.update.value.changed) ==> CanFinish(ctx, fs)
  {
  }

  lemma StillAsBefore(before: Files, resolves: Resolver, group: Option<RemoteGroup>)
    requires WellFormed(before)
    ensures DirsRolledBack(before, before, resolves, ManagedDirsFor(group))
  {
  }

  lemma SameFileSameState(a: Files, b: Files, content: Option<Content>)
    requires FileIs(a, STATE, content) && FileIs(b, STATE, content)
    ensures LoadedState(a) == LoadedState(b)
  {
  }

  // ---- the handler ----

  /**
   `handle_reload`: the gate, the request's checks, the flag, the file lock and the locked part.
   There is a `refusal` for a request that is turned away before the flag is raised, and `pending`
   work for the monitor if the response goes out before the reload has ended.
   */
  method HandleReload(state: AppState, w: Workspace, env: Surroundings, id: string, body: Option<ReloadRequest>, now: int)
    returns (refusal: Option<string>, r: Response, pending: Option<ReloadContext>)
    requires w.Valid()
    modifies state, w`fs
    ensures w.Valid() && state.gateHeld == old(state.gateHeld)
    ensures refusal == None <==> !old(state.gateHeld) && MayStart(env, body) && !old(state.reloading)
    ensures old(state.gateHeld) ==> refusal == Some("reload_in_progress")
    ensures refusal.Some? ==> w.fs == old(w.fs) && state.Seen() == old(state.Seen()) && pending.None?
    ensures refusal.Some? ==> state.lastReloadRequestId == old(state.lastReloadRequestId)
    ensures refusal.None? && pending.None? ==> state.OnRecord(id, r.result)
    ensures refusal.None? && pending.None? ==>
      Leaves(r, body.value, old(w.fs), w.fs, w.resolves, RequestedGroup(body.value).value)
    ensures pending.Some? ==> state.Seen() == Started(id) && r.result == "running"
    ensures pending.Some? ==>
      InFlight(pending.value, body.value, old(w.fs), w.fs, w.resolves, RequestedGroup(body.value).value)
    ensures refusal.None? ==> (r.result == "update_in_progress" <==> !env.locked)
    ensures pending.Some? ==> env.loads(w.fs) && !env.waits
    ensures refusal.None? && pending.None? && env.locked && !env.waits ==> r.result in {"update_failed", "reload_failed"}
    ensures refusal.None? && pending.None? && env.locked && r.result != "update_failed" ==>
      EndsAs(r.result, env, body.value, old(w.fs), w.resolves, RequestedGroup(body.value).value)
    ensures refusal.None? && w.reliable && Clear(old(w.fs), body.value, RequestedGroup(body.value).value) ==>
      r.undone && (r.result == "update_failed" ==>
        UpdateMayFail(old(w.fs), body.value, w.resolves, w.loads, RequestedGroup(body.value).value))
  {
    hide Leaves, InFlight, EndsAs, Clear, UpdateMayFail;
    r, pending := Response("", true), None;
    if state.gateHeld {
      return Some("reload_in_progress"), r, None;
    }
    state.gateHeld := true;
    refusal := CheckRequest(state, env, body);
    if refusal == None {
      state.MarkReloadStarted(id, now);
      if !env.locked {
        state.MarkReloadFinished(id, "update_in_progress", now);
        NotLocked(w.fs, body.value, w.resolves, RequestedGroup(body.value).value);
        r := Response("update_in_progress", true);
      } else {
        r, pending := ReloadLocked(state, w, env, id, body.value, RequestedGroup(body.value).value, now);
      }
    }
    state.gateHeld := false;
  }

  /** A readable and well-posed request, and one for an update only where it can be made. */
  predicate MayAsk(env: Surroundings, body: Option<ReloadRequest>) {
    body.Some? && WellPosed(body.value) && (body.value.update ==> env.configured && env.fits)
  }

  predicate MayStart(env: Surroundings, body: Option<ReloadRequest>) {
    MayAsk(env, body) && !env.cancelled
  }

  lemma NotLocked(fs: Files, req: ReloadRequest, resolves: Resolver, group: Option<RemoteGroup>)
    ensures Leaves(Response("update_in_progress", true), req, fs, fs, resolves, group)
  {
  }

  /** The checks between the gate and the flag; `None` when the reload may start. */
  method CheckRequest(state: AppState, env: Surroundings, body: Option<ReloadRequest>) returns (refusal: Option<string>)
    ensures refusal == None <==> MayStart(env, body) && !state.reloading
    ensures refusal == Some("reload_in_progress") <==> MayStart(env, body) && state.reloading
    ensures refusal == Some("runtime_not_ready") <==> MayAsk(env, body) && env.cancelled
    ensures refusal == Some("payload_too_large") <==> body == None && env.tooLarge
    ensures refusal == Some("update_failed") <==>
      body.Some? && WellPosed(body.value) && body.value.update && !env.configured
    ensures refusal == Some("invalid_request") <==> match body {
      case None => !env.tooLarge
      case Some(req) => !WellPosed(req) || (req.update && env.configured && !env.fits) }
  {
    if body == None {
      return Some(if env.tooLarge then "payload_too_large" else "invalid_request");
    }
    var req := body.value;
    if !req.update && req.version.Some? {
      return Some("invalid_request");
    }
    if !req.update && req.group.Some? && req.group.value != "" {
      return Some("invalid_request");
    }
    if RequestedGroup(req) == None {
      return Some("invalid_request");
    }
    if req.update {
      if !env.configured {
        return Some("update_failed");
      }
      if !env.fits {
        return Some("invalid_request");
      }
    }
    if env.cancelled {
      return Some("runtime_not_ready");
    }
    if state.reloading {
      return Some("reload_in_progress");
    }
    return None;
  }
}
