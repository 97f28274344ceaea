/** The version-state file: its JSON form, how it is replaced, and how it is put back. */
module RemoteState {
  import opened Wrappers
  import opened FileTree
  import opened ManagedDirs

  const STATE: Path := [".run", "project_remote_state.json"]
  /** `with_extension(".tmp")` keeps the dot of the argument, so the name has two. */
  const STATE_TMP: Path := [".run", "project_remote_state..tmp"]

  datatype GroupState = GroupState(version: string, tag: string, revision: string)

  datatype ProjectState =
    | Single(version: string, tag: string, revision: string)
    | Dual(models: Option<GroupState>, infra: Option<GroupState>)

  // ---- the JSON form ----

  function EncodeGroup(g: Option<GroupState>): Json {
    match g
    case None => JNull
    case Some(s) => JObject(map["version" := JString(s.version), "tag" := JString(s.tag), "revision" := JString(s.revision)])
  }

  function EncodeState(s: ProjectState): Json {
    match s
    case Single(version, tag, revision) =>
      JObject(map["current_version" := JString(version), "resolved_tag" := JString(tag), "revision" := JString(revision)])
    case Dual(models, infra) =>
      JObject(map["models" := EncodeGroup(models), "infra" := EncodeGroup(infra)])
  }

  predicate HasString(members: map<string, Json>, key: string) {
    key in members && members[key].JString?
  }

  /** A member of the dual form: missing and null both mean "no entry"; `None` is a parse error. */
  function ParseGroup(members: map<string, Json>, key: string): Option<Option<GroupState>> {
    if key !in members || members[key].JNull? then Some(None)
    else if members[key].JObject? then
      var g := members[key].members;
      if HasString(g, "version") && HasString(g, "tag") && HasString(g, "revision") then
        Some(Some(GroupState(g["version"].s, g["tag"].s, g["revision"].s)))
      else None
    else None
  }

  /** The untagged union: the single form is tried first, then the dual form. */
  function ParseState(j: Json): Option<ProjectState> {
    if !j.JObject? then None
    else
      var m := j.members;
      if HasString(m, "current_version") && HasString(m, "resolved_tag") && HasString(m, "revision") then
        Some(Single(m["current_version"].s, m["resolved_tag"].s, m["revision"].s))
      else
        match (ParseGroup(m, "models"), ParseGroup(m, "infra"))
        case (Some(models), Some(infra)) => Some(Dual(models, infra))
        case _ => None
  }

  /** No state is read back as another one, and neither form is mistaken for the other. */
  lemma StateRoundTrip(s: ProjectState)
    ensures ParseState(EncodeState(s)) == Some(s)
  {
    match s
    case Single(_, _, _) =>
    case Dual(models, infra) =>
      var m := EncodeState(s).members;
      assert "current_version" !in m;
      assert m["models"] == EncodeGroup(models) && m["infra"] == EncodeGroup(infra);
  }

  function ParseContent(content: Content): Option<ProjectState> {
    if content.Document? then ParseState(content.value) else None
  }

  // ---- reading and writing the file ----

  datatype Loaded = NoState | HasState(state: ProjectState) | Unreadable

  ghost function LoadedState(fs: Files): Loaded {
    if STATE !in fs then NoState
    else if fs[STATE].File? && ParseContent(fs[STATE].content).Some? then
      HasState(ParseContent(fs[STATE].content).value)
    else Unreadable
  }

  ghost predicate FileIs(fs: Files, p: Path, content: Option<Content>) {
    match content
    case None => p !in fs
    case Some(c) => p in fs && fs[p].File? && fs[p].content == c
  }

  /** A file in the runtime area and the name it is written under first. */
  ghost predicate RunFile(p: Path, tmp: Path) {
    |p| == |tmp| == 2 && p[0] == tmp[0] == ".run" && p[1] != tmp[1]
  }

  ghost function FileZone(p: Path, tmp: Path): iset<Path> {
    Below(p) + Below(tmp) + iset{RUN}
  }

  ghost function StateZone(): iset<Path> {
    FileZone(STATE, STATE_TMP)
  }

  /** `load_state`: no file is not an error, a file that does not parse is. */
  method LoadState(w: Workspace) returns (r: Option<Option<ProjectState>>)
    requires w.Valid()
    ensures r == Some(None) ==> LoadedState(w.fs) == NoState
    ensures r.Some? && r.value.Some? ==> LoadedState(w.fs) == HasState(r.value.value)
    ensures w.reliable && LoadedState(w.fs) != Unreadable ==> r.Some?
  {
    var read := w.ReadFile(STATE);
    match read
    case Missing => return Some(None);
    case Failed => return None;
    case Found(content) =>
      var parsed := ParseContent(content);
      return if parsed.Some? then Some(parsed) else None;
  }

  /** The runtime area is a directory or can become one, and files can stand at both names. */
  ghost predicate CanReplace(fs: Files, p: Path, tmp: Path) {
    && (RUN in fs ==> fs[RUN].Dir?)
    && (p in fs ==> fs[p].File?) && (tmp in fs ==> fs[tmp].File?)
  }

  lemma OnTheWayToRun(fs: Files)
    requires WellFormed(fs)
    ensures (RUN in fs ==> fs[RUN].Dir?) ==> DirsOnTheWay(fs, RUN)
  {
    forall q | q <= RUN && q in fs ensures q == [] || q == RUN {
    }
  }

  /** `atomic_write_file`: the file has the new content or is exactly what it was. */
  method AtomicWriteFile(w: Workspace, p: Path, tmp: Path, content: Content) returns (ok: bool)
    requires w.Valid() && RunFile(p, tmp)
    modifies w`fs
    ensures w.Valid() && Only(old(w.fs), w.fs, FileZone(p, tmp))
    ensures ok ==> FileIs(w.fs, p, Some(content))
    ensures !ok ==> Agree(old(w.fs), w.fs, p)
    ensures w.reliable && CanReplace(old(w.fs), p, tmp) ==> ok
    ensures ok ==> CanReplace(w.fs, p, tmp)
  {
    assert Parent(p) == RUN == Parent(tmp);
    OnTheWayToRun(w.fs);
    ok := w.CreateDirAll(RUN);
    forall q
      ensures q in FileZone(p, tmp) || Agree(old(w.fs), w.fs, q)
    {
      assert q <= RUN ==> q == [] || q == RUN;
    }
    if !ok {
      return;
    }
    ghost var made := w.fs;
    assert Agree(old(w.fs), made, p) && Agree(old(w.fs), made, tmp);
    ok := w.WriteFile(tmp, content);
    assert p !in Below(tmp);
    assert Agree(made, w.fs, p) && Agree(made, w.fs, RUN);
    if !ok {
      return;
    }
    ok := w.RenameFile(tmp, p);
    if ok {
      AncestorsAreDirs(w.fs, p, RUN);
    } else {
      ghost var failed := w.fs;
      var removed := w.RemoveFile(tmp);
      assert Agree(failed, w.fs, p);
    }
  }

  /** `restore_optional_file`. */
  method RestoreOptionalFile(w: Workspace, p: Path, tmp: Path, content: Option<Content>) returns (ok: bool)
    requires w.Valid() && RunFile(p, tmp)
    modifies w`fs
    ensures w.Valid() && Only(old(w.fs), w.fs, FileZone(p, tmp))
    ensures ok ==> FileIs(w.fs, p, content)
    ensures w.reliable && CanReplace(old(w.fs), p, tmp) ==> ok
    ensures ok && CanReplace(old(w.fs), p, tmp) ==> CanReplace(w.fs, p, tmp)
  {
    match content
    case Some(c) =>
      ok := AtomicWriteFile(w, p, tmp, c);
    case None =>
      if p in w.fs {
        ok := w.RemoveFile(p);
        assert ok ==> At(w.fs, p, []) == None;
        assert p + [] == p;
        assert Agree(old(w.fs), w.fs, RUN) && Agree(old(w.fs), w.fs, tmp);
      } else {
        ok := true;
      }
  }

  /** `read_optional_file`: `None` where the file cannot be read. */
  method ReadOptionalFile(w: Workspace, p: Path) returns (r: Option<Option<Content>>)
    ensures r.Some? ==> FileIs(w.fs, p, r.value)
    ensures w.reliable && (p in w.fs ==> w.fs[p].File?) ==> r.Some?
  {
    var read := w.ReadFile(p);
    match read
    case Found(content) => return Some(Some(content));
    case Missing => return Some(None);
    case Failed => return None;
  }

  /** `restore_state_file_bytes`. */
  method RestoreStateFile(w: Workspace, content: Option<Content>) returns (ok: bool)
    requires w.Valid()
    modifies w`fs
    ensures w.Valid() && Only(old(w.fs), w.fs, StateZone())
    ensures ok ==> FileIs(w.fs, STATE, content)
    ensures w.reliable && CanReplace(old(w.fs), STATE, STATE_TMP) ==> ok
    ensures ok && CanReplace(old(w.fs), STATE, STATE_TMP) ==> CanReplace(w.fs, STATE, STATE_TMP)
  {
    assert STATE[1] != STATE_TMP[1];
    ok := RestoreOptionalFile(w, STATE, STATE_TMP, content);
  }

  /** `restore_project_remote_state`: the parsed state is written out again. */
  method RestoreParsedState(w: Workspace, state: Option<ProjectState>) returns (ok: bool)
    requires w.Valid()
    modifies w`fs
    ensures w.Valid() && Only(old(w.fs), w.fs, StateZone())
    ensures ok ==> LoadedState(w.fs) == if state.Some? then HasState(state.value) else NoState
    ensures w.reliable && CanReplace(old(w.fs), STATE, STATE_TMP) ==> ok
  {
    match state
    case Some(s) =>
      StateRoundTrip(s);
      ok := RestoreStateFile(w, Some(Document(EncodeState(s), PRETTY)));
    case None =>
      ok := RestoreStateFile(w, None);
  }

  // ---- recording an update ----

  datatype UpdateResult = UpdateResult(
    requested: Option<string>, version: string, tag: string,
    fromRevision: Option<string>, toRevision: string, changed: bool, group: Option<RemoteGroup>)

  /** The state after an update, or `None` where the program refuses to record it. */
  function NextState(previous: Option<ProjectState>, group: Option<RemoteGroup>, result: UpdateResult): Option<ProjectState> {
    var entry := GroupState(result.version, result.tag, result.toRevision);
    match group
    case None =>
      if previous.Some? && previous.value.Dual? then None
      else Some(Single(result.version, result.tag, result.toRevision))
    case Some(Models) =>
      Some(Dual(Some(entry), if previous.Some? && previous.value.Dual? then previous.value.infra else None))
    case Some(Infra) =>
      Some(Dual(if previous.Some? && previous.value.Dual? then previous.value.models else None, Some(entry)))
  }

  ghost function EntryFor(state: ProjectState, group: Option<RemoteGroup>): Option<GroupState> {
    match (state, group)
    case (Single(v, t, r), None) => Some(GroupState(v, t, r))
    case (Dual(m, _), Some(Models)) => m
    case (Dual(_, i), Some(Infra)) => i
    case _ => None
  }

  /** The recorded state names the resolved revision, and the other group keeps its entry. */
  lemma NextStateRecords(previous: Option<ProjectState>, group: Option<RemoteGroup>, result: UpdateResult)
    ensures NextState(previous, group, result) == None <==> group == None && previous.Some? && previous.value.Dual?
    ensures var next := NextState(previous, group, result);
      next.Some? ==>
        && EntryFor(next.value, group) == Some(GroupState(result.version, result.tag, result.toRevision))
        && forall other | other != group && previous.Some? && previous.value.Dual? ::
             EntryFor(next.value, other) == EntryFor(previous.value, other)
  {
    forall other | other != group && previous.Some? && previous.value.Dual? && NextState(previous, group, result).Some?
      ensures EntryFor(NextState(previous, group, result).value, other) == EntryFor(previous.value, other)
    {
      match other
      case None =>
      case Some(Models) =>
      case Some(Infra) =>
    }
  }

  ghost function KnownState(fs: Files): Option<ProjectState> {
    match LoadedState(fs)
    case HasState(s) => Some(s)
    case _ => None
  }

  /** The state file can be read and replaced, and holds no dual state that a single update would overwrite. */
  ghost predicate CanRecord(fs: Files, group: Option<RemoteGroup>) {
    && CanReplace(fs, STATE, STATE_TMP) && LoadedState(fs) != Unreadable
    && !(group == None && KnownState(fs).Some? && KnownState(fs).value.Dual?)
  }

  /** `persist_state` and `persist_group_state`. */
  method PersistState(w: Workspace, group: Option<RemoteGroup>, result: UpdateResult) returns (ok: bool)
    requires w.Valid()
    modifies w`fs
    ensures w.Valid() && Only(old(w.fs), w.fs, StateZone())
    ensures ok ==> NextState(KnownState(old(w.fs)), group, result).Some?
    ensures ok ==> LoadedState(w.fs) == HasState(NextState(KnownState(old(w.fs)), group, result).value)
    ensures !ok ==> Agree(old(w.fs), w.fs, STATE)
    ensures w.reliable && CanRecord(old(w.fs), group) ==> ok
    ensures ok ==> CanReplace(w.fs, STATE, STATE_TMP)
    ensures w.reliable && CanReplace(old(w.fs), STATE, STATE_TMP) ==> CanReplace(w.fs, STATE, STATE_TMP)
  {
    var loaded := LoadState(w);
    if loaded == None {
      return false;
    }
    var next := NextState(loaded.value, group, result);
    if next == None {
      return false;
    }
    StateRoundTrip(next.value);
    ok := AtomicWriteFile(w, STATE, STATE_TMP, Document(EncodeState(next.value), PRETTY));
  }
}
