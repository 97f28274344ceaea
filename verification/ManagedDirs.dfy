/**
 The managed directories of a work root: comparing them with a checkout, backing them up,
 replacing them and putting them back.
 */
module ManagedDirs {
  import opened Wrappers
  import opened FileTree
  import opened TreeCompare
  import opened TreeCopy

  datatype RemoteGroup = Models | Infra

  const RUN: Path := [".run"]
  const REMOTE_AREA: Path := [".run", "project_remote"]
  const BACKUP: Path := [".run", "project_remote", "backup"]
  const MANIFEST: Path := [".run", "project_remote", "backup", "manifest.json"]

  const DIRS_MODELS: seq<Name> := ["models"]
  const DIRS_INFRA: seq<Name> := ["conf", "topology", "connectors"]
  const DIRS_ALL: seq<Name> := ["conf", "models", "topology", "connectors"]

  function ManagedDirsFor(group: Option<RemoteGroup>): (dirs: seq<Name>)
    ensures Scope(dirs)
  {
    match group
    case Some(Models) => DIRS_MODELS
    case Some(Infra) => DIRS_INFRA
    case None => DIRS_ALL
  }

  /** The two groups divide the managed directories between them. */
  lemma GroupsDivideTheDirs(d: Name)
    ensures d in ManagedDirsFor(None) <==> d in ManagedDirsFor(Some(Models)) || d in ManagedDirsFor(Some(Infra))
    ensures !(d in ManagedDirsFor(Some(Models)) && d in ManagedDirsFor(Some(Infra)))
    ensures d in ManagedDirsFor(Some(Models)) <==> d == "models"
    ensures |ManagedDirsFor(None)| == |ManagedDirsFor(Some(Models))| + |ManagedDirsFor(Some(Infra))| == 4
  {
  }

  /** A list of managed directory names: no repeats, and never the runtime area. */
  ghost predicate Scope(dirs: seq<Name>) {
    && (forall i, j :: 0 <= i < j < |dirs| ==> dirs[i] != dirs[j])
    && ".run" !in dirs && "manifest.json" !in dirs
  }

  ghost predicate InDirs(dirs: seq<Name>, p: Path) {
    p != [] && p[0] in dirs
  }

  ghost function DirsZone(dirs: seq<Name>): iset<Path> {
    iset p: Path | InDirs(dirs, p)
  }

  ghost function BackupZone(): iset<Path> {
    Below(BACKUP) + iset{RUN, REMOTE_AREA}
  }

  // ---- the backup manifest ----

  function EncodeManifest(saved: seq<Name>): Json {
    JObject(map["existing_dirs" := JArray(seq(|saved|, i requires 0 <= i < |saved| => JString(saved[i])))])
  }

  function ParseManifest(content: Content): (r: Option<seq<Name>>) {
    if content.Document? && content.value.JObject? && "existing_dirs" in content.value.members then
      var listed := content.value.members["existing_dirs"];
      if listed.JArray? && forall i :: 0 <= i < |listed.items| ==> listed.items[i].JString? then
        Some(seq(|listed.items|, i requires 0 <= i < |listed.items| => listed.items[i].s))
      else
        None
    else
      None
  }

  lemma ManifestRoundTrip(saved: seq<Name>, layout: nat)
    ensures ParseManifest(Document(EncodeManifest(saved), layout)) == Some(saved)
  {
    var parsed := ParseManifest(Document(EncodeManifest(saved), layout));
    assert parsed.Some? && parsed.value == saved;
  }

  // ---- what the operations achieve ----

  /** The directories a backup lists: those of `dirs` that exist, links followed. */
  ghost function ExistingDirs(fs: Files, resolves: Resolver, dirs: seq<Name>): seq<Name> {
    if dirs == [] then []
    else (if Exists(fs, resolves, [dirs[0]]) then [dirs[0]] else []) + ExistingDirs(fs, resolves, dirs[1..])
  }

  lemma {:induction false} ExistingDirsListed(fs: Files, resolves: Resolver, dirs: seq<Name>)
    ensures forall d :: d in ExistingDirs(fs, resolves, dirs) <==> d in dirs && Exists(fs, resolves, [d])
  {
    if dirs != [] {
      ExistingDirsListed(fs, resolves, dirs[1..]);
      assert forall d :: d in dirs <==> d == dirs[0] || d in dirs[1..];
    }
  }

  /** `fs` holds a backup of the directories `saved` of `orig`. */
  ghost predicate HasBackup(fs: Files, orig: Files, saved: seq<Name>) {
    && MANIFEST in fs && fs[MANIFEST].File?
    && ParseManifest(fs[MANIFEST].content) == Some(saved)
    && forall d | d in saved :: SameTree(fs, BACKUP + [d], orig, [d])
  }

  /** `fs` has the directories `dirs` as the backup held in `orig` lists them. */
  ghost predicate Restored(fs: Files, orig: Files, dirs: seq<Name>, saved: seq<Name>) {
    forall d | d in dirs ::
      if d in saved then SameTree(fs, [d], orig, BACKUP + [d]) else Absent(fs, [d])
  }

  ghost predicate DirsUnchanged(a: Files, b: Files, dirs: seq<Name>) {
    forall p | InDirs(dirs, p) :: Agree(a, b, p)
  }

  ghost predicate DanglingRoot(fs: Files, resolves: Resolver, d: Name) {
    [d] in fs && !Exists(fs, resolves, [d])
  }

  // ---- the operations ----

  method ManagedDirsDiffer(w: Workspace, remote: Path, dirs: seq<Name>) returns (r: Option<bool>)
    requires w.Valid()
    ensures r == Some(false) ==> forall d | d in dirs :: SameView(w.fs, w.resolves, remote + [d], [d])
    ensures r == Some(true) ==> exists d | d in dirs :: !SameView(w.fs, w.resolves, remote + [d], [d])
    ensures w.reliable && (forall d | d in dirs :: Ordinary(w.fs, remote + [d])) ==> r.Some?
  {
    for i := 0 to |dirs|
      invariant forall j | 0 <= j < i :: SameView(w.fs, w.resolves, remote + [dirs[j]], [dirs[j]])
    {
      var same := PathsEqual(w, remote + [dirs[i]], [dirs[i]]);
      if same == None {
        return None;
      }
      if !same.value {
        return Some(true);
      }
    }
    return Some(false);
  }

  lemma BackupPrefixes(q: Path)
    requires q <= BACKUP
    ensures q == [] || q == RUN || q == REMOTE_AREA || q == BACKUP
  {
    assert q == BACKUP[..|q|];
    match |q|
    case 0 =>
    case 1 => assert q == RUN;
    case 2 => assert q == REMOTE_AREA;
    case _ => assert q == BACKUP;
  }

  lemma AreaStillClear(a: Files, b: Files)
    requires DirsOnTheWay(a, REMOTE_AREA) && Only(a, b, Below(BACKUP)) && Absent(b, BACKUP)
    ensures DirsOnTheWay(b, BACKUP)
  {
    assert BACKUP + [] == BACKUP && At(b, BACKUP, []) == None;
    forall q | q <= BACKUP && q in b ensures b[q].Dir? {
      BackupPrefixes(q);
      assert q != BACKUP && Agree(a, b, q);
    }
  }

  method MakeBackupRoot(w: Workspace) returns (ok: bool)
    requires w.Valid()
    modifies w`fs
    ensures w.Valid() && Only(old(w.fs), w.fs, BackupZone())
    ensures ok ==> BACKUP in w.fs && w.fs[BACKUP].Dir?
    ensures ok ==> forall d :: Absent(w.fs, BACKUP + [d])
    ensures w.reliable && DirsOnTheWay(old(w.fs), REMOTE_AREA) ==> ok
  {
    ok := RemovePath(w, BACKUP);
    if !ok {
      return;
    }
    ghost var cleared := w.fs;
    if DirsOnTheWay(old(w.fs), REMOTE_AREA) {
      AreaStillClear(old(w.fs), cleared);
    }
    ok := w.CreateDirAll(BACKUP);
    forall q
      ensures q in BackupZone() || Agree(cleared, w.fs, q)
    {
      if q <= BACKUP {
        BackupPrefixes(q);
      }
    }
    forall d
      ensures Absent(w.fs, BACKUP + [d])
    {
      assert At(cleared, BACKUP, [d]) == None;
      assert Agree(cleared, w.fs, BACKUP + [d]);
      MissingIsAbsent(w.fs, BACKUP + [d]);
    }
  }

  /** The copies made so far by `backup_managed_dirs`, with nothing yet for the names in `left`. */
  ghost predicate SavedSoFar(fs: Files, orig: Files, saved: seq<Name>, left: seq<Name>) {
    && BACKUP in fs && fs[BACKUP].Dir? && MANIFEST !in fs
    && (forall d | d in saved :: SameTree(fs, BACKUP + [d], orig, [d]))
    && (forall d | d in left :: Absent(fs, BACKUP + [d]))
  }

  lemma CanBackUp(orig: Files, fs: Files, d: Name)
    requires WellFormed(fs) && Only(orig, fs, BackupZone()) && d != ".run"
    requires BACKUP in fs && fs[BACKUP].Dir? && Absent(fs, BACKUP + [d])
    ensures [d] in orig && Ordinary(orig, [d]) ==> CanCopy(fs, [d], BACKUP + [d])
  {
    if [d] in orig && Ordinary(orig, [d]) {
      forall rel ensures At(fs, [d], rel) == At(orig, [d], rel) {
        assert ([d] + rel)[0] == d;
        assert Agree(orig, fs, [d] + rel);
      }
      assert [d] + [] == [d] && At(fs, [d], []) == At(orig, [d], []);
      assert BACKUP + [d] + [] == BACKUP + [d] && At(fs, BACKUP + [d], []) == None;
      assert Parent(BACKUP + [d]) == BACKUP;
      DirsAbove(fs, BACKUP + [d]);
    }
  }

  method BackupOne(w: Workspace, d: Name, ghost orig: Files, ghost saved: seq<Name>, ghost left: seq<Name>)
    returns (ok: bool)
    requires w.Valid() && d !in saved && d !in left && d != ".run" && d != "manifest.json"
    requires Only(orig, w.fs, BackupZone()) && SavedSoFar(w.fs, orig, saved, [d] + left)
    modifies w`fs
    ensures w.Valid() && Only(orig, w.fs, BackupZone())
    ensures ok ==> SavedSoFar(w.fs, orig, saved + [d], left)
    ensures w.reliable && [d] in orig && Ordinary(orig, [d]) ==> ok
  {
    var src, dst := [d], BACKUP + [d];
    assert Parent(dst) == BACKUP;
    assert Absent(w.fs, dst);
    assert src[0] != BACKUP[0];
    assert MANIFEST !in Below(dst) by {
      assert dst[3] != MANIFEST[3];
    }
    assert Agree(old(w.fs), old(w.fs), dst);
    CanBackUp(orig, w.fs, d);
    MirrorsMeet(w.fs, src, dst);
    ok := CopyPath(w, src, dst);
    CopyLands(old(w.fs), src, w.fs, dst, ok);
    forall e | e in saved + left
      ensures SameTree(w.fs, BACKUP + [e], old(w.fs), BACKUP + [e])
    {
      assert (BACKUP + [e])[3] == e && dst[3] == d;
      ApartUnchanged(old(w.fs), w.fs, dst, BACKUP + [e]);
    }
    assert BACKUP !in Below(dst);
    assert forall q :: q in Below(dst) ==> q in BackupZone();
    assert forall q :: src <= q ==> q !in BackupZone();
    if ok {
      AgreeBelowIsSameTree(orig, old(w.fs), src);
    }
  }

  lemma ScopeAt(dirs: seq<Name>, i: nat)
    requires Scope(dirs) && i < |dirs|
    ensures dirs[i] !in dirs[..i] && dirs[i] !in dirs[i + 1..] && dirs[i] in dirs && dirs[i] != ".run"
    ensures dirs[i..] == [dirs[i]] + dirs[i + 1..] && dirs[..i + 1] == dirs[..i] + [dirs[i]]
  {
  }

  /** There is room for the backup area, and the directories hold nothing that cannot be copied. */
  ghost predicate CanBackUpAll(fs: Files, dirs: seq<Name>) {
    DirsOnTheWay(fs, REMOTE_AREA) && forall d | d in dirs :: Ordinary(fs, [d])
  }

  method BackupManagedDirs(w: Workspace, dirs: seq<Name>) returns (ok: bool)
    requires w.Valid() && Scope(dirs)
    modifies w`fs
    ensures w.Valid() && Only(old(w.fs), w.fs, BackupZone())
    ensures ok ==> HasBackup(w.fs, old(w.fs), ExistingDirs(old(w.fs), w.resolves, dirs))
    ensures w.reliable && CanBackUpAll(old(w.fs), dirs) ==> ok
  {
    ghost var orig := w.fs;
    ok := MakeBackupRoot(w);
    if !ok {
      return;
    }
    assert MANIFEST !in w.fs by {
      assert BACKUP + ["manifest.json"] == MANIFEST && MANIFEST + [] == MANIFEST;
      assert At(w.fs, BACKUP + ["manifest.json"], []) == None;
    }
    var saved: seq<Name>;
    ok, saved := BackupEach(w, dirs, orig);
    if ok {
      ExistingDirsListed(orig, w.resolves, dirs);
      ok := WriteManifest(w, saved, orig);
    }
  }

  lemma OutsideTheBackup(a: Files, b: Files, d: Name)
    requires Only(a, b, BackupZone()) && d != ".run"
    ensures Agree(a, b, [d])
  {
    assert [d][0] != RUN[0];
  }

  /** `saved` is the list for the directories `done`, and their copies are made. */
  ghost predicate SavedUpTo(fs: Files, orig: Files, resolves: Resolver, done: seq<Name>, left: seq<Name>, saved: seq<Name>)
  {
    && SavedSoFar(fs, orig, saved, left)
    && (forall d | d in saved :: d in done)
    && saved + ExistingDirs(orig, resolves, left) == ExistingDirs(orig, resolves, done + left)
  }

  /** The next directory is settled: it has its copy if it is there, and none is due otherwise. */
  lemma SavedOneMore(fs: Files, after: Files, orig: Files, resolves: Resolver,
                     done: seq<Name>, d: Name, left: seq<Name>, saved: seq<Name>)
    requires SavedUpTo(fs, orig, resolves, done, [d] + left, saved)
    requires if Exists(orig, resolves, [d]) then SavedSoFar(after, orig, saved + [d], left) else after == fs
    ensures SavedUpTo(after, orig, resolves, done + [d], left,
                      if Exists(orig, resolves, [d]) then saved + [d] else saved)
  {
    hide SameTree, Absent, Exists;
    assert done + ([d] + left) == done + [d] + left && ([d] + left)[1..] == left;
    var rest := ExistingDirs(orig, resolves, left);
    if Exists(orig, resolves, [d]) {
      assert saved + ([d] + rest) == saved + [d] + rest;
    } else {
      assert [] + rest == rest;
    }
  }

  method BackupNext(w: Workspace, ghost done: seq<Name>, d: Name, ghost left: seq<Name>, saved: seq<Name>,
                    ghost orig: Files)
    returns (ok: bool, saved': seq<Name>)
    requires w.Valid() && d !in done && d !in left && d != ".run" && d != "manifest.json"
    requires Only(orig, w.fs, BackupZone()) && SavedUpTo(w.fs, orig, w.resolves, done, [d] + left, saved)
    modifies w`fs
    ensures w.Valid() && Only(orig, w.fs, BackupZone())
    ensures ok ==> SavedUpTo(w.fs, orig, w.resolves, done + [d], left, saved')
    ensures w.reliable && Ordinary(orig, [d]) ==> ok
  {
    ok, saved' := true, saved;
    OutsideTheBackup(orig, w.fs, d);
    hide Only, SavedSoFar, ExistingDirs;
    if Exists(w.fs, w.resolves, [d]) {
      ok := BackupOne(w, d, orig, saved, left);
      saved' := saved + [d];
    }
    if ok {
      SavedOneMore(old(w.fs), w.fs, orig, w.resolves, done, d, left, saved);
    }
  }

  method BackupEach(w: Workspace, dirs: seq<Name>, ghost orig: Files) returns (ok: bool, saved: seq<Name>)
    requires w.Valid() && Scope(dirs)
    requires Only(orig, w.fs, BackupZone()) && BACKUP in w.fs && w.fs[BACKUP].Dir? && MANIFEST !in w.fs
    requires forall d :: Absent(w.fs, BACKUP + [d])
    modifies w`fs
    ensures w.Valid() && Only(orig, w.fs, BackupZone())
    ensures ok ==> saved == ExistingDirs(orig, w.resolves, dirs)
    ensures ok ==> SavedSoFar(w.fs, orig, saved, [])
    ensures w.reliable && (forall d | d in dirs :: Ordinary(orig, [d])) ==> ok
  {
    saved := [];
    assert dirs[0..] == dirs == [] + dirs;
    for i := 0 to |dirs|
      invariant w.Valid() && Only(orig, w.fs, BackupZone())
      invariant SavedUpTo(w.fs, orig, w.resolves, dirs[..i], dirs[i..], saved)
    {
      ScopeAt(dirs, i);
      ok, saved := BackupNext(w, dirs[..i], dirs[i], dirs[i + 1..], saved, orig);
      if !ok {
        return;
      }
    }
    assert dirs[..|dirs|] + dirs[|dirs|..] == dirs && dirs[|dirs|..] == [];
    ok := true;
  }

  method WriteManifest(w: Workspace, saved: seq<Name>, ghost orig: Files) returns (ok: bool)
    requires w.Valid() && "manifest.json" !in saved
    requires Only(orig, w.fs, BackupZone()) && SavedSoFar(w.fs, orig, saved, [])
    modifies w`fs
    ensures w.Valid() && Only(orig, w.fs, BackupZone())
    ensures ok ==> HasBackup(w.fs, orig, saved)
    ensures w.reliable ==> ok
  {
    assert Parent(MANIFEST) == BACKUP;
    ok := w.WriteFile(MANIFEST, Document(EncodeManifest(saved), PRETTY));
    ManifestRoundTrip(saved, PRETTY);
    forall d | d in saved
      ensures SameTree(w.fs, BACKUP + [d], old(w.fs), BACKUP + [d])
    {
      assert (BACKUP + [d])[3] == d && MANIFEST[3] == "manifest.json";
      ApartUnchanged(old(w.fs), w.fs, MANIFEST, BACKUP + [d]);
    }
    assert forall q :: q in Below(MANIFEST) ==> q in BackupZone();
  }

  // ---- replacing and restoring ----

  /** A directory outside the managed ones keeps its tree while managed ones change. */
  lemma OutsideTheDirs(a: Files, b: Files, dirs: seq<Name>, p: Path)
    requires Only(a, b, DirsZone(dirs)) && p != [] && p[0] !in dirs
    ensures SameTree(b, p, a, p)
  {
    forall rel
      ensures At(b, p, rel) == At(a, p, rel)
    {
      assert (p + rel)[0] == p[0];
      assert Agree(a, b, p + rel);
    }
  }

  lemma OneDirAtATime(a: Files, b: Files, c: Files, dirs: seq<Name>, d: Name)
    requires Only(a, b, DirsZone(dirs)) && Only(b, c, Below([d])) && d in dirs
    ensures Only(a, c, DirsZone(dirs))
    ensures forall e | e != d :: SameTree(c, [e], b, [e])
  {
    forall p | p !in DirsZone(dirs)
      ensures Agree(a, c, p)
    {
      assert p == [] || p[0] != d;
      assert p !in Below([d]);
      assert Agree(a, b, p) && Agree(b, c, p);
    }
    forall e | e != d
      ensures SameTree(c, [e], b, [e])
    {
      assert [d][0] != [e][0];
      ApartUnchanged(b, c, [d], [e]);
    }
  }

  /** What `sync_managed_dirs` has done for one directory. */
  ghost predicate DirReplaced(fs: Files, orig: Files, resolves: Resolver, remote: Path, d: Name) {
    if Exists(orig, resolves, remote + [d]) then SameTree(fs, [d], orig, remote + [d]) else Absent(fs, [d])
  }

  /** A root that is cleared away can take a copy. */
  lemma CanPlace(orig: Files, fs: Files, src: Path, dst: Path)
    requires WellFormed(fs) && src in fs && SameTree(fs, src, orig, src) && Ordinary(orig, src)
    requires |dst| == 1 && Absent(fs, dst)
    ensures CanCopy(fs, src, dst)
  {
    forall rel ensures At(fs, src, rel) != Some(Special) {
      assert At(fs, src, rel) == At(orig, src, rel);
    }
    assert dst + [] == dst && At(fs, dst, []) == None && Parent(dst) == [];
  }

  method SyncOne(w: Workspace, remote: Path, dirs: seq<Name>, d: Name, ghost orig: Files) returns (ok: bool)
    requires w.Valid() && Scope(dirs) && d in dirs
    requires remote != [] && remote[0] == ".run" && Only(orig, w.fs, DirsZone(dirs))
    modifies w`fs
    ensures w.Valid() && Only(orig, w.fs, DirsZone(dirs))
    ensures forall e | e != d :: SameTree(w.fs, [e], old(w.fs), [e])
    ensures ok ==> DirReplaced(w.fs, orig, w.resolves, remote, d)
    ensures w.reliable && Ordinary(orig, remote + [d]) ==> ok
  {
    var src, dst := remote + [d], [d];
    OutsideTheDirs(orig, w.fs, dirs, src);
    ok := RemovePath(w, dst);
    OneDirAtATime(orig, old(w.fs), w.fs, dirs, d);
    if !ok {
      return;
    }
    ghost var cleared := w.fs;
    OutsideTheDirs(orig, w.fs, dirs, src);
    assert src + [] == src;
    assert At(w.fs, src, []) == At(orig, src, []);
    if Exists(w.fs, w.resolves, src) {
      if Ordinary(orig, src) {
        CanPlace(orig, cleared, src, dst);
      }
      MirrorsMeet(cleared, src, dst);
      ok := CopyPath(w, src, dst);
      CopyLands(cleared, src, w.fs, dst, ok);
      OneDirAtATime(orig, cleared, w.fs, dirs, d);
    }
  }

  method SyncManagedDirs(w: Workspace, remote: Path, dirs: seq<Name>) returns (ok: bool)
    requires w.Valid() && Scope(dirs) && remote != [] && remote[0] == ".run"
    modifies w`fs
    ensures w.Valid() && Only(old(w.fs), w.fs, DirsZone(dirs))
    ensures ok ==> forall d | d in dirs :: DirReplaced(w.fs, old(w.fs), w.resolves, remote, d)
    ensures w.reliable && (forall d | d in dirs :: Ordinary(old(w.fs), remote + [d])) ==> ok
  {
    ghost var orig := w.fs;
    for i := 0 to |dirs|
      invariant w.Valid() && Only(orig, w.fs, DirsZone(dirs))
      invariant forall d | d in dirs[..i] :: DirReplaced(w.fs, orig, w.resolves, remote, d)
    {
      ScopeAt(dirs, i);
      ghost var before := w.fs;
      ok := SyncOne(w, remote, dirs, dirs[i], orig);
      if !ok {
        return;
      }
      forall d | d in dirs[..i]
        ensures DirReplaced(w.fs, orig, w.resolves, remote, d)
      {
        assert DirReplaced(before, orig, w.resolves, remote, d);
        assert SameTree(w.fs, [d], before, [d]);
      }
    }
    assert dirs[..|dirs|] == dirs;
    ok := true;
  }

  method ClearDirs(w: Workspace, dirs: seq<Name>) returns (ok: bool)
    requires w.Valid() && Scope(dirs)
    modifies w`fs
    ensures w.Valid() && Only(old(w.fs), w.fs, DirsZone(dirs))
    ensures ok ==> forall d | d in dirs :: Absent(w.fs, [d])
    ensures w.reliable ==> ok
  {
    ghost var orig := w.fs;
    for i := 0 to |dirs|
      invariant w.Valid() && Only(orig, w.fs, DirsZone(dirs))
      invariant forall d | d in dirs[..i] :: Absent(w.fs, [d])
    {
      ScopeAt(dirs, i);
      ghost var before := w.fs;
      ok := RemovePath(w, [dirs[i]]);
      OneDirAtATime(orig, before, w.fs, dirs, dirs[i]);
      if !ok {
        return;
      }
      forall d | d in dirs[..i]
        ensures Absent(w.fs, [d])
      {
        assert Absent(before, [d]) && SameTree(w.fs, [d], before, [d]);
      }
    }
    assert dirs[..|dirs|] == dirs;
    ok := true;
  }

  /** Each of `dirs` is either put back already or still cleared. */
  ghost predicate PutBack(fs: Files, orig: Files, dirs: seq<Name>, done: seq<Name>) {
    forall d | d in dirs ::
      if d in done then SameTree(fs, [d], orig, BACKUP + [d]) else Absent(fs, [d])
  }

  method PutBackOne(w: Workspace, dirs: seq<Name>, d: Name, ghost done: seq<Name>, ghost orig: Files)
    returns (ok: bool)
    requires w.Valid() && Scope(dirs) && d in dirs
    requires Only(orig, w.fs, DirsZone(dirs)) && PutBack(w.fs, orig, dirs, done)
    modifies w`fs
    ensures w.Valid() && Only(orig, w.fs, DirsZone(dirs))
    ensures ok ==> PutBack(w.fs, orig, dirs, done + [d])
    ensures w.reliable && d !in done && BACKUP + [d] in orig && Ordinary(orig, BACKUP + [d]) ==> ok
  {
    var src, dst := BACKUP + [d], [d];
    assert src[0] == ".run";
    OutsideTheDirs(orig, w.fs, dirs, src);
    assert if d in done then SameTree(w.fs, dst, orig, src) else Absent(w.fs, dst);
    if d !in done && src in orig && Ordinary(orig, src) {
      assert src + [] == src && At(w.fs, src, []) == At(orig, src, []);
      CanPlace(orig, w.fs, src, dst);
    }
    forall rel
      ensures At(w.fs, dst, rel) == None || At(w.fs, dst, rel) == At(w.fs, src, rel)
    {
      assert At(w.fs, src, rel) == At(orig, src, rel);
    }
    MirrorsMeet(w.fs, src, dst);
    ok := CopyPath(w, src, dst);
    CopyLands(old(w.fs), src, w.fs, dst, ok);
    OneDirAtATime(orig, old(w.fs), w.fs, dirs, d);
    if ok {
      forall e | e in dirs
        ensures if e in done + [d] then SameTree(w.fs, [e], orig, BACKUP + [e]) else Absent(w.fs, [e])
      {
        if e != d {
          assert SameTree(w.fs, [e], old(w.fs), [e]);
          assert if e in done then SameTree(old(w.fs), [e], orig, BACKUP + [e]) else Absent(old(w.fs), [e]);
        }
      }
    }
  }

  /** Each of the names once, and with an ordinary tree in the backup. */
  ghost predicate CanBePutBack(fs: Files, saved: seq<Name>) {
    && AllDiffer(saved)
    && forall d | d in saved :: BACKUP + [d] in fs && Ordinary(fs, BACKUP + [d])
  }

  method PutBackEach(w: Workspace, dirs: seq<Name>, saved: seq<Name>, ghost orig: Files) returns (ok: bool)
    requires w.Valid() && Scope(dirs) && forall d | d in saved :: d in dirs
    requires Only(orig, w.fs, DirsZone(dirs)) && PutBack(w.fs, orig, dirs, [])
    modifies w`fs
    ensures w.Valid() && Only(orig, w.fs, DirsZone(dirs))
    ensures ok ==> PutBack(w.fs, orig, dirs, saved)
    ensures w.reliable && CanBePutBack(orig, saved) ==> ok
  {
    hide Only, PutBack, Ordinary;
    for i := 0 to |saved|
      invariant w.Valid() && Only(orig, w.fs, DirsZone(dirs))
      invariant PutBack(w.fs, orig, dirs, saved[..i])
    {
      assert saved[..i + 1] == saved[..i] + [saved[i]];
      ok := PutBackOne(w, dirs, saved[i], saved[..i], orig);
      if !ok {
        return;
      }
    }
    assert saved[..|saved|] == saved;
    ok := true;
  }

  /** No manifest, or one of a whole backup of some of `dirs`. */
  ghost predicate CanRestore(fs: Files, dirs: seq<Name>) {
    MANIFEST in fs ==>
      && fs[MANIFEST].File? && ParseManifest(fs[MANIFEST].content).Some?
      && var saved := ParseManifest(fs[MANIFEST].content).value;
         (forall d | d in saved :: d in dirs) && CanBePutBack(fs, saved)
  }

  ghost predicate AllDiffer(names: seq<Name>) {
    forall i, j :: 0 <= i < j < |names| ==> names[i] != names[j]
  }

  lemma DifferInFront(d: Name, rest: seq<Name>)
    requires AllDiffer(rest) && d !in rest
    ensures AllDiffer([d] + rest)
  {
  }

  lemma {:induction false} ExistingDirsDiffer(fs: Files, resolves: Resolver, dirs: seq<Name>)
    requires AllDiffer(dirs)
    ensures AllDiffer(ExistingDirs(fs, resolves, dirs))
  {
    hide Exists;
    if dirs != [] {
      var rest := ExistingDirs(fs, resolves, dirs[1..]);
      assert AllDiffer(dirs[1..]) && dirs[0] !in dirs[1..];
      ExistingDirsDiffer(fs, resolves, dirs[1..]);
      ExistingDirsListed(fs, resolves, dirs[1..]);
      DifferInFront(dirs[0], rest);
      assert [] + rest == rest;
    }
  }

  /** The backup of ordinary directories can be restored. */
  lemma BackupCanBeRestored(fs: Files, orig: Files, resolves: Resolver, dirs: seq<Name>)
    requires Scope(dirs) && HasBackup(fs, orig, ExistingDirs(orig, resolves, dirs))
    requires forall d | d in dirs :: Ordinary(orig, [d])
    ensures CanRestore(fs, dirs)
  {
    assert AllDiffer(dirs);
    ExistingDirsDiffer(orig, resolves, dirs);
    ExistingDirsListed(orig, resolves, dirs);
    forall d | d in ExistingDirs(orig, resolves, dirs)
      ensures d in dirs && BACKUP + [d] in fs && Ordinary(fs, BACKUP + [d])
    {
      assert SameTree(fs, BACKUP + [d], orig, [d]);
      forall rel ensures At(fs, BACKUP + [d], rel) == At(orig, [d], rel) {
      }
      assert BACKUP + [d] + [] == BACKUP + [d] && [d] + [] == [d];
      assert At(fs, BACKUP + [d], []) == At(orig, [d], []);
    }
    assert CanBePutBack(fs, ExistingDirs(orig, resolves, dirs));
  }

  /**
   `restore_managed_dirs`. Without a manifest it does nothing and succeeds; a manifest that
   lists a directory outside `dirs` is refused before anything changes.
   */
  method RestoreManagedDirs(w: Workspace, dirs: seq<Name>) returns (ok: bool)
    requires w.Valid() && Scope(dirs)
    modifies w`fs
    ensures w.Valid() && Only(old(w.fs), w.fs, DirsZone(dirs))
    ensures ok && MANIFEST !in old(w.fs) ==> w.fs == old(w.fs)
    ensures ok && MANIFEST in old(w.fs) ==>
      && old(w.fs)[MANIFEST].File? && ParseManifest(old(w.fs)[MANIFEST].content).Some?
      && Restored(w.fs, old(w.fs), dirs, ParseManifest(old(w.fs)[MANIFEST].content).value)
    ensures w.reliable && CanRestore(old(w.fs), dirs) ==> ok
  {
    ghost var orig := w.fs;
    var read := w.ReadFile(MANIFEST);
    match read
    case Missing => return true;
    case Failed => return false;
    case Found(content) =>
      var parsed := ParseManifest(content);
      if parsed == None {
        return false;
      }
      var saved := parsed.value;
      if exists d :: d in saved && d !in dirs {
        return false;
      }
      ok := ClearDirs(w, dirs);
      if !ok {
        return;
      }
      ok := PutBackEach(w, dirs, saved, orig);
  }

  // ---- backup and restore undo each other ----

  /**
   After a backup of `before`, any change that leaves the backup alone, and a restore, the
   scoped directories are as they were: exactly when none of them was a dangling link.
   */
  lemma RestoreUndoes(before: Files, backed: Files, changed: Files, after: Files,
                      resolves: Resolver, dirs: seq<Name>, saved: seq<Name>)
    requires WellFormed(before) && saved == ExistingDirs(before, resolves, dirs)
    requires HasBackup(backed, before, saved)
    requires forall q | BACKUP <= q :: Agree(backed, changed, q)
    requires Restored(after, changed, dirs, saved)
    ensures forall d | d in dirs && !DanglingRoot(before, resolves, d) :: SameTree(after, [d], before, [d])
    ensures forall d | d in dirs && DanglingRoot(before, resolves, d) :: Absent(after, [d])
    ensures DirsUnchanged(before, after, dirs) <==> forall d | d in dirs :: !DanglingRoot(before, resolves, d)
  {
    ExistingDirsListed(before, resolves, dirs);
    forall d | d in dirs && !DanglingRoot(before, resolves, d)
      ensures SameTree(after, [d], before, [d])
    {
      if d in saved {
        forall rel
          ensures At(after, [d], rel) == At(before, [d], rel)
        {
          assert BACKUP <= BACKUP + [d] + rel;
          assert Agree(backed, changed, BACKUP + [d] + rel);
          assert At(after, [d], rel) == At(changed, BACKUP + [d], rel);
          assert At(backed, BACKUP + [d], rel) == At(before, [d], rel);
        }
      } else {
        MissingIsAbsent(before, [d]);
      }
    }
    SameRootsIsUnchanged(before, after, dirs);
    forall d | d in dirs && DanglingRoot(before, resolves, d)
      ensures !SameTree(after, [d], before, [d])
    {
      assert [d] + [] == [d];
      assert At(after, [d], []) == None && At(before, [d], []) != None;
    }
  }

  lemma SameRootsIsUnchanged(a: Files, b: Files, dirs: seq<Name>)
    ensures DirsUnchanged(a, b, dirs) <==> forall d | d in dirs :: SameTree(b, [d], a, [d])
  {
    if DirsUnchanged(a, b, dirs) {
      forall d | d in dirs
        ensures SameTree(b, [d], a, [d])
      {
        forall q | [d] <= q
          ensures Agree(b, a, q)
        {
          assert InDirs(dirs, q);
          assert Agree(a, b, q);
        }
        AgreeBelowIsSameTree(b, a, [d]);
      }
    }
    if forall d | d in dirs :: SameTree(b, [d], a, [d]) {
      forall p | InDirs(dirs, p)
        ensures Agree(a, b, p)
      {
        SameTreeIsAgreeBelow(b, a, [p[0]]);
        assert [p[0]] <= p;
        assert Agree(b, a, p);
      }
    }
  }

  /** Restoring again from the same backup changes nothing. */
  lemma RestoreIsIdempotent(first: Files, once: Files, twice: Files, dirs: seq<Name>, saved: seq<Name>)
    requires Scope(dirs) && Only(first, once, DirsZone(dirs))
    requires Restored(once, first, dirs, saved) && Restored(twice, once, dirs, saved)
    ensures DirsUnchanged(once, twice, dirs)
  {
    forall d | d in dirs
      ensures SameTree(twice, [d], once, [d])
    {
      assert (BACKUP + [d])[0] == ".run";
      OutsideTheDirs(first, once, dirs, BACKUP + [d]);
    }
    SameRootsIsUnchanged(once, twice, dirs);
  }
}
