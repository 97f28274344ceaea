/**
 The whole update of a work root from a checkout: compare, back up, replace, record, validate,
 and roll back when a step fails.
 */
module RemoteUpdate {
  import opened Wrappers
  import opened FileTree
  import opened TreeCompare
  import opened ManagedDirs
  import opened RemoteState

  const CACHE: Path := [".run", "project_remote", "remote"]
  const CACHE_MODELS: Path := [".run", "project_remote", "remote-models"]
  const CACHE_INFRA: Path := [".run", "project_remote", "remote-infra"]

  function CachePathFor(group: Option<RemoteGroup>): (p: Path)
    ensures p != [] && p[0] == ".run" && |p| == 3 && p[1] == "project_remote" && p[2] != "backup"
  {
    match group
    case None => CACHE
    case Some(Models) => CACHE_MODELS
    case Some(Infra) => CACHE_INFRA
  }

  /** Each group has its own cache, beside the one of a project that is updated as a whole. */
  lemma CachesApart(g: Option<RemoteGroup>, h: Option<RemoteGroup>)
    ensures g != h ==> !(CachePathFor(g) <= CachePathFor(h))
    ensures CachePathFor(Some(Models))[2] == CachePathFor(None)[2] + "-models"
    ensures CachePathFor(Some(Infra))[2] == CachePathFor(None)[2] + "-infra"
  {
    assert |CACHE[2]| == 6 && |CACHE_MODELS[2]| == 13 && |CACHE_INFRA[2]| == 12;
  }

  /** Everything an update may touch; the rest of the work root is out of its reach. */
  ghost function UpdateZone(group: Option<RemoteGroup>): iset<Path> {
    DirsZone(ManagedDirsFor(group)) + BackupZone() + StateZone() + Below(CachePathFor(group))
  }

  ghost function CacheZone(group: Option<RemoteGroup>): iset<Path> {
    Below(CachePathFor(group)) + iset{RUN, REMOTE_AREA}
  }

  /** What the git steps settle on. */
  datatype Resolved = Resolved(version: string, tag: string, revision: string)

  /** Where the cached repository keeps what is checked out. */
  function HeadFile(group: Option<RemoteGroup>): Path {
    CachePathFor(group) + [".git", "HEAD"]
  }

  /**
   What the cached repository has checked out: the commit, with the tag that led to it and the
   tag's version. Git keeps them in several files below the cache; here they stand in one.
   */
  function CheckedOut(fs: Files, group: Option<RemoteGroup>): Option<Resolved> {
    var head := HeadFile(group);
    if head in fs && fs[head].File? && fs[head].content.Document? && fs[head].content.value.JObject? then
      var m := fs[head].content.value.members;
      if HasString(m, "version") && HasString(m, "tag") && HasString(m, "revision") then
        Some(Resolved(m["version"].s, m["tag"].s, m["revision"].s))
      else None
    else None
  }

  lemma CheckoutStays(a: Files, b: Files, group: Option<RemoteGroup>)
    requires Only(a, b, DirsZone(ManagedDirsFor(group)) + StateZone() + BackupZone())
    ensures CheckedOut(a, group) == CheckedOut(b, group)
  {
    var head := HeadFile(group);
    assert head[0] == ".run" && head[1] == "project_remote" && head[2] != "backup" && |head| == 5;
    assert !(STATE <= head) && !(STATE_TMP <= head) && !(BACKUP <= head) by {
      assert STATE[1] != head[1] && STATE_TMP[1] != head[1] && BACKUP[2] != head[2];
    }
    assert ".run" !in ManagedDirsFor(group);
    assert Agree(a, b, head);
  }

  lemma OnlyTheArea(a: Files, b: Files, group: Option<RemoteGroup>)
    requires WellFormed(a)
    requires forall q :: Agree(a, b, q) || (q <= REMOTE_AREA && q !in a && q in b && b[q].Dir?)
    ensures Only(a, b, CacheZone(group))
  {
    forall q
      ensures q in CacheZone(group) || Agree(a, b, q)
    {
      assert q <= REMOTE_AREA ==> q <= BACKUP;
      if q <= REMOTE_AREA {
        BackupPrefixes(q);
      }
    }
  }

  /** What lies below `p` replaced by what `tree` has there. */
  function Relaid(fs: Files, p: Path, tree: Files): Files {
    (map q | q in fs && !(p <= q) :: fs[q]) + (map q | q in tree && p <= q :: tree[q])
  }

  lemma RelaidBelow(fs: Files, p: Path, tree: Files)
    ensures Only(fs, Relaid(fs, p, tree), Below(p))
  {
  }

  /** A tree that git can lay down: a repository with something checked out, and no special files. */
  predicate IsClone(fs: Files, group: Option<RemoteGroup>, tree: Files) {
    && WellFormed(Relaid(fs, CachePathFor(group), tree))
    && CheckedOut(Relaid(fs, CachePathFor(group), tree), group).Some?
    && forall q | q in tree :: !tree[q].Special?
  }

  /** The least of them. */
  function FreshClone(group: Option<RemoteGroup>): Files {
    var head := JObject(map["version" := JString(""), "tag" := JString(""), "revision" := JString("")]);
    LeastTree(CachePathFor(group), File(Document(head, PRETTY), NEW_FILE_MODE))
  }

  function LeastTree(p: Path, head: Node): Files {
    map[p := Dir, p + [".git"] := Dir, p + [".git", "HEAD"] := head]
  }

  lemma Grows(fs: Files, p: Path, node: Node)
    requires WellFormed(fs) && p != [] && p !in fs && Parent(p) in fs && fs[Parent(p)].Dir?
    ensures WellFormed(fs[p := node])
  {
  }

  lemma ClearedBelow(fs: Files, p: Path)
    requires WellFormed(fs) && p != []
    ensures WellFormed(Relaid(fs, p, map[]))
  {
    var cleared := Relaid(fs, p, map[]);
    forall q | q in cleared && q != [] ensures Parent(q) in cleared && cleared[Parent(q)].Dir? {
      assert !(p <= Parent(q));
    }
  }

  lemma RelaidAtOnce(fs: Files, p: Path, tree: Files)
    requires forall q | q in tree :: p <= q
    ensures Relaid(fs, p, tree) == Relaid(fs, p, map[]) + tree
  {
  }

  lemma GrownByThree(cleared: Files, p: Path, git: Path, last: Path, head: Node)
    requires WellFormed(cleared) && p != [] && Parent(p) in cleared && cleared[Parent(p)].Dir?
    requires git != [] && last != [] && Parent(git) == p && Parent(last) == git
    requires p !in cleared && git !in cleared && last !in cleared
    ensures WellFormed(cleared[p := Dir][git := Dir][last := head])
  {
    hide WellFormed;
    Grows(cleared, p, Dir);
    Grows(cleared[p := Dir], git, Dir);
    Grows(cleared[p := Dir][git := Dir], last, head);
  }

  lemma GitNames(p: Path)
    ensures Parent(p + [".git", "HEAD"]) == p + [".git"] && Parent(p + [".git"]) == p
    ensures p <= p + [".git"] && p <= p + [".git", "HEAD"]
  {
  }

  lemma ThreeMore(cleared: Files, p: Path, head: Node)
    ensures cleared + LeastTree(p, head) == cleared[p := Dir][p + [".git"] := Dir][p + [".git", "HEAD"] := head]
  {
  }

  lemma LeastTreeFits(fs: Files, p: Path, head: Node)
    requires WellFormed(fs) && p != [] && Parent(p) in fs && fs[Parent(p)].Dir?
    ensures WellFormed(Relaid(fs, p, LeastTree(p, head)))
    ensures var whole := Relaid(fs, p, LeastTree(p, head));
      p + [".git", "HEAD"] in whole && whole[p + [".git", "HEAD"]] == head
  {
    var git, last := p + [".git"], p + [".git", "HEAD"];
    var cleared, tree := Relaid(fs, p, map[]), LeastTree(p, head);
    ClearedBelow(fs, p);
    GitNames(p);
    assert (forall q | q in cleared :: !(p <= q)) && Parent(p) in cleared && cleared[Parent(p)] == fs[Parent(p)];
    RelaidAtOnce(fs, p, tree);
    ThreeMore(cleared, p, head);
    hide WellFormed, Relaid, Parent, LeastTree;
    GrownByThree(cleared, p, git, last, head);
  }

  lemma FreshCloneIsOne(fs: Files, group: Option<RemoteGroup>)
    requires WellFormed(fs) && REMOTE_AREA in fs && fs[REMOTE_AREA].Dir?
    ensures IsClone(fs, group, FreshClone(group))
  {
    hide WellFormed, Relaid;
    var head := JObject(map["version" := JString(""), "tag" := JString(""), "revision" := JString("")]);
    assert Parent(CachePathFor(group)) == REMOTE_AREA;
    LeastTreeFits(fs, CachePathFor(group), File(Document(head, PRETTY), NEW_FILE_MODE));
  }

  lemma CloneIsOrdinary(fs: Files, group: Option<RemoteGroup>, tree: Files)
    requires forall q | q in tree :: !tree[q].Special?
    ensures Ordinary(Relaid(fs, CachePathFor(group), tree), CachePathFor(group))
  {
  }

  /** Where something is checked out, the area of the remotes is there. */
  lemma AreaOfACheckout(fs: Files, group: Option<RemoteGroup>)
    requires WellFormed(fs) && CheckedOut(fs, group).Some?
    ensures DirsOnTheWay(fs, REMOTE_AREA) && (RUN in fs && fs[RUN].Dir?)
  {
    var head := HeadFile(group);
    assert REMOTE_AREA <= head && RUN <= head;
    forall q | q <= REMOTE_AREA && q in fs ensures fs[q].Dir? {
      assert q <= head && q != head;
      AncestorsAreDirs(fs, head, q);
    }
    AncestorsAreDirs(fs, head, RUN);
  }

  /**
   Clone or open, fetch, resolve a tag and check it out. Whether it succeeds, and whatever tree
   it leaves in the cache, it touches only the cache; and if it succeeds, its answer is what the
   cache has checked out.
   */
  method PrepareCheckout(w: Workspace, group: Option<RemoteGroup>) returns (r: Option<Resolved>)
    requires w.Valid()
    modifies w`fs
    ensures w.Valid() && Only(old(w.fs), w.fs, CacheZone(group))
    ensures r.Some? ==> CheckedOut(w.fs, group) == r && Ordinary(w.fs, CachePathFor(group))
    ensures w.reliable && DirsOnTheWay(old(w.fs), REMOTE_AREA) ==> r.Some?
  {
    var made := w.CreateDirAll(REMOTE_AREA);
    OnlyTheArea(old(w.fs), w.fs, group);
    if !made {
      return None;
    }
    ghost var area := w.fs;
    r := LayDown(w, group);
    OnlyThrough(old(w.fs), area, w.fs, CacheZone(group));
  }

  /** What git does in the cache. */
  method LayDown(w: Workspace, group: Option<RemoteGroup>) returns (r: Option<Resolved>)
    requires w.Valid() && REMOTE_AREA in w.fs && w.fs[REMOTE_AREA].Dir?
    modifies w`fs
    ensures w.Valid() && Only(old(w.fs), w.fs, CacheZone(group))
    ensures r.Some? ==> CheckedOut(w.fs, group) == r && Ordinary(w.fs, CachePathFor(group))
    ensures w.reliable ==> r.Some?
  {
    var cache := CachePathFor(group);
    var tree: Files := *;
    FreshCloneIsOne(w.fs, group);
    if w.reliable && !IsClone(w.fs, group, tree) {
      tree := FreshClone(group);
    }
    hide CachePathFor, FreshClone;
    var whole := Relaid(w.fs, cache, tree);
    RelaidBelow(w.fs, cache, tree);
    if !IsClone(w.fs, group, tree) {
      if WellFormed(whole) {
        w.fs := whole;
      }
      return None;
    }
    CloneIsOrdinary(w.fs, group, tree);
    w.fs := whole;
    var broken := w.Breaks();
    if broken {
      return None;
    }
    r := CheckedOut(w.fs, group);
  }

  // ---- what an update leaves behind ----

  /** The directory `d` is the checkout's: a fresh copy, or found to look the same. */
  ghost predicate Installed(fs: Files, resolves: Resolver, remote: Path, d: Name, changed: bool) {
    if changed then DirReplaced(fs, fs, resolves, remote, d) else SameView(fs, resolves, remote + [d], [d])
  }

  /** The scoped directories are what they were; a root that was a dangling link may be gone. */
  ghost predicate DirsRolledBack(before: Files, after: Files, resolves: Resolver, dirs: seq<Name>) {
    forall d | d in dirs ::
      SameTree(after, [d], before, [d]) || (DanglingRoot(before, resolves, d) && Absent(after, [d]))
  }

  /** The backup of this very update is still in place. */
  ghost predicate BackupInPlace(fs: Files, before: Files, resolves: Resolver, dirs: seq<Name>) {
    HasBackup(fs, before, ExistingDirs(before, resolves, dirs))
  }

  /** Some directory of the checkout does not look like the managed one. */
  ghost predicate Differs(fs: Files, resolves: Resolver, remote: Path, dirs: seq<Name>) {
    exists d | d in dirs :: !SameView(fs, resolves, remote + [d], [d])
  }

  /** So it was, with what is checked out in `fs` beside the directories of `before`. */
  ghost predicate Differed(before: Files, fs: Files, resolves: Resolver, group: Option<RemoteGroup>) {
    exists compared: Files ::
      && DirsStillAs(before, compared, ManagedDirsFor(group))
      && SameTree(fs, CachePathFor(group), compared, CachePathFor(group))
      && Differs(compared, resolves, CachePathFor(group), ManagedDirsFor(group))
  }

  datatype SyncOutcome = Synced(result: UpdateResult) | SyncError(rollbackFailed: bool)

  /** The first half of `sync_project_remote_with_repo_inner`: compare, and back up when there is a difference. */
  method CompareAndBackup(w: Workspace, remote: Path, dirs: seq<Name>) returns (changed: Option<bool>)
    requires w.Valid() && Scope(dirs)
    modifies w`fs
    ensures w.Valid() && Only(old(w.fs), w.fs, BackupZone())
    ensures changed == Some(true) ==> BackupInPlace(w.fs, old(w.fs), w.resolves, dirs)
    ensures changed == Some(true) ==> Differs(old(w.fs), w.resolves, remote, dirs)
    ensures changed == Some(false) ==> w.fs == old(w.fs)
    ensures changed == Some(false) ==> forall d | d in dirs :: SameView(w.fs, w.resolves, remote + [d], [d])
    ensures w.reliable && CanBackUpAll(old(w.fs), dirs) && Ordinary(old(w.fs), remote) ==> changed.Some?
  {
    if Ordinary(w.fs, remote) {
      forall d | d in dirs ensures Ordinary(w.fs, remote + [d]) {
        OrdinaryChild(w.fs, remote, [d]);
      }
    }
    changed := ManagedDirsDiffer(w, remote, dirs);
    if changed == Some(true) {
      var saved := BackupManagedDirs(w, dirs);
      if !saved {
        changed := None;
      }
    }
  }

  lemma CanRecordStays(a: Files, b: Files, group: Option<RemoteGroup>)
    requires Only(a, b, DirsZone(ManagedDirsFor(group)))
    ensures CanRecord(a, group) ==> CanRecord(b, group)
  {
    assert Agree(a, b, STATE) && Agree(a, b, STATE_TMP) && Agree(a, b, RUN);
  }

  /** The closure `apply_result`: replace the directories and record the state. */
  method Apply(w: Workspace, group: Option<RemoteGroup>, remote: Path, result: UpdateResult) returns (ok: bool)
    requires w.Valid() && remote != [] && remote[0] == ".run"
    modifies w`fs
    ensures w.Valid() && Only(old(w.fs), w.fs, DirsZone(ManagedDirsFor(group)) + StateZone())
    ensures !result.changed ==> Only(old(w.fs), w.fs, StateZone())
    ensures ok && result.changed ==>
      forall d | d in ManagedDirsFor(group) :: DirReplaced(w.fs, old(w.fs), w.resolves, remote, d)
    ensures ok ==> NextState(KnownState(old(w.fs)), group, result).Some?
    ensures ok ==> LoadedState(w.fs) == HasState(NextState(KnownState(old(w.fs)), group, result).value)
    ensures ok ==> CanReplace(w.fs, STATE, STATE_TMP)
    ensures w.reliable && CanRecord(old(w.fs), group) && Ordinary(old(w.fs), remote) ==> ok
    ensures w.reliable && CanReplace(old(w.fs), STATE, STATE_TMP) ==> CanReplace(w.fs, STATE, STATE_TMP)
  {
    var dirs := ManagedDirsFor(group);
    if Ordinary(w.fs, remote) {
      forall d | d in dirs ensures Ordinary(w.fs, remote + [d]) {
        OrdinaryChild(w.fs, remote, [d]);
      }
    }
    if result.changed {
      ok := SyncManagedDirs(w, remote, dirs);
      CanReplaceStays(old(w.fs), w.fs, dirs);
      if !ok {
        return;
      }
      assert Agree(old(w.fs), w.fs, STATE);
      CanRecordStays(old(w.fs), w.fs, group);
    }
    ghost var replaced := w.fs;
    ok := PersistState(w, group, result);
    ZonesInRunArea(group);
    Wider(replaced, w.fs, StateZone(), RunZone());
    forall d | d in dirs
      ensures SameTree(w.fs, [d], replaced, [d])
    {
      RunAreaIsElsewhere(replaced, w.fs, d);
    }
    if ok && result.changed {
      assert forall d | d in dirs :: DirReplaced(replaced, old(w.fs), w.resolves, remote, d);
    }
  }

  /** A managed directory keeps its tree while only the runtime area changes. */
  lemma RunAreaIsElsewhere(a: Files, b: Files, d: Name)
    requires Only(a, b, RunZone()) && d != ".run"
    ensures SameTree(b, [d], a, [d])
  {
    forall rel
      ensures At(b, [d], rel) == At(a, [d], rel)
    {
      assert ([d] + rel)[0] == d;
      assert Agree(a, b, [d] + rel);
    }
  }

  ghost predicate InRunArea(p: Path) {
    p != [] && p[0] == ".run"
  }

  ghost function RunZone(): iset<Path> {
    iset p: Path | InRunArea(p)
  }

  lemma Wider(a: Files, b: Files, narrow: iset<Path>, wide: iset<Path>)
    requires Only(a, b, narrow) && narrow <= wide
    ensures Only(a, b, wide)
  {
  }

  lemma ZonesInRunArea(group: Option<RemoteGroup>)
    ensures BackupZone() <= RunZone() && StateZone() <= RunZone() && CacheZone(group) <= RunZone()
  {
    assert RUN[0] == REMOTE_AREA[0] == BACKUP[0] == STATE[0] == STATE_TMP[0] == ".run";
    assert CachePathFor(group)[0] == ".run";
  }

  // ---- carrying facts from one step to the next ----

  /** Only the runtime area has changed, so each managed directory is still `before`'s. */
  ghost predicate DirsStillAs(before: Files, now: Files, dirs: seq<Name>) {
    forall d | d in dirs :: SameTree(now, [d], before, [d])
  }

  lemma RunAreaKeepsDirs(a: Files, b: Files, dirs: seq<Name>)
    requires Scope(dirs) && Only(a, b, RunZone())
    ensures DirsStillAs(a, b, dirs)
  {
    forall d | d in dirs
      ensures SameTree(b, [d], a, [d])
    {
      RunAreaIsElsewhere(a, b, d);
    }
  }

  lemma RootOfSameTree(a: Files, b: Files, p: Path)
    requires SameTree(b, p, a, p)
    ensures Agree(a, b, p)
  {
    assert p + [] == p;
    assert At(b, p, []) == At(a, p, []);
  }

  lemma {:induction false} SameDirsListedAlike(a: Files, b: Files, resolves: Resolver, dirs: seq<Name>)
    requires DirsStillAs(a, b, dirs)
    ensures ExistingDirs(a, resolves, dirs) == ExistingDirs(b, resolves, dirs)
  {
    if dirs != [] {
      RootOfSameTree(a, b, [dirs[0]]);
      SameDirsListedAlike(a, b, resolves, dirs[1..]);
    }
  }

  lemma BackupOfTheOriginal(orig: Files, later: Files, fs: Files, resolves: Resolver, dirs: seq<Name>)
    requires DirsStillAs(orig, later, dirs) && BackupInPlace(fs, later, resolves, dirs)
    ensures BackupInPlace(fs, orig, resolves, dirs)
  {
    SameDirsListedAlike(orig, later, resolves, dirs);
    ExistingDirsListed(orig, resolves, dirs);
  }

  lemma BackupOutlivesApply(before: Files, a: Files, b: Files, resolves: Resolver, dirs: seq<Name>)
    requires Scope(dirs) && Only(a, b, DirsZone(dirs) + StateZone()) && BackupInPlace(a, before, resolves, dirs)
    ensures BackupInPlace(b, before, resolves, dirs)
  {
    forall p | BACKUP <= p
      ensures Agree(a, b, p)
    {
      assert p[0] == ".run" && p[1] == "project_remote" && STATE[1] != p[1] && STATE_TMP[1] != p[1];
    }
    assert BACKUP <= MANIFEST && Agree(a, b, MANIFEST);
    forall d | d in ExistingDirs(before, resolves, dirs)
      ensures SameTree(b, BACKUP + [d], before, [d])
    {
      forall q | BACKUP + [d] <= q
        ensures Agree(a, b, q)
      {
        assert BACKUP <= q;
      }
      AgreeBelowIsSameTree(a, b, BACKUP + [d]);
      assert SameTree(a, BACKUP + [d], before, [d]);
    }
  }

  /** The checkout is out of reach of the steps that back up, replace and record. */
  lemma CheckoutOutlives(a: Files, b: Files, group: Option<RemoteGroup>)
    requires Only(a, b, DirsZone(ManagedDirsFor(group)) + StateZone() + BackupZone())
    ensures SameTree(b, CachePathFor(group), a, CachePathFor(group))
  {
    var p := CachePathFor(group);
    forall q | p <= q
      ensures Agree(a, b, q)
    {
      assert q[0] == ".run" && q[1] == "project_remote" && STATE[1] != q[1] && STATE_TMP[1] != q[1];
      assert q[2] == p[2] != BACKUP[2];
    }
    AgreeBelowIsSameTree(a, b, p);
  }

  lemma CheckoutOutlivesApply(a: Files, b: Files, group: Option<RemoteGroup>, d: Name)
    requires Only(a, b, DirsZone(ManagedDirsFor(group)) + StateZone())
    ensures SameTree(b, CachePathFor(group) + [d], a, CachePathFor(group) + [d])
  {
    var p, zone := CachePathFor(group), DirsZone(ManagedDirsFor(group)) + StateZone();
    Wider(a, b, zone, zone + BackupZone());
    CheckoutOutlives(a, b, group);
    hide CachePathFor;
    forall rel ensures At(b, p + [d], rel) == At(a, p + [d], rel) {
      assert p + [d] + rel == p + ([d] + rel);
      assert At(b, p, [d] + rel) == At(a, p, [d] + rel);
    }
  }

  lemma StillDiffered(before: Files, a: Files, b: Files, resolves: Resolver, group: Option<RemoteGroup>)
    requires Differed(before, a, resolves, group) && SameTree(b, CachePathFor(group), a, CachePathFor(group))
    ensures Differed(before, b, resolves, group)
  {
    hide Differs, DirsStillAs, CachePathFor, ManagedDirsFor, At;
    var compared :| DirsStillAs(before, compared, ManagedDirsFor(group))
      && SameTree(a, CachePathFor(group), compared, CachePathFor(group))
      && Differs(compared, resolves, CachePathFor(group), ManagedDirsFor(group));
    assert SameTree(b, CachePathFor(group), compared, CachePathFor(group));
  }

  lemma InstalledAfterApply(compared: Files, applied: Files, resolves: Resolver, group: Option<RemoteGroup>, d: Name,
                            changed: bool)
    requires d in ManagedDirsFor(group)
    requires Only(compared, applied, DirsZone(ManagedDirsFor(group)) + StateZone())
    requires changed ==> DirReplaced(applied, compared, resolves, CachePathFor(group), d)
    requires !changed ==> SameView(compared, resolves, CachePathFor(group) + [d], [d])
    requires !changed ==> Only(compared, applied, StateZone())
    ensures Installed(applied, resolves, CachePathFor(group), d, changed)
  {
    var src := CachePathFor(group) + [d];
    CheckoutOutlivesApply(compared, applied, group, d);
    RootOfSameTree(compared, applied, src);
    if changed {
      assert Exists(applied, resolves, src) == Exists(compared, resolves, src);
    } else {
      ZonesInRunArea(group);
      Wider(compared, applied, StateZone(), RunZone());
      RunAreaIsElsewhere(compared, applied, d);
      ViewFrame(compared, applied, resolves, src, [d]);
    }
  }

  // ---- rolling back ----

  lemma RunAreaKeepsRolledBack(before: Files, a: Files, b: Files, resolves: Resolver, dirs: seq<Name>)
    requires Scope(dirs) && DirsRolledBack(before, a, resolves, dirs) && Only(a, b, RunZone())
    ensures DirsRolledBack(before, b, resolves, dirs)
  {
    RunAreaKeepsDirs(a, b, dirs);
    forall d | d in dirs
      ensures SameTree(b, [d], before, [d]) || (DanglingRoot(before, resolves, d) && Absent(b, [d]))
    {
      assert SameTree(b, [d], a, [d]);
    }
  }

  /** The state file can be replaced, and what has changed can be put back from the backup. */
  ghost predicate CanRollBack(fs: Files, dirs: seq<Name>, changed: bool) {
    CanReplace(fs, STATE, STATE_TMP) && (changed ==> CanRestore(fs, dirs))
  }

  lemma CanReplaceStays(a: Files, b: Files, dirs: seq<Name>)
    requires Scope(dirs) && Only(a, b, DirsZone(dirs))
    ensures CanReplace(a, STATE, STATE_TMP) ==> CanReplace(b, STATE, STATE_TMP)
  {
    assert Agree(a, b, STATE) && Agree(a, b, STATE_TMP) && Agree(a, b, RUN);
  }

  /** The directories' part of a rollback: nothing if they were not changed. */
  method RestoreChanged(w: Workspace, dirs: seq<Name>, changed: bool, ghost before: Files) returns (ok: bool)
    requires w.Valid() && Scope(dirs) && WellFormed(before)
    requires changed ==> BackupInPlace(w.fs, before, w.resolves, dirs)
    modifies w`fs
    ensures w.Valid() && Only(old(w.fs), w.fs, DirsZone(dirs))
    ensures !changed ==> w.fs == old(w.fs)
    ensures ok && changed ==> DirsRolledBack(before, w.fs, w.resolves, dirs)
    ensures w.reliable && CanRollBack(old(w.fs), dirs, changed) ==> ok
    ensures CanReplace(old(w.fs), STATE, STATE_TMP) ==> CanReplace(w.fs, STATE, STATE_TMP)
  {
    ok := true;
    if changed {
      ok := RestoreManagedDirs(w, dirs);
      if ok {
        RestoreUndoes(before, old(w.fs), old(w.fs), w.fs, w.resolves, dirs, ExistingDirs(before, w.resolves, dirs));
      }
    }
    CanReplaceStays(old(w.fs), w.fs, dirs);
  }

  /** `rollback_partial_update`, on the backup that this update made of `before`. */
  method RollbackPartialUpdate(w: Workspace, previous: Option<ProjectState>, changed: bool,
                               group: Option<RemoteGroup>, ghost before: Files) returns (ok: bool)
    requires w.Valid() && WellFormed(before)
    requires changed ==> BackupInPlace(w.fs, before, w.resolves, ManagedDirsFor(group))
    modifies w`fs
    ensures w.Valid() && Only(old(w.fs), w.fs, DirsZone(ManagedDirsFor(group)) + StateZone())
    ensures !changed ==> Only(old(w.fs), w.fs, StateZone())
    ensures ok && changed ==> DirsRolledBack(before, w.fs, w.resolves, ManagedDirsFor(group))
    ensures ok ==> LoadedState(w.fs) == if previous.Some? then HasState(previous.value) else NoState
    ensures w.reliable && CanRollBack(old(w.fs), ManagedDirsFor(group), changed) ==> ok
  {
    hide BackupInPlace, DirsRolledBack, CanReplace, LoadedState;
    var dirs := ManagedDirsFor(group);
    ok := RestoreChanged(w, dirs, changed, before);
    if !ok {
      return;
    }
    ghost var restored := w.fs;
    ok := RestoreParsedState(w, previous);
    ZonesInRunArea(group);
    Wider(restored, w.fs, StateZone(), RunZone());
    if changed {
      RunAreaKeepsRolledBack(before, restored, w.fs, w.resolves, dirs);
    }
  }

  // ---- the synchronisation ----

  /** Nothing stands where an update writes, and the directories hold only what can be copied. */
  ghost predicate Unhindered(fs: Files, group: Option<RemoteGroup>) {
    CanBackUpAll(fs, ManagedDirsFor(group)) && CanReplace(fs, STATE, STATE_TMP)
  }

  /** And the state on record is readable, and not a dual one that a single update would overwrite. */
  ghost predicate CanUpdate(fs: Files, group: Option<RemoteGroup>) {
    Unhindered(fs, group) && CanRecord(fs, group)
  }

  lemma StillOrdinary(a: Files, b: Files, dirs: seq<Name>)
    requires DirsStillAs(a, b, dirs) && forall d | d in dirs :: Ordinary(a, [d])
    ensures forall d | d in dirs :: Ordinary(b, [d])
  {
    forall d | d in dirs ensures Ordinary(b, [d]) {
      assert SameTree(b, [d], a, [d]);
      forall rel ensures At(b, [d], rel) != Some(Special) {
        assert At(b, [d], rel) == At(a, [d], rel);
      }
    }
  }

  lemma StateFilesAreElsewhere(a: Files, b: Files, group: Option<RemoteGroup>)
    requires Only(a, b, CacheZone(group) + BackupZone())
    ensures Agree(a, b, STATE) && Agree(a, b, STATE_TMP)
  {
    assert STATE[1] != "project_remote" && STATE_TMP[1] != "project_remote";
  }

  /** With something checked out, the update is as little hindered as it was before. */
  lemma StillUnhindered(orig: Files, now: Files, group: Option<RemoteGroup>)
    requires WellFormed(now) && Only(orig, now, CacheZone(group) + BackupZone()) && CheckedOut(now, group).Some?
    requires DirsStillAs(orig, now, ManagedDirsFor(group)) && Unhindered(orig, group)
    ensures Unhindered(now, group)
  {
    AreaOfACheckout(now, group);
    StillOrdinary(orig, now, ManagedDirsFor(group));
    StateFilesAreElsewhere(orig, now, group);
    hide CachePathFor, ManagedDirsFor, CheckedOut, DirsStillAs, Ordinary, WellFormed;
  }

  lemma CacheStaysOrdinary(a: Files, b: Files, group: Option<RemoteGroup>)
    requires Only(a, b, BackupZone()) && Ordinary(a, CachePathFor(group))
    ensures Ordinary(b, CachePathFor(group))
  {
    var cache := CachePathFor(group);
    forall rel ensures At(b, cache, rel) != Some(Special) {
      assert (cache + rel)[2] == cache[2] != "backup" == BACKUP[2];
      assert Agree(a, b, cache + rel) && At(a, cache, rel) != Some(Special);
    }
  }

  /** One more of the steps that prepare an update. */
  lemma StillPreparing(orig: Files, before: Files, now: Files, group: Option<RemoteGroup>)
    requires Only(orig, before, CacheZone(group) + BackupZone()) && WellFormed(now)
    requires Only(before, now, CacheZone(group)) || Only(before, now, BackupZone())
    ensures Only(orig, now, CacheZone(group) + BackupZone())
    ensures DirsStillAs(orig, now, ManagedDirsFor(group))
    ensures Agree(orig, now, STATE) && LoadedState(now) == LoadedState(orig)
    ensures CheckedOut(now, group).Some? && Unhindered(orig, group) ==> Unhindered(now, group)
  {
    var zone := CacheZone(group) + BackupZone();
    ZonesInRunArea(group);
    if Only(before, now, BackupZone()) {
      Wider(before, now, BackupZone(), zone);
    } else {
      Wider(before, now, CacheZone(group), zone);
    }
    OnlyThrough(orig, before, now, zone);
    Wider(orig, now, zone, RunZone());
    RunAreaKeepsDirs(orig, now, ManagedDirsFor(group));
    StateFilesAreElsewhere(orig, now, group);
    SameStateFile(orig, now);
    if CheckedOut(now, group).Some? && Unhindered(orig, group) {
      StillUnhindered(orig, now, group);
    }
  }

  /** Fetch, read the state on record, and check the target out. */
  method Resolve(w: Workspace, group: Option<RemoteGroup>) returns (resolved: Option<Resolved>, previous: Option<ProjectState>)
    requires w.Valid()
    modifies w`fs
    ensures w.Valid() && Only(old(w.fs), w.fs, CacheZone(group) + BackupZone())
    ensures DirsStillAs(old(w.fs), w.fs, ManagedDirsFor(group)) && Agree(old(w.fs), w.fs, STATE)
    ensures resolved.Some? ==> LoadedState(w.fs) == if previous.Some? then HasState(previous.value) else NoState
    ensures resolved.Some? ==> CheckedOut(w.fs, group) == resolved && Ordinary(w.fs, CachePathFor(group))
    ensures w.reliable && Unhindered(old(w.fs), group) && LoadedState(old(w.fs)) != Unreadable ==> resolved.Some?
    ensures resolved.Some? && Unhindered(old(w.fs), group) ==> Unhindered(w.fs, group)
  {
    ghost var orig := w.fs;
    assert Only(orig, orig, CacheZone(group) + BackupZone());
    hide Only, DirsStillAs, CheckedOut, Ordinary, CanReplace, WellFormed;
    var fetched := PrepareCheckout(w, group);
    StillPreparing(orig, orig, w.fs, group);
    if fetched == None {
      return None, None;
    }
    var loaded := LoadState(w);
    if loaded == None {
      return None, None;
    }
    previous := loaded.value;
    ghost var loadedFrom := w.fs;
    resolved := PrepareCheckout(w, group);
    StillPreparing(orig, loadedFrom, w.fs, group);
  }

  /** The steps up to the comparison touch nothing but the runtime area. */
  method Prepare(w: Workspace, group: Option<RemoteGroup>)
    returns (resolved: Option<Resolved>, previous: Option<ProjectState>, changed: bool)
    requires w.Valid()
    modifies w`fs
    ensures w.Valid() && Only(old(w.fs), w.fs, CacheZone(group) + BackupZone())
    ensures DirsStillAs(old(w.fs), w.fs, ManagedDirsFor(group)) && Agree(old(w.fs), w.fs, STATE)
    ensures resolved.Some? ==> LoadedState(w.fs) == if previous.Some? then HasState(previous.value) else NoState
    ensures resolved.Some? && changed ==> BackupInPlace(w.fs, old(w.fs), w.resolves, ManagedDirsFor(group))
    ensures resolved.Some? && !changed ==> forall d | d in ManagedDirsFor(group) ::
      SameView(w.fs, w.resolves, CachePathFor(group) + [d], [d])
    ensures resolved.Some? && changed ==> Differed(old(w.fs), w.fs, w.resolves, group)
    ensures resolved.Some? ==> CheckedOut(w.fs, group) == resolved && Ordinary(w.fs, CachePathFor(group))
    ensures w.reliable && Unhindered(old(w.fs), group) && LoadedState(old(w.fs)) != Unreadable ==> resolved.Some?
    ensures resolved.Some? && Unhindered(old(w.fs), group) ==> Unhindered(w.fs, group)
  {
    ghost var orig := w.fs;
    var dirs := ManagedDirsFor(group);
    hide Only, DirsStillAs, CheckedOut, Ordinary, CanReplace, WellFormed, BackupInPlace, Differs, CanBackUpAll, SameView;
    resolved, previous := Resolve(w, group);
    changed := false;
    if resolved == None {
      return;
    }
    ghost var checkedOut := w.fs;
    var differ := CompareAndBackup(w, CachePathFor(group), dirs);
    CacheStaysOrdinary(checkedOut, w.fs, group);
    Wider(checkedOut, w.fs, BackupZone(), DirsZone(dirs) + StateZone() + BackupZone());
    CheckoutStays(checkedOut, w.fs, group);
    StillPreparing(orig, checkedOut, w.fs, group);
    if differ == None {
      return None, None, false;
    }
    changed := differ.value;
    if changed {
      BackupOfTheOriginal(orig, checkedOut, w.fs, w.resolves, dirs);
      CheckoutOutlives(checkedOut, w.fs, group);
    }
  }

  method ApplyOrRollBack(w: Workspace, group: Option<RemoteGroup>, result: UpdateResult,
                         previous: Option<ProjectState>, ghost orig: Files) returns (r: SyncOutcome)
    requires w.Valid() && WellFormed(orig) && DirsStillAs(orig, w.fs, ManagedDirsFor(group))
    requires LoadedState(w.fs) == if previous.Some? then HasState(previous.value) else NoState
    requires result.changed ==> BackupInPlace(w.fs, orig, w.resolves, ManagedDirsFor(group))
    requires !result.changed ==> forall d | d in ManagedDirsFor(group) ::
      SameView(w.fs, w.resolves, CachePathFor(group) + [d], [d])
    modifies w`fs
    ensures w.Valid() && Only(old(w.fs), w.fs, DirsZone(ManagedDirsFor(group)) + StateZone())
    ensures r.Synced? ==> r.result == result && NextState(KnownState(old(w.fs)), group, result).Some?
    ensures r.Synced? ==> LoadedState(w.fs) == HasState(NextState(KnownState(old(w.fs)), group, result).value)
    ensures r.Synced? ==> forall d | d in ManagedDirsFor(group) ::
      Installed(w.fs, w.resolves, CachePathFor(group), d, result.changed)
    ensures r.Synced? && result.changed ==> BackupInPlace(w.fs, orig, w.resolves, ManagedDirsFor(group))
    ensures r.Synced? && !result.changed ==> DirsStillAs(orig, w.fs, ManagedDirsFor(group))
    ensures r == SyncError(false) ==> DirsRolledBack(orig, w.fs, w.resolves, ManagedDirsFor(group))
    ensures r == SyncError(false) ==> LoadedState(w.fs) == LoadedState(old(w.fs))
    ensures w.reliable && CanRecord(old(w.fs), group) && Ordinary(old(w.fs), CachePathFor(group)) ==> r.Synced?
    ensures w.reliable && CanReplace(old(w.fs), STATE, STATE_TMP) && CanBackUpAll(orig, ManagedDirsFor(group)) ==>
      r != SyncError(true)
    ensures r.Synced? ==> CanReplace(w.fs, STATE, STATE_TMP)
  {
    var dirs, remote, changed := ManagedDirsFor(group), CachePathFor(group), result.changed;
    ghost var compared := w.fs;
    var ok := Apply(w, group, remote, result);
    ghost var applied := w.fs;
    if changed {
      BackupOutlivesApply(orig, compared, applied, w.resolves, dirs);
    } else {
      StateKeepsDirs(orig, compared, applied, dirs);
    }
    if ok {
      forall d | d in dirs
        ensures Installed(w.fs, w.resolves, remote, d, changed)
      {
        InstalledAfterApply(compared, w.fs, w.resolves, group, d, changed);
      }
      return Synced(result);
    }
    if changed && CanReplace(applied, STATE, STATE_TMP) && CanBackUpAll(orig, dirs) {
      UpdateCanBeUndone(applied, orig, w.resolves, dirs);
    }
    var undone := RollbackPartialUpdate(w, previous, changed, group, orig);
    if !changed {
      StateKeepsDirs(orig, applied, w.fs, dirs);
    }
    return SyncError(!undone);
  }

  lemma StateKeepsDirs(orig: Files, a: Files, b: Files, dirs: seq<Name>)
    requires Scope(dirs) && DirsStillAs(orig, a, dirs) && Only(a, b, StateZone())
    ensures DirsStillAs(orig, b, dirs)
  {
    ZonesInRunArea(None);
    Wider(a, b, StateZone(), RunZone());
    RunAreaKeepsDirs(a, b, dirs);
  }

  lemma SameStateFile(a: Files, b: Files)
    requires Agree(a, b, STATE)
    ensures LoadedState(a) == LoadedState(b)
  {
  }

  lemma StillIsRolledBack(before: Files, after: Files, resolves: Resolver, dirs: seq<Name>)
    requires DirsStillAs(before, after, dirs)
    ensures DirsRolledBack(before, after, resolves, dirs)
  {
  }

  /** The state records what is checked out, and `result` reports it, and what was recorded before. */
  ghost predicate RecordsCheckout(before: Files, fs: Files, requested: Option<string>, group: Option<RemoteGroup>,
                                  result: UpdateResult)
  {
    && CheckedOut(fs, group) == Some(Resolved(result.version, result.tag, result.toRevision))
    && KnownState(fs).Some?
    && EntryFor(KnownState(fs).value, group) == Some(GroupState(result.version, result.tag, result.toRevision))
    && result.fromRevision == RevisionFor(KnownState(before), group)
    && result.requested == requested && result.group == group
  }

  lemma DifferedThroughApply(before: Files, prepared: Files, fs: Files, resolves: Resolver, group: Option<RemoteGroup>)
    requires Only(prepared, fs, DirsZone(ManagedDirsFor(group)) + StateZone())
    requires Differed(before, prepared, resolves, group)
    ensures Differed(before, fs, resolves, group)
  {
    var zone := DirsZone(ManagedDirsFor(group)) + StateZone();
    Wider(prepared, fs, zone, zone + BackupZone());
    CheckoutOutlives(prepared, fs, group);
    StillDiffered(before, prepared, fs, resolves, group);
  }

  lemma CheckoutRecorded(before: Files, prepared: Files, fs: Files, requested: Option<string>, group: Option<RemoteGroup>,
                         result: UpdateResult)
    requires Only(prepared, fs, DirsZone(ManagedDirsFor(group)) + StateZone())
    requires CheckedOut(prepared, group) == Some(Resolved(result.version, result.tag, result.toRevision))
    requires result.fromRevision == RevisionFor(KnownState(before), group)
    requires result.requested == requested && result.group == group
    requires NextState(KnownState(before), group, result).Some?
    requires LoadedState(fs) == HasState(NextState(KnownState(before), group, result).value)
    ensures RecordsCheckout(before, fs, requested, group, result)
  {
    var zone := DirsZone(ManagedDirsFor(group)) + StateZone();
    Wider(prepared, fs, zone, zone + BackupZone());
    CheckoutStays(prepared, fs, group);
    NextStateRecords(KnownState(before), group, result);
  }

  lemma StillRecordable(orig: Files, prepared: Files, group: Option<RemoteGroup>)
    requires LoadedState(prepared) == LoadedState(orig) && Unhindered(prepared, group)
    ensures CanUpdate(orig, group) ==> CanRecord(prepared, group)
    ensures CanReplace(prepared, STATE, STATE_TMP)
  {
  }

  lemma CanUpdateMeans(fs: Files, group: Option<RemoteGroup>)
    ensures Unhindered(fs, group) ==> CanBackUpAll(fs, ManagedDirsFor(group))
    ensures CanUpdate(fs, group) ==> Unhindered(fs, group) && LoadedState(fs) != Unreadable
  {
  }

  /** What an update recorded over could be recorded over. */
  lemma RecordedWasFree(fs: Files, group: Option<RemoteGroup>, result: UpdateResult, previous: Option<ProjectState>)
    requires NextState(KnownState(fs), group, result).Some?
    requires LoadedState(fs) == if previous.Some? then HasState(previous.value) else NoState
    ensures Unhindered(fs, group) ==> CanUpdate(fs, group)
  {
  }

  /**
   `sync_project_remote_with_repo_inner`. Whichever step fails: an error whose rollback went
   through leaves the scoped directories and the parsed state as they were, and a success has
   installed the checkout and recorded it.
   */
  method Sync(w: Workspace, group: Option<RemoteGroup>, requested: Option<string>) returns (r: SyncOutcome)
    requires w.Valid()
    modifies w`fs
    ensures w.Valid() && Only(old(w.fs), w.fs, UpdateZone(group))
    ensures r.Synced? ==> forall d | d in ManagedDirsFor(group) ::
      Installed(w.fs, w.resolves, CachePathFor(group), d, r.result.changed)
    ensures r.Synced? ==> NextState(KnownState(old(w.fs)), group, r.result).Some?
    ensures r.Synced? ==> LoadedState(w.fs) == HasState(NextState(KnownState(old(w.fs)), group, r.result).value)
    ensures r.Synced? ==> RecordsCheckout(old(w.fs), w.fs, requested, group, r.result)
    ensures r.Synced? && r.result.changed ==> Differed(old(w.fs), w.fs, w.resolves, group)
    ensures r.Synced? && r.result.changed ==> BackupInPlace(w.fs, old(w.fs), w.resolves, ManagedDirsFor(group))
    ensures r.Synced? && !r.result.changed ==> DirsStillAs(old(w.fs), w.fs, ManagedDirsFor(group))
    ensures r == SyncError(false) ==> DirsRolledBack(old(w.fs), w.fs, w.resolves, ManagedDirsFor(group))
    ensures r == SyncError(false) ==> LoadedState(w.fs) == LoadedState(old(w.fs))
    ensures w.reliable && CanUpdate(old(w.fs), group) ==> r.Synced?
    ensures w.reliable && Unhindered(old(w.fs), group) ==> r != SyncError(true)
    ensures r.Synced? && Unhindered(old(w.fs), group) ==> CanUpdate(old(w.fs), group)
    ensures r.Synced? ==> CanReplace(w.fs, STATE, STATE_TMP)
  {
    hide BackupInPlace, DirsRolledBack, SameView, Installed, NextState, DirsStillAs, LoadedState, CheckedOut, RecordsCheckout,
         RevisionFor, Differed, Unhindered, CanBackUpAll, CanUpdate, CanRecord, CanReplace, Ordinary;
    ghost var orig := w.fs;
    ghost var dirs := ManagedDirsFor(group);
    var resolved, previous, changed := Prepare(w, group);
    ghost var prepared := w.fs;
    Wider(orig, prepared, CacheZone(group) + BackupZone(), UpdateZone(group));
    SameStateFile(orig, prepared);
    StillIsRolledBack(orig, prepared, w.resolves, dirs);
    CanUpdateMeans(orig, group);
    if resolved == None {
      return SyncError(false);
    }
    if Unhindered(orig, group) {
      StillRecordable(orig, prepared, group);
    }
    var target := resolved.value;
    var from := RevisionFor(previous, group);
    var result := UpdateResult(requested, target.version, target.tag, from, target.revision, changed, group);
    r := ApplyOrRollBack(w, group, result, previous, orig);
    Wider(prepared, w.fs, DirsZone(dirs) + StateZone(), UpdateZone(group));
    if r.Synced? {
      RecordedWasFree(orig, group, result, previous);
      CheckoutRecorded(orig, prepared, w.fs, requested, group, result);
      if changed {
        DifferedThroughApply(orig, prepared, w.fs, w.resolves, group);
      }
    }
  }

  /** `from_revision`: what the state says of this group. */
  function RevisionFor(previous: Option<ProjectState>, group: Option<RemoteGroup>): Option<string> {
    match previous
    case None => None
    case Some(Single(_, _, revision)) => Some(revision)
    case Some(Dual(models, infra)) =>
      match group
      case None => None
      case Some(Models) => if models.Some? then Some(models.value.revision) else None
      case Some(Infra) => if infra.Some? then Some(infra.value.revision) else None
  }

  /**
   What an update reports as the revision before it is what was recorded for its group, except that
   a single state counts for each group that is asked for.
   */
  lemma RevisionForExactly(state: ProjectState, group: Option<RemoteGroup>)
    ensures RevisionFor(None, group) == None
    ensures state.Dual? || group == None ==>
      RevisionFor(Some(state), group) ==
      match EntryFor(state, group) { case Some(entry) => Some(entry.revision) case None => None }
    ensures state.Single? ==> RevisionFor(Some(state), group) == Some(EntryFor(state, None).value.revision)
  {
  }

  // ---- the safe update ----

  /** What is captured before an update: the bytes of the state file, and the group. */
  datatype Snapshot = Snapshot(stateFile: Option<Content>, group: Option<RemoteGroup>)

  method CaptureSnapshot(w: Workspace, group: Option<RemoteGroup>) returns (r: Option<Snapshot>)
    requires w.Valid()
    ensures r.Some? ==> r.value.group == group && FileIs(w.fs, STATE, r.value.stateFile)
    ensures w.reliable && CanReplace(w.fs, STATE, STATE_TMP) ==> r.Some?
  {
    var stateFile := ReadOptionalFile(w, STATE);
    return if stateFile.Some? then Some(Snapshot(stateFile.value, group)) else None;
  }

  /** `restore_project_remote_update`, on the backup that the update being undone made of `before`. */
  method RestoreUpdate(w: Workspace, snapshot: Snapshot, changed: bool, ghost before: Files) returns (ok: bool)
    requires w.Valid() && WellFormed(before)
    requires changed ==> BackupInPlace(w.fs, before, w.resolves, ManagedDirsFor(snapshot.group))
    requires !changed ==> DirsStillAs(before, w.fs, ManagedDirsFor(snapshot.group))
    modifies w`fs
    ensures w.Valid() && Only(old(w.fs), w.fs, DirsZone(ManagedDirsFor(snapshot.group)) + StateZone())
    ensures ok ==> DirsRolledBack(before, w.fs, w.resolves, ManagedDirsFor(snapshot.group))
    ensures ok ==> FileIs(w.fs, STATE, snapshot.stateFile)
    ensures w.reliable && CanRollBack(old(w.fs), ManagedDirsFor(snapshot.group), changed) ==> ok
    ensures ok && CanReplace(old(w.fs), STATE, STATE_TMP) ==> CanReplace(w.fs, STATE, STATE_TMP)
  {
    hide BackupInPlace, CanReplace, LoadedState;
    var dirs := ManagedDirsFor(snapshot.group);
    ok := RestoreChanged(w, dirs, changed, before);
    if !ok {
      return;
    }
    if !changed {
      StillIsRolledBack(before, w.fs, w.resolves, dirs);
    }
    ghost var restored := w.fs;
    ok := RestoreStateFile(w, snapshot.stateFile);
    ZonesInRunArea(snapshot.group);
    Wider(restored, w.fs, StateZone(), RunZone());
    RunAreaKeepsRolledBack(before, restored, w.fs, w.resolves, dirs);
  }

  lemma UpdateCanBeUndone(fs: Files, before: Files, resolves: Resolver, dirs: seq<Name>)
    requires Scope(dirs) && BackupInPlace(fs, before, resolves, dirs) && CanBackUpAll(before, dirs)
    requires CanReplace(fs, STATE, STATE_TMP)
    ensures CanRollBack(fs, dirs, true)
  {
    BackupCanBeRestored(fs, before, resolves, dirs);
  }

  /** An update was in place, and its configuration did not load. */
  ghost predicate CheckRefused(before: Files, resolves: Resolver, loads: Files -> bool, requested: Option<string>,
                               group: Option<RemoteGroup>)
  {
    exists synced: Files, result: UpdateResult ::
      !loads(synced) && InPlace(before, synced, resolves, requested, group, result)
  }

  /** The checkout is installed and on record. */
  ghost predicate InPlace(before: Files, fs: Files, resolves: Resolver, requested: Option<string>,
                          group: Option<RemoteGroup>, result: UpdateResult)
  {
    && Only(before, fs, UpdateZone(group))
    && (forall d | d in ManagedDirsFor(group) :: Installed(fs, resolves, CachePathFor(group), d, result.changed))
    && RecordsCheckout(before, fs, requested, group, result)
  }

  datatype UpdateOutcome =
    | Updated(result: UpdateResult)
    | NotStarted
    | SyncFailed(rollbackFailed: bool)
    | CheckFailed(rollbackFailed: bool)

  /**
   `run_remote_update_locked`. The scoped directories are rolled back on every error whose
   rollback went through; the state is the same bytes after a failed check, and the same parsed
   state after a failed synchronisation.
   */
  method RunRemoteUpdateLocked(w: Workspace, requested: Option<string>, group: Option<RemoteGroup>, snapshot: Snapshot)
    returns (r: UpdateOutcome)
    requires w.Valid() && snapshot.group == group && FileIs(w.fs, STATE, snapshot.stateFile)
    modifies w`fs
    ensures w.Valid() && Only(old(w.fs), w.fs, UpdateZone(group)) && !r.NotStarted?
    ensures r.Updated? ==> forall d | d in ManagedDirsFor(group) ::
      Installed(w.fs, w.resolves, CachePathFor(group), d, r.result.changed)
    ensures r.Updated? ==> NextState(KnownState(old(w.fs)), group, r.result).Some?
    ensures r.Updated? ==> LoadedState(w.fs) == HasState(NextState(KnownState(old(w.fs)), group, r.result).value)
    ensures r.Updated? ==> RecordsCheckout(old(w.fs), w.fs, requested, group, r.result)
    ensures r.Updated? && r.result.changed ==> BackupInPlace(w.fs, old(w.fs), w.resolves, ManagedDirsFor(group))
    ensures r.Updated? && !r.result.changed ==> DirsStillAs(old(w.fs), w.fs, ManagedDirsFor(group))
    ensures r == SyncFailed(false) || r == CheckFailed(false) ==>
      DirsRolledBack(old(w.fs), w.fs, w.resolves, ManagedDirsFor(group))
    ensures r == SyncFailed(false) ==> LoadedState(w.fs) == LoadedState(old(w.fs))
    ensures r == CheckFailed(false) ==> FileIs(w.fs, STATE, snapshot.stateFile)
    ensures r.Updated? && r.result.changed ==> Differed(old(w.fs), w.fs, w.resolves, group)
    ensures r.Updated? ==> w.loads(w.fs)
    ensures r.CheckFailed? ==> CheckRefused(old(w.fs), w.resolves, w.loads, requested, group)
    ensures w.reliable && Unhindered(old(w.fs), group) ==>
      if CanUpdate(old(w.fs), group) then r.Updated? || r == CheckFailed(false) else r == SyncFailed(false)
    ensures r.Updated? && Unhindered(old(w.fs), group) ==> CanRollBack(w.fs, ManagedDirsFor(group), r.result.changed)
  {
    hide BackupInPlace, Differed, DirsRolledBack, Installed, NextState, DirsStillAs, LoadedState, RecordsCheckout, FileIs, CanReplace,
         CanBackUpAll, CanRecord, CanUpdate;
    var sync := Sync(w, group, requested);
    if sync.SyncError? {
      return SyncFailed(sync.rollbackFailed);
    }
    ghost var synced := w.fs;
    if Unhindered(old(w.fs), group) && sync.result.changed {
      UpdateCanBeUndone(synced, old(w.fs), w.resolves, ManagedDirsFor(group));
    }
    if w.loads(w.fs) {
      return Updated(sync.result);
    }
    assert InPlace(old(w.fs), synced, w.resolves, requested, group, sync.result);
    var undone := RestoreUpdate(w, snapshot, sync.result.changed, old(w.fs));
    Wider(synced, w.fs, DirsZone(ManagedDirsFor(group)) + StateZone(), UpdateZone(group));
    return CheckFailed(!undone);
  }

  /** `run_remote_update`, with the lock held. */
  method RunRemoteUpdate(w: Workspace, requested: Option<string>, group: Option<RemoteGroup>) returns (r: UpdateOutcome)
    requires w.Valid()
    modifies w`fs
    ensures w.Valid() && Only(old(w.fs), w.fs, UpdateZone(group))
    ensures r.NotStarted? ==> w.fs == old(w.fs)
    ensures r.Updated? ==> forall d | d in ManagedDirsFor(group) ::
      Installed(w.fs, w.resolves, CachePathFor(group), d, r.result.changed)
    ensures r.Updated? ==> NextState(KnownState(old(w.fs)), group, r.result).Some?
    ensures r.Updated? ==> LoadedState(w.fs) == HasState(NextState(KnownState(old(w.fs)), group, r.result).value)
    ensures r.Updated? ==> RecordsCheckout(old(w.fs), w.fs, requested, group, r.result)
    ensures r == SyncFailed(false) || r == CheckFailed(false) ==>
      DirsRolledBack(old(w.fs), w.fs, w.resolves, ManagedDirsFor(group))
    ensures r == SyncFailed(false) || r == CheckFailed(false) ==> LoadedState(w.fs) == LoadedState(old(w.fs))
    ensures r == CheckFailed(false) ==> (STATE in w.fs <==> STATE in old(w.fs))
    ensures r == CheckFailed(false) && STATE in w.fs ==>
      w.fs[STATE].File? && old(w.fs)[STATE].File? && w.fs[STATE].content == old(w.fs)[STATE].content
    ensures r.Updated? && r.result.changed ==> Differed(old(w.fs), w.fs, w.resolves, group)
    ensures r.Updated? ==> w.loads(w.fs)
    ensures r.CheckFailed? ==> CheckRefused(old(w.fs), w.resolves, w.loads, requested, group)
    ensures w.reliable && Unhindered(old(w.fs), group) ==>
      if CanUpdate(old(w.fs), group) then r.Updated? || r == CheckFailed(false) else r == SyncFailed(false)
  {
    hide Differed;
    var snapshot := CaptureSnapshot(w, group);
    if snapshot == None {
      return NotStarted;
    }
    r := RunRemoteUpdateLocked(w, requested, group, snapshot.value);
  }

  // ---- what the contracts above mean ----

  /** With no dangling root, a rolled-back scope is unchanged, path by path. */
  lemma RolledBackIsUnchanged(before: Files, after: Files, resolves: Resolver, dirs: seq<Name>)
    requires DirsRolledBack(before, after, resolves, dirs)
    requires forall d | d in dirs :: !DanglingRoot(before, resolves, d)
    ensures DirsUnchanged(before, after, dirs)
  {
    SameRootsIsUnchanged(before, after, dirs);
  }

  /** The checkout's directory is itself a link that leads nowhere, so it is copied as if it were not there. */
  ghost predicate LostRoot(fs: Files, resolves: Resolver, remote: Path, d: Name) {
    remote + [d] in fs && !Exists(fs, resolves, remote + [d])
  }

  /** Wherever neither side leads anywhere, both have the same link or nothing. */
  ghost predicate HiddenAlike(fs: Files, resolves: Resolver, left: Path, right: Path) {
    forall rel | !Exists(fs, resolves, left + rel) && !Exists(fs, resolves, right + rel) ::
      At(fs, left, rel) == At(fs, right, rel)
  }

  lemma NeitherShows(fs: Files, resolves: Resolver, p: Path, q: Path)
    requires !Exists(fs, resolves, p) && Shows(fs, resolves, p) == Shows(fs, resolves, q)
    ensures !Exists(fs, resolves, q)
  {
  }

  lemma ShownAlike(fs: Files, resolves: Resolver, p: Path, q: Path)
    requires Exists(fs, resolves, p) || Exists(fs, resolves, q)
    requires Shows(fs, resolves, p) == Shows(fs, resolves, q)
    ensures p in fs && q in fs && Contents(Some(fs[p])) == Contents(Some(fs[q]))
  {
  }

  /** Where either side leads somewhere, looking the same is having the same contents. */
  lemma SeenIsContents(fs: Files, resolves: Resolver, left: Path, right: Path, rel: Path)
    requires WellFormed(fs) && SameView(fs, resolves, left, right)
    requires Exists(fs, resolves, left + rel) || Exists(fs, resolves, right + rel)
    ensures Contents(At(fs, left, rel)) == Contents(At(fs, right, rel))
  {
    hide Shows, Contents;
    if rel == [] {
      assert left + rel == left && right + rel == right;
      ShownAlike(fs, resolves, left, right);
    } else if Exists(fs, resolves, left) {
      assert BothOrNeither(fs, resolves, left, right, rel);
      ShownAlike(fs, resolves, left + rel, right + rel);
    } else {
      assert !Exists(fs, resolves, right) by {
        NeitherShows(fs, resolves, left, right);
      }
      NothingBelow(fs, left, rel);
      NothingBelow(fs, right, rel);
    }
  }

  /** A node that leads nowhere is a link or nothing, so its contents are the node. */
  lemma HiddenIsContents(fs: Files, resolves: Resolver, left: Path, right: Path, rel: Path)
    requires !Exists(fs, resolves, left + rel) && !Exists(fs, resolves, right + rel)
    ensures Contents(At(fs, left, rel)) == Contents(At(fs, right, rel)) <==> At(fs, left, rel) == At(fs, right, rel)
  {
  }

  /** Two sides that compare equal have the same contents exactly when what leads nowhere agrees. */
  lemma ViewIsContentsExactly(fs: Files, resolves: Resolver, left: Path, right: Path)
    requires WellFormed(fs) && SameView(fs, resolves, left, right)
    ensures SameContents(fs, left, fs, right) <==> HiddenAlike(fs, resolves, left, right)
  {
    hide SameView, Exists, Contents, At;
    forall rel: Path
      ensures Contents(At(fs, left, rel)) == Contents(At(fs, right, rel)) <==>
        Exists(fs, resolves, left + rel) || Exists(fs, resolves, right + rel) || At(fs, left, rel) == At(fs, right, rel)
    {
      if Exists(fs, resolves, left + rel) || Exists(fs, resolves, right + rel) {
        SeenIsContents(fs, resolves, left, right, rel);
      } else {
        HiddenIsContents(fs, resolves, left, right, rel);
      }
    }
  }

  /** What leads somewhere on one side does so on the other. */
  ghost predicate LeadsAlike(fs: Files, resolves: Resolver, left: Path, right: Path) {
    forall rel :: Exists(fs, resolves, left + rel) <==> Exists(fs, resolves, right + rel)
  }

  lemma ViewLeadsAlike(fs: Files, resolves: Resolver, left: Path, right: Path)
    requires WellFormed(fs) && SameView(fs, resolves, left, right)
    ensures LeadsAlike(fs, resolves, left, right)
  {
    hide Shows;
    forall rel: Path ensures Exists(fs, resolves, left + rel) <==> Exists(fs, resolves, right + rel) {
      if Exists(fs, resolves, left + rel) || Exists(fs, resolves, right + rel) {
        if rel == [] {
          assert left + rel == left && right + rel == right;
        } else if !Exists(fs, resolves, left) {
          NeitherShows(fs, resolves, left, right);
          NothingBelow(fs, left, rel);
          NothingBelow(fs, right, rel);
        } else {
          assert BothOrNeither(fs, resolves, left, right, rel);
        }
        if !Exists(fs, resolves, left + rel) {
          NeitherShows(fs, resolves, left + rel, right + rel);
        } else if !Exists(fs, resolves, right + rel) {
          NeitherShows(fs, resolves, right + rel, left + rel);
        }
      }
    }
  }

  /** At one place, the same contents that lead somewhere on both sides or on neither look the same. */
  lemma ContentsShow(fs: Files, resolves: Resolver, left: Path, right: Path, rel: Path)
    requires SameContents(fs, left, fs, right) && LeadsAlike(fs, resolves, left, right)
    ensures left + rel in fs <==> right + rel in fs
    ensures Shows(fs, resolves, left + rel) == Shows(fs, resolves, right + rel)
  {
    assert Contents(At(fs, left, rel)) == Contents(At(fs, right, rel));
    assert Exists(fs, resolves, left + rel) <==> Exists(fs, resolves, right + rel);
  }

  /**
   Two sides with the same contents compare equal exactly when no link leads somewhere on one of
   them and nowhere on the other.
   */
  lemma ContentsAreSeenExactly(fs: Files, resolves: Resolver, left: Path, right: Path)
    requires WellFormed(fs) && SameContents(fs, left, fs, right)
    ensures SameView(fs, resolves, left, right) <==> LeadsAlike(fs, resolves, left, right)
  {
    if LeadsAlike(fs, resolves, left, right) {
      assert left + [] == left && right + [] == right;
      ContentsShow(fs, resolves, left, right, []);
      forall rel | rel != [] ensures BothOrNeither(fs, resolves, left, right, rel) {
        ContentsShow(fs, resolves, left, right, rel);
      }
    } else if SameView(fs, resolves, left, right) {
      ViewLeadsAlike(fs, resolves, left, right);
    }
  }

  /** Both halves in one, for any two paths. */
  lemma ViewAgainstContents(fs: Files, resolves: Resolver, left: Path, right: Path)
    requires WellFormed(fs)
    ensures SameView(fs, resolves, left, right) && HiddenAlike(fs, resolves, left, right) <==>
            SameContents(fs, left, fs, right) && LeadsAlike(fs, resolves, left, right)
  {
    hide HiddenAlike, LeadsAlike, SameContents;
    if SameView(fs, resolves, left, right) {
      ViewIsContentsExactly(fs, resolves, left, right);
      ViewLeadsAlike(fs, resolves, left, right);
    }
    if SameContents(fs, left, fs, right) {
      ContentsAreSeenExactly(fs, resolves, left, right);
      if SameView(fs, resolves, left, right) {
        ViewIsContentsExactly(fs, resolves, left, right);
      }
    }
  }

  /**
   When an installed directory has the names, bytes and link targets of the checkout's: after a
   change, unless the checkout's directory is a dangling link; without one, exactly if the dangling
   links were the same already.
   */
  lemma InstalledExactly(fs: Files, resolves: Resolver, remote: Path, d: Name, changed: bool)
    requires WellFormed(fs) && Installed(fs, resolves, remote, d, changed)
    ensures SameContents(fs, remote + [d], fs, [d]) <==>
      if changed then !LostRoot(fs, resolves, remote, d) else HiddenAlike(fs, resolves, remote + [d], [d])
  {
    if !changed {
      ViewIsContentsExactly(fs, resolves, remote + [d], [d]);
    } else if Exists(fs, resolves, remote + [d]) {
      assert SameTree(fs, [d], fs, remote + [d]);
      assert forall rel :: At(fs, [d], rel) == At(fs, remote + [d], rel);
    } else if remote + [d] in fs {
      assert remote + [d] + [] == remote + [d];
      assert At(fs, [d], []) == None;
      assert Contents(At(fs, remote + [d], [])) != Contents(At(fs, [d], []));
    } else {
      MissingIsAbsent(fs, remote + [d]);
      assert forall rel :: At(fs, [d], rel) == At(fs, remote + [d], rel);
    }
  }

  /** So where no link dangles, an installed directory is the checkout's. */
  lemma InstalledIsTheCheckout(fs: Files, resolves: Resolver, remote: Path, d: Name, changed: bool)
    requires WellFormed(fs) && Installed(fs, resolves, remote, d, changed)
    requires NoDanglingLinks(fs, resolves, remote + [d])
    requires !changed ==> NoDanglingLinks(fs, resolves, [d])
    ensures SameContents(fs, remote + [d], fs, [d])
  {
    InstalledExactly(fs, resolves, remote, d, changed);
    if !changed {
      forall rel | !Exists(fs, resolves, remote + [d] + rel) && !Exists(fs, resolves, [d] + rel)
        ensures At(fs, remote + [d], rel) == At(fs, [d], rel)
      {
        assert remote + [d] <= remote + [d] + rel && [d] <= [d] + rel;
      }
    }
  }

  /**
   Compared again after a success, the two look the same exactly when no link leads somewhere in
   one place only. A link that does is reported as a change, and replaced, by every update.
   */
  lemma QuietAfterInstallExactly(fs: Files, resolves: Resolver, remote: Path, d: Name, changed: bool)
    requires WellFormed(fs) && Installed(fs, resolves, remote, d, changed)
    ensures SameView(fs, resolves, remote + [d], [d]) <==> LeadsAlike(fs, resolves, remote + [d], [d])
  {
    if !changed {
      ViewLeadsAlike(fs, resolves, remote + [d], [d]);
    } else if LostRoot(fs, resolves, remote, d) {
      assert [d] + [] == [d] && At(fs, [d], []) == None;
      assert SameView(fs, resolves, remote + [d], [d]);
      ViewLeadsAlike(fs, resolves, remote + [d], [d]);
    } else {
      InstalledExactly(fs, resolves, remote, d, changed);
      ContentsAreSeenExactly(fs, resolves, remote + [d], [d]);
    }
  }

  lemma InUpdateZone(group: Option<RemoteGroup>, p: Path)
    requires p in UpdateZone(group)
    ensures p != []
    ensures p[0] in ManagedDirsFor(group) || p[0] == ".run"
    ensures p[0] !in ManagedDirsFor(group) && |p| >= 2 ==> p[1] in {STATE[1], STATE_TMP[1], "project_remote"}
  {
    hide ManagedDirsFor, CachePathFor;
    if p in BackupZone() {
      assert p == RUN || p == REMOTE_AREA || p[..3] == BACKUP;
    } else if p in StateZone() {
      assert p == RUN || p[..2] == STATE || p[..2] == STATE_TMP;
    } else if p !in DirsZone(ManagedDirsFor(group)) {
      assert p[..3] == CachePathFor(group);
    }
  }

  /** Nothing outside the update's zone can belong to another group or to the runtime's own files. */
  lemma UpdateStaysInScope(group: Option<RemoteGroup>, p: Path)
    ensures p != [] && p[0] != ".run" && p[0] !in ManagedDirsFor(group) ==> p !in UpdateZone(group)
    ensures |p| == 2 && p[0] == ".run" && p[1] != STATE[1] && p[1] != STATE_TMP[1] && p[1] != "project_remote"
      ==> p !in UpdateZone(group)
  {
    hide UpdateZone;
    assert ".run" !in ManagedDirsFor(group);
    if p in UpdateZone(group) {
      InUpdateZone(group, p);
    }
  }

  lemma BelowItsCache(g: Option<RemoteGroup>, h: Option<RemoteGroup>, p: Path)
    requires g != h && CachePathFor(g) <= p
    ensures !(CachePathFor(h) <= p) && p !in UpdateZone(h)
  {
    CachesApart(g, h);
    assert p[..3] == CachePathFor(g);
    assert p[0] == ".run" && p[1] == "project_remote" && p[2] == CachePathFor(g)[2];
    assert p[..3] != CachePathFor(h);
    assert !(CachePathFor(h) <= p);
    hide CachePathFor, ManagedDirsFor;
    assert STATE[1] != p[1] && STATE_TMP[1] != p[1] && BACKUP[2] != p[2];
    assert ".run" !in ManagedDirsFor(h);
  }

  /** So the updates of the two groups leave each other's directories and checkouts alone. */
  lemma GroupsStayApart(p: Path)
    ensures InDirs(ManagedDirsFor(Some(Models)), p) || CachePathFor(Some(Models)) <= p ==> p !in UpdateZone(Some(Infra))
    ensures InDirs(ManagedDirsFor(Some(Infra)), p) || CachePathFor(Some(Infra)) <= p ==> p !in UpdateZone(Some(Models))
  {
    hide UpdateZone, CachePathFor;
    if p != [] {
      GroupsDivideTheDirs(p[0]);
      UpdateStaysInScope(Some(Infra), p);
      UpdateStaysInScope(Some(Models), p);
    }
    if CachePathFor(Some(Models)) <= p {
      BelowItsCache(Some(Models), Some(Infra), p);
    }
    if CachePathFor(Some(Infra)) <= p {
      BelowItsCache(Some(Infra), Some(Models), p);
    }
  }

  // ---- where dangling links break the promise ----

  /** A link to the outside that leads somewhere from the work root only: the same on both sides, and taken for a change. */
  lemma OutwardLinkLooksChanged()
    ensures exists fs: Files, resolves: Resolver ::
      && WellFormed(fs) && SameContents(fs, CACHE + ["models"], fs, ["models"])
      && HiddenAlike(fs, resolves, CACHE + ["models"], ["models"])
      && !SameView(fs, resolves, CACHE + ["models"], ["models"])
  {
    var here, there := ["models"], CACHE + ["models"];
    var fs: Files := map[[] := Dir, RUN := Dir, REMOTE_AREA := Dir, CACHE := Dir,
                         here := Link("../shared"), there := Link("../shared")];
    var resolves: Resolver := (p, target) => p == ["models"];
    assert Parent(here) == [] && Parent(there) == CACHE && Parent(CACHE) == REMOTE_AREA
      && Parent(REMOTE_AREA) == RUN && Parent(RUN) == [];
    assert here + [] == here && there + [] == there && here != there;
    forall rel: Path ensures At(fs, there, rel) == At(fs, here, rel) {
      if rel != [] {
        NothingBelow(fs, there, rel);
        NothingBelow(fs, here, rel);
      }
    }
    assert Shows(fs, resolves, there) == Gone && Shows(fs, resolves, here) != Gone;
    assert !SameView(fs, resolves, there, here);
  }

  /**
   Two dangling links with different targets pass for equal, so an update that replaces one by
   the other is taken for no change and is not installed.
   */
  lemma DanglingLinksHideADifference()
    ensures exists fs: Files, resolves: Resolver ::
      && WellFormed(fs) && SameView(fs, resolves, CACHE + ["models"], ["models"])
      && !SameContents(fs, CACHE + ["models"], fs, ["models"])
  {
    var here, there := ["models"], CACHE + ["models"];
    var fs: Files := map[[] := Dir, RUN := Dir, REMOTE_AREA := Dir, CACHE := Dir,
                         here := Link("old"), there := Link("new")];
    var resolves: Resolver := (p, target) => false;
    assert Parent(here) == [] && Parent(there) == CACHE && Parent(CACHE) == REMOTE_AREA
      && Parent(REMOTE_AREA) == RUN && Parent(RUN) == [];
    assert SameView(fs, resolves, there, here);
    assert here + [] == here && there + [] == there;
    assert Contents(At(fs, there, [])) != Contents(At(fs, here, []));
  }

  ghost function WithBackup(fs: Files, manifest: Node): Files {
    fs[RUN := Dir][REMOTE_AREA := Dir][BACKUP := Dir][MANIFEST := manifest]
  }

  lemma BackupGrows(fs: Files, manifest: Node)
    requires WellFormed(fs) && forall p | p in fs :: p == [] || p[0] != ".run"
    ensures WellFormed(WithBackup(fs, manifest))
  {
    assert RUN[0] == REMOTE_AREA[0] == BACKUP[0] == MANIFEST[0] == ".run";
    assert Parent(MANIFEST) == BACKUP && Parent(BACKUP) == REMOTE_AREA && Parent(REMOTE_AREA) == RUN && Parent(RUN) == [];
    Grows(fs, RUN, Dir);
    Grows(fs[RUN := Dir], REMOTE_AREA, Dir);
    Grows(fs[RUN := Dir][REMOTE_AREA := Dir], BACKUP, Dir);
    Grows(fs[RUN := Dir][REMOTE_AREA := Dir][BACKUP := Dir], MANIFEST, manifest);
  }

  ghost function WithLink(): Files {
    map[[] := Dir, ["models"] := Link("gone")]
  }

  ghost function EmptyManifest(): Node {
    File(Document(EncodeManifest([]), PRETTY), NEW_FILE_MODE)
  }

  ghost function Nowhere(): Resolver {
    (p, target) => false
  }

  lemma LinkIsNotSaved(backed: Files, after: Files)
    requires backed == WithBackup(WithLink(), EmptyManifest())
    requires after == WithBackup(map[[] := Dir], EmptyManifest())
    ensures BackupInPlace(backed, WithLink(), Nowhere(), DIRS_MODELS)
    ensures Restored(after, backed, DIRS_MODELS, ExistingDirs(WithLink(), Nowhere(), DIRS_MODELS))
  {
    ExistingDirsListed(WithLink(), Nowhere(), DIRS_MODELS);
    assert ExistingDirs(WithLink(), Nowhere(), DIRS_MODELS) == [];
    ManifestRoundTrip([], PRETTY);
    forall rel
      ensures At(after, ["models"], rel) == None
    {
      assert (["models"] + rel)[0] == "models";
    }
  }

  /** A managed root that is a dangling link is in no backup, so a rollback removes it. */
  lemma DanglingRootIsLost()
    ensures exists before: Files, backed: Files, after: Files, resolves: Resolver ::
      && WellFormed(before) && WellFormed(backed) && WellFormed(after)
      && BackupInPlace(backed, before, resolves, DIRS_MODELS)
      && Restored(after, backed, DIRS_MODELS, ExistingDirs(before, resolves, DIRS_MODELS))
      && !DirsUnchanged(before, after, DIRS_MODELS)
  {
    var backed, after := WithBackup(WithLink(), EmptyManifest()), WithBackup(map[[] := Dir], EmptyManifest());
    assert Parent(["models"]) == [];
    BackupGrows(WithLink(), EmptyManifest());
    BackupGrows(map[[] := Dir], EmptyManifest());
    LinkIsNotSaved(backed, after);
    assert InDirs(DIRS_MODELS, ["models"]) && !Agree(WithLink(), after, ["models"]);
  }
}
