/** Removing and copying directory trees in place. */
module TreeCopy {
  import opened Wrappers
  import opened FileTree

  method RemovePath(w: Workspace, p: Path) returns (ok: bool)
    requires w.Valid() && p != []
    modifies w`fs
    ensures w.Valid() && Only(old(w.fs), w.fs, Below(p))
    ensures ok ==> Absent(w.fs, p)
    ensures p !in old(w.fs) ==> w.fs == old(w.fs)
    ensures w.reliable ==> ok
  {
    var broken := w.Breaks();
    if broken {
      return false;
    }
    if p !in w.fs {
      MissingIsAbsent(w.fs, p);
      return true;
    }
    if w.fs[p].Dir? {
      ok := w.RemoveDirAll(p);
    } else {
      ok := w.RemoveFile(p);
    }
  }

  // ---- what a copy may touch ----

  /** Nothing changes but what is at or below `dst`, and directories on the way to it that were missing. */
  ghost predicate OnlyAt(a: Files, b: Files, dst: Path) {
    forall q :: dst <= q || Agree(a, b, q) || NewOnTheWay(a, b, dst, q)
  }

  ghost predicate NewOnTheWay(a: Files, b: Files, dst: Path, q: Path) {
    q <= dst && q !in a && q in b && b[q].Dir?
  }

  /** With the parent in place there is nothing on the way to make. */
  lemma OnlyBelow(a: Files, b: Files, dst: Path)
    requires WellFormed(a) && dst != [] && Parent(dst) in a && OnlyAt(a, b, dst)
    ensures Only(a, b, Below(dst))
  {
    forall q | !(dst <= q) ensures Agree(a, b, q) {
      if q <= dst && q != Parent(dst) {
        assert q <= Parent(dst);
        AncestorsAreDirs(a, Parent(dst), q);
      }
    }
  }

  lemma OnlyAtThrough(a: Files, b: Files, c: Files, dst: Path)
    requires OnlyAt(a, b, dst) && Only(b, c, Below(dst))
    ensures OnlyAt(a, c, dst)
  {
    forall q | !(dst <= q) ensures Agree(a, c, q) || NewOnTheWay(a, c, dst, q) {
      assert Agree(b, c, q);
      assert Agree(a, b, q) || NewOnTheWay(a, b, dst, q);
    }
  }

  lemma PrefixOfPrefix(p: Path, rel: Path, whole: Path)
    ensures p + rel <= whole ==> p <= whole
  {
    if p + rel <= whole {
      assert whole[..|p|] == (p + rel)[..|p|] == p;
    }
  }

  /** The source is out of reach. */
  lemma SourceStays(a: Files, b: Files, src: Path, dst: Path)
    requires OnlyAt(a, b, dst) && !(src <= dst) && !(dst <= src)
    ensures SameTree(b, src, a, src)
  {
    forall rel ensures At(b, src, rel) == At(a, src, rel) {
      var q := src + rel;
      Comparable(src, dst, rel);
      PrefixOfPrefix(src, rel, dst);
      assert Agree(a, b, q);
    }
  }

  // ---- links ----

  method CopySymlink(w: Workspace, src: Path, dst: Path) returns (ok: bool)
    requires w.Valid() && src in w.fs && w.fs[src].Link?
    requires dst != [] && !(dst <= src)
    modifies w`fs
    ensures w.Valid() && OnlyAt(old(w.fs), w.fs, dst)
    ensures ok ==> At(w.fs, dst, []) == Some(old(w.fs)[src])
    ensures ok ==> forall rel :: rel == [] || At(w.fs, dst, rel) == None
    ensures w.reliable && DirsOnTheWay(old(w.fs), Parent(dst)) ==> ok
  {
    ok := w.CreateDirAll(Parent(dst));
    ghost var made := w.fs;
    assert OnlyAt(old(w.fs), made, dst);
    if !ok {
      return;
    }
    ok := RemovePath(w, dst);
    OnlyAtThrough(old(w.fs), made, w.fs, dst);
    if !ok {
      return;
    }
    var broken := w.Breaks();
    if broken {
      return false;
    }
    assert Agree(old(w.fs), made, src) && Agree(made, w.fs, src);
    ghost var removed := w.fs;
    assert dst !in removed by {
      assert dst + [] == dst && At(removed, dst, []) == None;
    }
    assert Agree(made, removed, Parent(dst));
    ok := w.MakeLink(w.fs[src].target, dst);
    OnlyAtThrough(old(w.fs), removed, w.fs, dst) by {
      OnlyAtThrough(old(w.fs), made, removed, dst);
    }
    if ok {
      assert dst + [] == dst;
      forall rel | rel != []
        ensures At(w.fs, dst, rel) == None
      {
        NothingBelow(w.fs, dst, rel);
      }
    }
  }

  // ---- what a copy leaves ----

  ghost predicate Copied(a: Files, src: Path, b: Files, dst: Path, rel: Path) {
    At(b, dst, rel) == At(a, src, rel)
  }

  /** A link already at the destination is met by a link of the source, which replaces it, or by nothing. */
  ghost predicate NoLinkInTheWay(fs: Files, src: Path, dst: Path) {
    forall rel :: LinksMeet(At(fs, src, rel), At(fs, dst, rel))
  }

  predicate LinksMeet(from: Option<Node>, there: Option<Node>) {
    from.Some? && there.Some? && there.value.Link? ==> from.value.Link?
  }

  /** Some directory on the way to `rel` is a link in the source. */
  ghost predicate LinkAbove(fs: Files, src: Path, rel: Path) {
    exists k :: 0 <= k < |rel| && LinkAt(fs, src, rel, k)
  }

  ghost predicate LinkAt(fs: Files, src: Path, rel: Path, k: nat)
    requires k <= |rel|
  {
    src + rel[..k] in fs && fs[src + rel[..k]].Link?
  }

  /**
   At `rel`, `b` holds the source's node if there is one. What else was at the destination is kept,
   except below a link of the source, which has replaced all that was there.
   */
  ghost predicate MergedAt(a: Files, src: Path, b: Files, dst: Path, rel: Path) {
    if src + rel in a then Copied(a, src, b, dst, rel)
    else At(b, dst, rel) == if LinkAbove(a, src, rel) then None else At(a, dst, rel)
  }

  ghost predicate Merged(a: Files, src: Path, b: Files, dst: Path) {
    forall rel :: MergedAt(a, src, b, dst, rel)
  }

  lemma MirrorsMeet(fs: Files, src: Path, dst: Path)
    requires Mirrors(fs, dst, fs, src)
    ensures NoLinkInTheWay(fs, src, dst)
  {
    forall rel ensures LinksMeet(At(fs, src, rel), At(fs, dst, rel)) {
      assert At(fs, dst, rel) == None || At(fs, dst, rel) == At(fs, src, rel);
    }
  }

  /** Onto nothing, or onto a part of the copy, a merge is a copy. */
  lemma MergedIsCopied(a: Files, src: Path, b: Files, dst: Path)
    requires Merged(a, src, b, dst) && Mirrors(a, dst, a, src)
    ensures SameTree(b, dst, a, src)
  {
    forall rel ensures At(b, dst, rel) == At(a, src, rel) {
      assert MergedAt(a, src, b, dst, rel);
      assert At(a, dst, rel) == None || At(a, dst, rel) == At(a, src, rel);
    }
  }

  /** What a call of `copy_path` does where the destination is absent or a part of the copy already. */
  lemma CopyLands(a: Files, src: Path, b: Files, dst: Path, ok: bool)
    requires WellFormed(a) && dst != [] && Parent(dst) in a && Mirrors(a, dst, a, src)
    requires OnlyAt(a, b, dst) && (ok ==> Merged(a, src, b, dst))
    ensures Only(a, b, Below(dst)) && (ok ==> SameTree(b, dst, a, src))
  {
    OnlyBelow(a, b, dst);
    if ok {
      MergedIsCopied(a, src, b, dst);
    }
  }

  // ---- one entry ----

  /** What one entry's copy may change: its own place, and for a link what was below it. */
  ghost predicate OneEntry(a: Files, b: Files, target: Path, link: bool) {
    forall q :: Agree(a, b, q) || q == target || (link && target <= q && q !in b)
  }

  /** One entry of the walk in `copy_path`. */
  method CopyNode(w: Workspace, from: Path, target: Path) returns (ok: bool)
    requires w.Valid() && from in w.fs && !(target <= from)
    requires target != [] && Parent(target) in w.fs && w.fs[Parent(target)].Dir?
    requires target in w.fs && !w.fs[from].Link? ==> !w.fs[target].Link?
    modifies w`fs
    ensures w.Valid() && Only(old(w.fs), w.fs, Below(target))
    ensures ok ==> target in w.fs && w.fs[target] == old(w.fs)[from]
    ensures ok ==> OneEntry(old(w.fs), w.fs, target, old(w.fs)[from].Link?)
    ensures w.reliable && target !in old(w.fs) && !old(w.fs)[from].Special? ==> ok
  {
    DirsAbove(w.fs, target);
    match w.fs[from]
    case Special =>
      return false;
    case Dir =>
      ok := w.CreateDirAll(target);
      assert OnlyAt(old(w.fs), w.fs, target);
      OnlyTheLast(old(w.fs), w.fs, target);
    case File(_, _) =>
      ok := w.CreateDirAll(Parent(target));
      if ok {
        ok := w.CopyFile(from, target);
      }
      var broken := w.Breaks();
      if broken {
        return false;
      }
    case Link(_) =>
      ok := CopySymlink(w, from, target);
      OnlyBelow(old(w.fs), w.fs, target);
      if ok {
        OnlyTheLink(old(w.fs), w.fs, target);
        assert target + [] == target;
      }
  }

  /** With the parent in place, `create_dir_all` makes at most the last directory. */
  lemma OnlyTheLast(a: Files, b: Files, p: Path)
    requires WellFormed(a) && p != [] && Parent(p) in a
    requires forall q :: Agree(a, b, q) || (q <= p && q !in a && q in b && b[q].Dir?)
    ensures forall q :: Agree(a, b, q) || q == p
  {
    forall q | !Agree(a, b, q)
      ensures q == p
    {
      if q != p {
        assert q <= Parent(p);
        if q != Parent(p) {
          AncestorsAreDirs(a, Parent(p), q);
        }
      }
    }
  }

  lemma OnlyTheLink(a: Files, b: Files, p: Path)
    requires Only(a, b, Below(p))
    requires forall rel :: rel == [] || At(b, p, rel) == None
    ensures OneEntry(a, b, p, true)
  {
    forall q | p <= q && q != p
      ensures q !in b
    {
      assert q == p + q[|p|..];
      assert At(b, p, q[|p|..]) == None;
    }
  }

  // ---- the walk ----

  /** What is not there yet, or not in the source, is as it was, or gone from below a link. */
  ghost predicate Waiting(orig: Files, src: Path, fs: Files, dst: Path, rel: Path) {
    At(fs, dst, rel) == At(orig, dst, rel) || (At(fs, dst, rel) == None && LinkAbove(orig, src, rel))
  }

  /** A copy of `src` to `dst` under way: everything but `todo` has arrived. */
  ghost predicate Arrived(orig: Files, src: Path, fs: Files, dst: Path, todo: set<Path>) {
    && (forall q | q in todo :: q in orig && src <= q && q != src)
    && forall rel ::
         if src + rel in orig && src + rel !in todo then Copied(orig, src, fs, dst, rel)
         else Waiting(orig, src, fs, dst, rel)
  }

  lemma NoLinkOnTheWay(orig: Files, src: Path, rel: Path)
    requires WellFormed(orig) && src + rel in orig
    ensures !LinkAbove(orig, src, rel)
  {
    forall k | 0 <= k < |rel| ensures !LinkAt(orig, src, rel, k) {
      assert src + rel[..k] <= src + rel && src + rel[..k] != src + rel;
      AncestorsAreDirs(orig, src + rel, src + rel[..k]);
    }
  }

  /** Nothing in the way of a copy of what is below `src`. */
  ghost predicate Free(fs: Files, src: Path, dst: Path) {
    Ordinary(fs, src) && forall rel :: rel == [] || At(fs, dst, rel) == None
  }

  method CopyEntry(w: Workspace, src: Path, dst: Path, rel: Path, ghost orig: Files, ghost todo: set<Path>)
    returns (ok: bool)
    requires w.Valid() && WellFormed(orig) && NoLinkInTheWay(orig, src, dst) && rel != [] && dst != []
    requires !(src <= dst) && !(dst <= src)
    requires src + rel in todo && Only(orig, w.fs, Below(dst)) && Arrived(orig, src, w.fs, dst, todo)
    requires At(w.fs, dst, Parent(rel)) == Some(Dir)
    modifies w`fs
    ensures w.Valid() && Only(old(w.fs), w.fs, Below(dst))
    ensures ok ==> Copied(orig, src, w.fs, dst, rel)
    ensures ok ==> OneEntry(old(w.fs), w.fs, dst + rel, orig[src + rel].Link?)
    ensures w.reliable && Free(orig, src, dst) ==> ok
  {
    var from, target := src + rel, dst + rel;
    assert Parent(target) == dst + Parent(rel);
    Comparable(src, dst, rel);
    assert !(dst <= from) && dst <= target;
    assert Agree(orig, w.fs, from);
    NoLinkOnTheWay(orig, src, rel);
    assert Waiting(orig, src, w.fs, dst, rel);
    assert LinksMeet(At(orig, src, rel), At(orig, dst, rel));
    if Free(orig, src, dst) {
      assert At(orig, src, rel) != Some(Special) && At(orig, dst, rel) == None;
    }
    ok := CopyNode(w, from, target);
  }

  predicate Ready(todo: set<Path>, q: Path) {
    q != [] && Parent(q) !in todo
  }

  lemma ReadyExists(todo: set<Path>)
    requires todo != {} && [] !in todo
    ensures exists q :: q in todo && Ready(todo, q)
  {
    ShortestExists(todo);
    var q :| q in todo && forall x | x in todo :: |q| <= |x|;
    assert Ready(todo, q);
  }

  lemma ParentArrived(orig: Files, src: Path, fs: Files, dst: Path, todo: set<Path>, q: Path)
    requires WellFormed(orig) && src in orig && Arrived(orig, src, fs, dst, todo)
    requires q in todo && Parent(q) !in todo
    ensures q[|src|..] != [] && q == src + q[|src|..] && At(fs, dst, Parent(q[|src|..])) == Some(Dir)
  {
    var rel := q[|src|..];
    assert q == src + rel && Parent(q) == src + Parent(rel);
    assert Copied(orig, src, fs, dst, Parent(rel));
  }

  /** Where a link has arrived, the source has nothing below. */
  lemma BelowALink(orig: Files, src: Path, rel: Path, r: Path)
    requires WellFormed(orig) && src + rel in orig && orig[src + rel].Link? && rel <= r && r != rel
    ensures src + r !in orig && LinkAbove(orig, src, r)
  {
    assert r[..|rel|] == rel;
    assert LinkAt(orig, src, r, |rel|);
    assert src + r == src + rel + r[|rel|..];
    NothingBelow(orig, src + rel, r[|rel|..]);
  }

  lemma ElsewhereStays(orig: Files, src: Path, a: Files, b: Files, dst: Path, rel: Path, r: Path)
    requires WellFormed(orig) && src + rel in orig && r != rel
    requires OneEntry(a, b, dst + rel, orig[src + rel].Link?)
    ensures At(b, dst, r) == At(a, dst, r) ||
            (At(b, dst, r) == None && src + r !in orig && LinkAbove(orig, src, r))
  {
    assert (dst + r)[|dst|..] == r && (dst + rel)[|dst|..] == rel;
    assert dst + r != dst + rel;
    if !Agree(a, b, dst + r) {
      assert dst + rel <= dst + r;
      assert rel <= r by {
        assert r == (dst + r)[|dst|..];
      }
      BelowALink(orig, src, rel, r);
    }
  }

  lemma EntryArrives(orig: Files, src: Path, a: Files, b: Files, dst: Path, todo: set<Path>, rel: Path)
    requires WellFormed(orig) && src + rel in todo && Arrived(orig, src, a, dst, todo)
    requires OneEntry(a, b, dst + rel, orig[src + rel].Link?)
    requires Copied(orig, src, b, dst, rel)
    ensures Arrived(orig, src, b, dst, todo - {src + rel})
  {
    hide OneEntry, LinkAbove;
    var rest := todo - {src + rel};
    forall r
      ensures if src + r in orig && src + r !in rest then Copied(orig, src, b, dst, r)
              else Waiting(orig, src, b, dst, r)
    {
      assert (src + r)[|src|..] == r && (src + rel)[|src|..] == rel;
      assert if src + r in orig && src + r !in todo then Copied(orig, src, a, dst, r)
             else Waiting(orig, src, a, dst, r);
      if r != rel {
        ElsewhereStays(orig, src, a, b, dst, rel, r);
      }
    }
  }

  lemma AllArrived(orig: Files, src: Path, fs: Files, dst: Path)
    requires WellFormed(fs) && Arrived(orig, src, fs, dst, {})
    ensures Merged(orig, src, fs, dst)
  {
    hide LinkAbove, Copied;
    forall rel ensures MergedAt(orig, src, fs, dst, rel) {
      if src + rel !in orig {
        assert Waiting(orig, src, fs, dst, rel);
        if LinkAbove(orig, src, rel) {
          NothingBelowTheLink(orig, src, fs, dst, rel);
        }
      }
    }
  }

  lemma NothingBelowTheLink(orig: Files, src: Path, fs: Files, dst: Path, rel: Path)
    requires WellFormed(fs) && Arrived(orig, src, fs, dst, {}) && LinkAbove(orig, src, rel)
    ensures At(fs, dst, rel) == None
  {
    hide Waiting;
    var k :| 0 <= k < |rel| && LinkAt(orig, src, rel, k);
    assert Copied(orig, src, fs, dst, rel[..k]);
    assert dst + rel == dst + rel[..k] + rel[k..];
    NothingBelow(fs, dst + rel[..k], rel[k..]);
  }

  method CopyNext(w: Workspace, src: Path, dst: Path, todo: set<Path>, ghost orig: Files)
    returns (ok: bool, rest: set<Path>)
    requires w.Valid() && WellFormed(orig) && NoLinkInTheWay(orig, src, dst) && src in orig && dst != []
    requires !(src <= dst) && !(dst <= src) && todo != {}
    requires Only(orig, w.fs, Below(dst)) && Arrived(orig, src, w.fs, dst, todo)
    modifies w`fs
    ensures w.Valid() && Only(old(w.fs), w.fs, Below(dst))
    ensures rest < todo
    ensures ok ==> Arrived(orig, src, w.fs, dst, rest)
    ensures w.reliable && Free(orig, src, dst) ==> ok
  {
    hide OneEntry, Copied, LinkAbove, Free;
    ReadyExists(todo);
    var q :| q in todo && Ready(todo, q);
    var rel := q[|src|..];
    rest := todo - {q};
    ParentArrived(orig, src, w.fs, dst, todo, q);
    hide Arrived;
    ok := CopyEntry(w, src, dst, rel, orig, todo);
    if ok {
      EntryArrives(orig, src, old(w.fs), w.fs, dst, todo, rel);
    }
  }

  lemma NothingArrived(a: Files, b: Files, src: Path, dst: Path, todo: set<Path>)
    requires src in a && a[src].Dir? && dst in b && b[dst].Dir?
    requires todo == set q | q in a && src <= q && q != src
    requires forall rel :: rel == [] || At(b, dst, rel) == At(a, dst, rel)
    ensures Arrived(a, src, b, dst, todo)
  {
    assert src + [] == src && dst + [] == dst;
    forall rel | rel != []
      ensures src <= src + rel && src + rel != src
    {
    }
  }

  /** Making the destination directory adds nothing below it. */
  lemma NothingNewBelow(a: Files, b: Files, dst: Path)
    requires forall q :: Agree(a, b, q) || (q <= dst && q !in a && q in b && b[q].Dir?)
    ensures forall rel :: rel == [] || At(b, dst, rel) == At(a, dst, rel)
  {
    forall rel: Path | rel != [] ensures At(b, dst, rel) == At(a, dst, rel) {
      assert !(dst + rel <= dst);
      assert Agree(a, b, dst + rel);
    }
  }

  /** A merge into a directory that was just made, seen from before it was. */
  lemma MergedFromBefore(orig: Files, base: Files, fs: Files, src: Path, dst: Path)
    requires src in orig && Merged(base, src, fs, dst) && SameTree(base, src, orig, src)
    requires forall rel :: rel == [] || At(base, dst, rel) == At(orig, dst, rel)
    ensures Merged(orig, src, fs, dst)
  {
    assert src + [] == src;
    forall rel ensures MergedAt(orig, src, fs, dst, rel) {
      assert MergedAt(base, src, fs, dst, rel);
      assert At(base, src, rel) == At(orig, src, rel);
      forall k | 0 <= k < |rel| ensures LinkAt(base, src, rel, k) <==> LinkAt(orig, src, rel, k) {
        assert At(base, src, rel[..k]) == At(orig, src, rel[..k]);
      }
      assert LinkAbove(base, src, rel) <==> LinkAbove(orig, src, rel);
    }
  }

  method CopyDir(w: Workspace, src: Path, dst: Path) returns (ok: bool)
    requires w.Valid() && src in w.fs && w.fs[src].Dir?
    requires dst != [] && NoLinkInTheWay(w.fs, src, dst) && !(src <= dst) && !(dst <= src)
    modifies w`fs
    ensures w.Valid() && OnlyAt(old(w.fs), w.fs, dst)
    ensures ok ==> Merged(old(w.fs), src, w.fs, dst)
    ensures w.reliable && Ordinary(old(w.fs), src) && dst !in old(w.fs) && DirsOnTheWay(old(w.fs), Parent(dst)) ==> ok
  {
    OnTheWayToNothing(w.fs, dst);
    ok := w.CreateDirAll(dst);
    ghost var base := w.fs;
    assert OnlyAt(old(w.fs), base, dst);
    if !ok {
      return;
    }
    SourceStays(old(w.fs), base, src, dst);
    NothingNewBelow(old(w.fs), base, dst);
    StillThere(old(w.fs), base, src);
    assert LinksMeet(At(old(w.fs), src, []), At(old(w.fs), dst, []));
    forall rel ensures LinksMeet(At(base, src, rel), At(base, dst, rel)) {
      assert LinksMeet(At(old(w.fs), src, rel), At(old(w.fs), dst, rel));
      assert dst + [] == dst;
    }
    if Ordinary(old(w.fs), src) && dst !in old(w.fs) {
      MissingIsAbsent(old(w.fs), dst);
      FreeNow(old(w.fs), base, src, dst);
    }
    ok := CopyInto(w, src, dst);
    OnlyAtThrough(old(w.fs), base, w.fs, dst);
    if ok {
      MergedFromBefore(old(w.fs), base, w.fs, src, dst);
    }
  }

  lemma OnTheWayToNothing(fs: Files, p: Path)
    requires p != []
    ensures DirsOnTheWay(fs, Parent(p)) && p !in fs ==> DirsOnTheWay(fs, p)
  {
    if DirsOnTheWay(fs, Parent(p)) && p !in fs {
      forall q | q <= p && q in fs ensures fs[q].Dir? {
        assert q != p;
        assert q <= Parent(p);
      }
    }
  }

  lemma FreeNow(orig: Files, base: Files, src: Path, dst: Path)
    requires Ordinary(orig, src) && Absent(orig, dst) && SameTree(base, src, orig, src)
    requires forall rel :: rel == [] || At(base, dst, rel) == At(orig, dst, rel)
    ensures Free(base, src, dst)
  {
    forall rel ensures At(base, src, rel) != Some(Special) {
      assert At(base, src, rel) == At(orig, src, rel);
    }
  }

  lemma StillThere(a: Files, b: Files, p: Path)
    requires p in a && SameTree(b, p, a, p)
    ensures p in b && b[p] == a[p]
  {
    assert p + [] == p;
    assert At(b, p, []) == At(a, p, []);
  }

  /** The walk of `copy_path`, once the destination directory is there. */
  method CopyInto(w: Workspace, src: Path, dst: Path) returns (ok: bool)
    requires w.Valid() && src in w.fs && w.fs[src].Dir? && dst in w.fs && w.fs[dst].Dir?
    requires dst != [] && NoLinkInTheWay(w.fs, src, dst) && !(src <= dst) && !(dst <= src)
    modifies w`fs
    ensures w.Valid() && Only(old(w.fs), w.fs, Below(dst))
    ensures ok ==> Merged(old(w.fs), src, w.fs, dst)
    ensures w.reliable && Free(old(w.fs), src, dst) ==> ok
  {
    hide Merged, Arrived, Free;
    ghost var orig := w.fs;
    var todo := set q | q in w.fs && src <= q && q != src;
    NothingArrived(orig, orig, src, dst, todo);
    while todo != {}
      invariant w.Valid() && Only(orig, w.fs, Below(dst))
      invariant Arrived(orig, src, w.fs, dst, todo)
      decreases todo
    {
      var broken := w.Breaks();
      if broken {
        return false;
      }
      ok, todo := CopyNext(w, src, dst, todo, orig);
      if !ok {
        return;
      }
    }
    AllArrived(orig, src, w.fs, dst);
    ok := true;
  }

  /** A file or a link has nothing below it to merge. */
  lemma LeafMerged(a: Files, src: Path, b: Files, dst: Path)
    requires WellFormed(a) && WellFormed(b) && src in a && (a[src].File? || a[src].Link?)
    requires dst in b && b[dst] == a[src]
    requires a[src].File? ==> dst !in a || !a[dst].Dir?
    ensures Merged(a, src, b, dst)
  {
    assert src + [] == src && dst + [] == dst;
    forall rel: Path ensures MergedAt(a, src, b, dst, rel) {
      if rel != [] {
        NothingBelow(a, src, rel);
        NothingBelow(b, dst, rel);
        if a[src].Link? {
          assert rel[..0] == [];
          assert LinkAt(a, src, rel, 0);
        } else {
          NothingBelow(a, dst, rel);
        }
      }
    }
  }

  /** There is a source that can be copied, and nothing at the destination or in the way to it. */
  ghost predicate CanCopy(fs: Files, src: Path, dst: Path)
    requires dst != []
  {
    src in fs && Ordinary(fs, src) && dst !in fs && DirsOnTheWay(fs, Parent(dst))
  }

  /**
   `copy_path`: the source's nodes are merged over what is at the destination. A link there in
   place of a file or directory of the source would be written through; no caller leaves one.
   */
  method CopyPath(w: Workspace, src: Path, dst: Path) returns (ok: bool)
    requires w.Valid() && dst != [] && !(src <= dst) && !(dst <= src)
    requires NoLinkInTheWay(w.fs, src, dst)
    modifies w`fs
    ensures w.Valid() && OnlyAt(old(w.fs), w.fs, dst)
    ensures ok ==> src in old(w.fs) && Merged(old(w.fs), src, w.fs, dst)
    ensures w.reliable && CanCopy(old(w.fs), src, dst) ==> ok
  {
    var broken := w.Breaks();
    if broken || src !in w.fs {
      return false;
    }
    if Ordinary(w.fs, src) {
      OrdinaryAt(w.fs, src);
    }
    assert src + [] == src && dst + [] == dst;
    match w.fs[src]
    case Special =>
      return false;
    case Link(_) =>
      ok := CopySymlink(w, src, dst);
      if ok {
        LeafMerged(old(w.fs), src, w.fs, dst);
      }
    case File(_, _) =>
      ok := CopyOneFile(w, src, dst);
    case Dir =>
      ok := CopyDir(w, src, dst);
  }

  /** The branch of `copy_path` for a file. */
  method CopyOneFile(w: Workspace, src: Path, dst: Path) returns (ok: bool)
    requires w.Valid() && src in w.fs && w.fs[src].File? && dst != [] && !(src <= dst) && !(dst <= src)
    requires NoLinkInTheWay(w.fs, src, dst)
    modifies w`fs
    ensures w.Valid() && OnlyAt(old(w.fs), w.fs, dst)
    ensures ok ==> Merged(old(w.fs), src, w.fs, dst)
    ensures w.reliable && dst !in old(w.fs) && DirsOnTheWay(old(w.fs), Parent(dst)) ==> ok
  {
    ok := w.CreateDirAll(Parent(dst));
    ghost var made := w.fs;
    assert OnlyAt(old(w.fs), made, dst);
    if !ok {
      return;
    }
    assert Agree(old(w.fs), made, src) && Agree(old(w.fs), made, dst);
    assert src + [] == src && dst + [] == dst;
    assert LinksMeet(At(old(w.fs), src, []), At(old(w.fs), dst, []));
    ok := w.CopyFile(src, dst);
    OnlyAtThrough(old(w.fs), made, w.fs, dst);
    var broken := w.Breaks();
    if broken {
      return false;
    }
    if ok {
      LeafMerged(old(w.fs), src, w.fs, dst);
    }
  }
}
