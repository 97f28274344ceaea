/** Comparing two directory trees: `paths_equal` and what its answer means. */
module TreeCompare {
  import opened Wrappers
  import opened FileTree

  datatype Shown = Gone | ShowsDir | ShowsFile(content: Content) | ShowsLink(target: string) | ShowsSpecial

  /** A path as `paths_equal` sees it: a link that leads nowhere looks like nothing at all. */
  ghost function Shows(fs: Files, resolves: Resolver, p: Path): Shown
  {
    if !Exists(fs, resolves, p) then Gone
    else match fs[p]
      case Dir => ShowsDir
      case File(content, _) => ShowsFile(content)
      case Link(target) => ShowsLink(target)
      case Special => ShowsSpecial
  }

  ghost predicate BothOrNeither(fs: Files, resolves: Resolver, left: Path, right: Path, rel: Path)
  {
    && (left + rel in fs <==> right + rel in fs)
    && (left + rel in fs ==> Shows(fs, resolves, left + rel) == Shows(fs, resolves, right + rel))
  }

  /** The two trees look the same: names, bytes and link targets, dangling links aside. */
  ghost predicate SameView(fs: Files, resolves: Resolver, left: Path, right: Path)
  {
    && Shows(fs, resolves, left) == Shows(fs, resolves, right)
    && (Exists(fs, resolves, left) ==> forall rel :: rel == [] || BothOrNeither(fs, resolves, left, right, rel))
  }

  ghost predicate SameViewAsChild(fs: Files, resolves: Resolver, left: Path, right: Path, name: Name)
  {
    SameView(fs, resolves, left + [name], right + [name])
  }

  function Names(fs: Files, p: Path): (names: set<Name>)
    ensures forall n :: n in names <==> p + [n] in fs
  {
    assert forall n | p + [n] in fs :: Parent(p + [n]) == p && (p + [n])[|p|] == n;
    assert forall q | q in fs && q != [] && Parent(q) == p :: q == p + [q[|q| - 1]];
    set q | q in fs && q != [] && Parent(q) == p :: q[|q| - 1]
  }

  /** What the child `rel[0]` shows decides what `rel` shows. */
  lemma ChildDecides(fs: Files, resolves: Resolver, left: Path, right: Path, rel: Path)
    requires WellFormed(fs) && rel != []
    requires left + [rel[0]] in fs <==> right + [rel[0]] in fs
    requires left + [rel[0]] in fs ==> SameViewAsChild(fs, resolves, left, right, rel[0])
    ensures BothOrNeither(fs, resolves, left, right, rel)
  {
    var l, r, deeper := left + [rel[0]], right + [rel[0]], rel[1..];
    assert rel == [rel[0]] + deeper;
    assert left + rel == l + deeper && right + rel == r + deeper;
    if deeper == [] {
      assert left + rel == l && right + rel == r;
    } else if Exists(fs, resolves, l) {
      assert BothOrNeither(fs, resolves, l, r, deeper);
    } else {
      NothingBelow(fs, l, deeper);
      NothingBelow(fs, r, deeper);
    }
  }

  lemma ChildrenMakeTheView(fs: Files, resolves: Resolver, left: Path, right: Path)
    requires WellFormed(fs)
    requires left in fs && fs[left].Dir? && right in fs && fs[right].Dir?
    requires Names(fs, left) == Names(fs, right)
    requires forall n | n in Names(fs, left) :: SameViewAsChild(fs, resolves, left, right, n)
    ensures SameView(fs, resolves, left, right)
  {
    hide SameViewAsChild;
    forall rel | rel != []
      ensures BothOrNeither(fs, resolves, left, right, rel)
    {
      assert rel[0] in Names(fs, left) <==> rel[0] in Names(fs, right);
      ChildDecides(fs, resolves, left, right, rel);
    }
  }

  lemma ViewBelowChild(fs: Files, resolves: Resolver, left: Path, right: Path, n: Name, rel: Path)
    requires BothOrNeither(fs, resolves, left, right, [n] + rel)
    ensures BothOrNeither(fs, resolves, left + [n], right + [n], rel)
  {
    assert left + ([n] + rel) == left + [n] + rel && right + ([n] + rel) == right + [n] + rel;
  }

  lemma ViewOfChild(fs: Files, resolves: Resolver, left: Path, right: Path, n: Name)
    requires WellFormed(fs) && Exists(fs, resolves, left)
    requires SameView(fs, resolves, left, right)
    ensures n in Names(fs, left) <==> n in Names(fs, right)
    ensures n in Names(fs, left) ==> SameViewAsChild(fs, resolves, left, right, n)
  {
    assert BothOrNeither(fs, resolves, left, right, [n]);
    if n in Names(fs, left) {
      assert Shows(fs, resolves, left + [n]) == Shows(fs, resolves, right + [n]);
      hide BothOrNeither, Shows, Exists;
      forall rel | rel != []
        ensures BothOrNeither(fs, resolves, left + [n], right + [n], rel)
      {
        assert BothOrNeither(fs, resolves, left, right, [n] + rel);
        ViewBelowChild(fs, resolves, left, right, n, rel);
      }
    }
  }

  lemma ViewKeepsNames(fs: Files, resolves: Resolver, left: Path, right: Path)
    requires WellFormed(fs) && Exists(fs, resolves, left) && SameView(fs, resolves, left, right)
    ensures Names(fs, left) == Names(fs, right)
  {
    forall n
      ensures n in Names(fs, left) <==> n in Names(fs, right)
    {
      ViewOfChild(fs, resolves, left, right, n);
    }
  }

  ghost function NodesBelow(fs: Files, p: Path): set<Path>
  {
    set q | q in fs && p <= q
  }

  lemma FewerBelowAChild(fs: Files, p: Path, n: Name)
    requires p in fs
    ensures NodesBelow(fs, p + [n]) < NodesBelow(fs, p)
  {
    assert p !in NodesBelow(fs, p + [n]) && p in NodesBelow(fs, p);
    assert forall q | p + [n] <= q :: p == (p + [n])[..|p|] == q[..|p|];
  }

  /** `paths_equal`: an answer, if there is one, is exactly "the two look the same". */
  method PathsEqual(w: Workspace, left: Path, right: Path) returns (r: Option<bool>)
    requires w.Valid()
    ensures r.Some? ==> r.value == SameView(w.fs, w.resolves, left, right)
    ensures w.reliable && Ordinary(w.fs, left) ==> r.Some?
    decreases NodesBelow(w.fs, left), 1
  {
    var leftExists, rightExists := Exists(w.fs, w.resolves, left), Exists(w.fs, w.resolves, right);
    if !leftExists && !rightExists {
      return Some(true);
    }
    if leftExists != rightExists {
      return Some(false);
    }
    var broken := w.Breaks();
    if broken {
      return None;
    }
    var l, rr := w.fs[left], w.fs[right];
    if l.Dir? != rr.Dir? || l.File? != rr.File? || l.Link? != rr.Link? {
      return Some(false);
    }
    if !l.Dir? {
      forall rel | rel != []
        ensures BothOrNeither(w.fs, w.resolves, left, right, rel)
      {
        NothingBelow(w.fs, left, rel);
        NothingBelow(w.fs, right, rel);
      }
    }
    if l.File? {
      return Some(l.content == rr.content);
    }
    if l.Link? {
      return Some(l.target == rr.target);
    }
    if !l.Dir? {
      if Ordinary(w.fs, left) {
        OrdinaryAt(w.fs, left);
      }
      return None;
    }
    var names := Names(w.fs, left);
    if names != Names(w.fs, right) {
      if SameView(w.fs, w.resolves, left, right) {
        ViewKeepsNames(w.fs, w.resolves, left, right);
      }
      return Some(false);
    }
    r := ChildrenEqual(w, left, right, names);
  }

  method ChildrenEqual(w: Workspace, left: Path, right: Path, names: set<Name>) returns (r: Option<bool>)
    requires w.Valid() && names == Names(w.fs, left) == Names(w.fs, right)
    requires left in w.fs && w.fs[left].Dir? && right in w.fs && w.fs[right].Dir?
    ensures r.Some? ==> r.value == SameView(w.fs, w.resolves, left, right)
    ensures w.reliable && Ordinary(w.fs, left) ==> r.Some?
    decreases NodesBelow(w.fs, left), 0
  {
    hide SameView, NodesBelow, Ordinary;
    var todo := names;
    while todo != {}
      invariant todo <= names
      invariant forall n | n in names - todo :: SameViewAsChild(w.fs, w.resolves, left, right, n)
      decreases todo
    {
      var n :| n in todo;
      todo := todo - {n};
      FewerBelowAChild(w.fs, left, n);
      if Ordinary(w.fs, left) {
        OrdinaryChild(w.fs, left, [n]);
      }
      var child := PathsEqual(w, left + [n], right + [n]);
      if child != Some(true) {
        if SameView(w.fs, w.resolves, left, right) {
          ViewOfChild(w.fs, w.resolves, left, right, n);
        }
        return child;
      }
    }
    ChildrenMakeTheView(w.fs, w.resolves, left, right);
    return Some(true);
  }

  // ---- when the comparison is tree equality ----

  /** A node without its permission bits, which the comparison does not read. */
  function Contents(node: Option<Node>): Option<Node> {
    match node
    case Some(File(content, _)) => Some(File(content, 0))
    case _ => node
  }

  /** Equal in names, bytes and link targets. */
  ghost predicate SameContents(a: Files, p: Path, b: Files, q: Path) {
    forall rel :: Contents(At(a, p, rel)) == Contents(At(b, q, rel))
  }

  ghost predicate NoDanglingLinks(fs: Files, resolves: Resolver, p: Path)
  {
    forall q | q in fs && p <= q :: Exists(fs, resolves, q)
  }

  lemma ContentsOfShown(fs: Files, resolves: Resolver, p: Path, q: Path)
    requires p in fs ==> Exists(fs, resolves, p)
    requires q in fs ==> Exists(fs, resolves, q)
    ensures (p in fs <==> q in fs) && Shows(fs, resolves, p) == Shows(fs, resolves, q)
      <==> Contents(At(fs, p, [])) == Contents(At(fs, q, []))
  {
    assert p + [] == p && q + [] == q;
  }

  /** Where no link dangles, looking the same is the same as being the same tree. */
  lemma ViewIsContents(fs: Files, resolves: Resolver, left: Path, right: Path)
    requires WellFormed(fs) && NoDanglingLinks(fs, resolves, left) && NoDanglingLinks(fs, resolves, right)
    ensures SameView(fs, resolves, left, right) <==> SameContents(fs, left, fs, right)
  {
    forall rel: Path
      ensures rel != [] && !Exists(fs, resolves, left) && !Exists(fs, resolves, right)
        ==> Contents(At(fs, left, rel)) == Contents(At(fs, right, rel))
      ensures BothOrNeither(fs, resolves, left, right, rel)
        <==> Contents(At(fs, left, rel)) == Contents(At(fs, right, rel))
    {
      assert left <= left + rel && right <= right + rel;
      ContentsOfShown(fs, resolves, left + rel, right + rel);
      assert left + rel + [] == left + rel && right + rel + [] == right + rel;
      if rel != [] && !Exists(fs, resolves, left) && !Exists(fs, resolves, right) {
        NothingBelow(fs, left, rel);
        NothingBelow(fs, right, rel);
      }
    }
    assert left + [] == left && right + [] == right;
    assert BothOrNeither(fs, resolves, left, right, []) <==> Shows(fs, resolves, left) == Shows(fs, resolves, right);
    if SameView(fs, resolves, left, right) {
      assert forall rel :: Contents(At(fs, left, rel)) == Contents(At(fs, right, rel));
    }
    if SameContents(fs, left, fs, right) {
      assert Contents(At(fs, left, [])) == Contents(At(fs, right, []));
      assert forall rel :: rel == [] || BothOrNeither(fs, resolves, left, right, rel);
    }
  }

  /** A comparison depends on nothing but the two trees. */
  lemma ViewFrame(a: Files, b: Files, resolves: Resolver, left: Path, right: Path)
    requires SameTree(b, left, a, left) && SameTree(b, right, a, right)
    ensures SameView(a, resolves, left, right) <==> SameView(b, resolves, left, right)
  {
    assert left + [] == left && right + [] == right;
    assert At(b, left, []) == At(a, left, []) && At(b, right, []) == At(a, right, []);
    forall rel
      ensures BothOrNeither(a, resolves, left, right, rel) <==> BothOrNeither(b, resolves, left, right, rel)
    {
      assert At(b, left, rel) == At(a, left, rel) && At(b, right, rel) == At(a, right, rel);
    }
  }
}
