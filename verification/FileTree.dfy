/**
 A project's work root, with the file operations the update code uses.

 The tree is a map from paths to nodes, so "unchanged outside this directory" is a plain
 statement about keys. Every operation may fail at any time with an I/O error, and one that is not
 atomic may leave part of its effect behind. In a `reliable` work root there are no such errors, and
 each operation says when it then succeeds.
*/
module FileTree {
  import opened Wrappers

  type Name = string
  type Path = seq<Name>

  datatype Json =
    | JNull
    | JScalar(n: int)
    | JString(s: string)
    | JArray(items: seq<Json>)
    | JObject(members: map<string, Json>)

  /** The bytes of a file: arbitrary text, or a JSON value written out in some layout. */
  datatype Content = Text(bytes: string) | Document(value: Json, layout: nat)

  datatype Node = Dir | File(content: Content, mode: nat) | Link(target: string) | Special

  type Files = map<Path, Node>

  /** Whether the link at a path with a given target leads anywhere. */
  type Resolver = (Path, string) -> bool

  const PRETTY: nat := 0
  const NEW_FILE_MODE: nat := 0x1A4

  /** `Path::exists`, which follows links. */
  predicate Exists(fs: Files, resolves: Resolver, p: Path) {
    p in fs && (fs[p].Link? ==> resolves(p, fs[p].target))
  }

  function Parent(p: Path): Path
    requires p != []
  {
    p[..|p| - 1]
  }

  predicate WellFormed(fs: Files) {
    && [] in fs && fs[[]].Dir?
    && forall p | p in fs && p != [] :: Parent(p) in fs && fs[Parent(p)].Dir?
  }

  lemma {:induction false} AncestorsAreDirs(fs: Files, p: Path, q: Path)
    requires WellFormed(fs) && p in fs
    requires q <= p && q != p
    ensures q in fs && fs[q].Dir?
    decreases |p|
  {
    if q != Parent(p) {
      AncestorsAreDirs(fs, Parent(p), q);
    }
  }

  // ---- comparing two states of the tree ----

  ghost predicate Agree(a: Files, b: Files, p: Path) {
    (p in a <==> p in b) && (p in a ==> a[p] == b[p])
  }

  /** Nothing differs between `a` and `b` outside `zone`. */
  ghost predicate Only(a: Files, b: Files, zone: iset<Path>) {
    forall p :: p in zone || Agree(a, b, p)
  }

  ghost predicate Under(root: Path, p: Path) {
    root <= p
  }

  ghost function Below(root: Path): iset<Path> {
    iset p: Path | Under(root, p)
  }

  ghost function At(fs: Files, root: Path, rel: Path): Option<Node> {
    if root + rel in fs then Some(fs[root + rel]) else None
  }

  /** The subtree of `a` at `p` is the subtree of `b` at `q`, node for node. */
  ghost predicate SameTree(a: Files, p: Path, b: Files, q: Path) {
    forall rel :: At(a, p, rel) == At(b, q, rel)
  }

  ghost predicate Absent(fs: Files, p: Path) {
    forall rel :: At(fs, p, rel) == None
  }

  /** Whatever is already at `dst` is a copy of what is at `src`. */
  ghost predicate Mirrors(a: Files, dst: Path, b: Files, src: Path) {
    forall rel :: At(a, dst, rel) == None || At(a, dst, rel) == At(b, src, rel)
  }

  lemma MissingIsAbsent(fs: Files, p: Path)
    requires WellFormed(fs) && p !in fs
    ensures Absent(fs, p)
  {
    forall rel ensures At(fs, p, rel) == None {
      if rel == [] {
        assert p + rel == p;
      } else if p + rel in fs {
        AncestorsAreDirs(fs, p + rel, p);
      }
    }
  }

  lemma NothingBelow(fs: Files, p: Path, rel: Path)
    requires WellFormed(fs) && rel != []
    requires p !in fs || !fs[p].Dir?
    ensures p + rel !in fs
  {
    if p + rel in fs {
      AncestorsAreDirs(fs, p + rel, p);
    }
  }

  lemma Comparable(src: Path, dst: Path, rel: Path)
    ensures dst <= src + rel ==> src <= dst || dst <= src
  {
    var from := src + rel;
    if dst <= from {
      assert dst == from[..|dst|];
      if |dst| <= |src| {
        assert from[..|dst|] == src[..|dst|];
      } else {
        assert src == dst[..|src|];
      }
    }
  }

  lemma ApartUnchanged(a: Files, b: Files, p: Path, q: Path)
    requires Only(a, b, Below(p)) && !(p <= q) && !(q <= p)
    ensures SameTree(b, q, a, q)
  {
    forall rel
      ensures At(b, q, rel) == At(a, q, rel)
    {
      Comparable(q, p, rel);
      assert Agree(a, b, q + rel);
    }
  }

  lemma AgreeBelowIsSameTree(a: Files, b: Files, p: Path)
    requires forall q | p <= q :: Agree(a, b, q)
    ensures SameTree(a, p, b, p)
  {
    forall rel ensures At(a, p, rel) == At(b, p, rel) {
      assert p <= p + rel;
      assert Agree(a, b, p + rel);
    }
  }

  lemma SameTreeIsAgreeBelow(a: Files, b: Files, p: Path)
    requires SameTree(a, p, b, p)
    ensures forall q | p <= q :: Agree(a, b, q)
  {
    forall q | p <= q ensures Agree(a, b, q) {
      assert q == p + q[|p|..];
      assert At(a, p, q[|p|..]) == At(b, p, q[|p|..]);
    }
  }

  lemma {:induction false} ShortestExists(s: set<Path>)
    requires s != {}
    ensures exists p :: p in s && forall q | q in s :: |p| <= |q|
  {
    var p :| p in s;
    var rest := s - {p};
    if rest == {} {
      assert s == {p};
    } else {
      ShortestExists(rest);
      var q :| q in rest && forall x | x in rest :: |q| <= |x|;
      assert s == rest + {p};
      var least := if |q| < |p| then q else p;
      assert least in s && forall x | x in s :: |least| <= |x|;
    }
  }

  lemma {:induction false} LongestExists(s: set<Path>)
    requires s != {}
    ensures exists p :: p in s && forall q | q in s :: |q| <= |p|
  {
    var p :| p in s;
    var rest := s - {p};
    if rest == {} {
      assert s == {p};
    } else {
      LongestExists(rest);
      var q :| q in rest && forall x | x in rest :: |x| <= |q|;
      assert s == rest + {p};
      var most := if |p| < |q| then q else p;
      assert most in s && forall x | x in s :: |x| <= |most|;
    }
  }

  lemma OnlyThrough(a: Files, b: Files, c: Files, zone: iset<Path>)
    requires Only(a, b, zone) && Only(b, c, zone)
    ensures Only(a, c, zone)
  {
    forall p ensures p in zone || Agree(a, c, p) {
      assert p in zone || (Agree(a, b, p) && Agree(b, c, p));
    }
  }

  /** `todo` is what is left at and below `p`. */
  ghost predicate Rest(fs: Files, p: Path, todo: set<Path>) {
    forall q :: q in todo <==> q in fs && p <= q
  }

  lemma LeafRemoval(fs: Files, p: Path, todo: set<Path>, leaf: Path)
    requires WellFormed(fs) && p != [] && Rest(fs, p, todo)
    requires leaf in todo && forall x | x in todo :: |x| <= |leaf|
    ensures WellFormed(fs - {leaf}) && Rest(fs - {leaf}, p, todo - {leaf}) && Only(fs, fs - {leaf}, Below(p))
  {
    forall x | x in fs && x != []
      ensures Parent(x) != leaf
    {
      assert Parent(x) == leaf ==> p <= x && x in todo;
    }
  }

  /** At and below `p` there are only files, directories and links. */
  ghost predicate Ordinary(fs: Files, p: Path) {
    forall rel :: At(fs, p, rel) != Some(Special)
  }

  lemma OrdinaryChild(fs: Files, p: Path, more: Path)
    requires Ordinary(fs, p)
    ensures Ordinary(fs, p + more)
  {
    forall rel ensures At(fs, p + more, rel) != Some(Special) {
      assert p + more + rel == p + (more + rel);
      assert At(fs, p, more + rel) != Some(Special);
    }
  }

  lemma OrdinaryAt(fs: Files, p: Path)
    requires Ordinary(fs, p) && p in fs
    ensures !fs[p].Special?
  {
    assert p + [] == p && At(fs, p, []) != Some(Special);
  }

  lemma DirsAbove(fs: Files, p: Path)
    requires WellFormed(fs) && p != [] && Parent(p) in fs && fs[Parent(p)].Dir?
    ensures DirsOnTheWay(fs, Parent(p)) && (p !in fs || fs[p].Dir? ==> DirsOnTheWay(fs, p))
  {
    forall q | q <= p && q != p && q in fs ensures fs[q].Dir? {
      assert q <= Parent(p);
      if q != Parent(p) {
        AncestorsAreDirs(fs, Parent(p), q);
      }
    }
  }

  /** Nothing but directories stands on the way to `p`, or there already. */
  ghost predicate DirsOnTheWay(fs: Files, p: Path) {
    forall q | q <= p && q in fs :: fs[q].Dir?
  }

  /** A node that is not a directory can be put at `p`. */
  ghost predicate Placeable(fs: Files, p: Path) {
    p != [] && Parent(p) in fs && fs[Parent(p)].Dir? && (p in fs ==> !fs[p].Dir?)
  }

  /** A file can be written at `p`. */
  ghost predicate Writable(fs: Files, p: Path) {
    Placeable(fs, p) && (p in fs ==> fs[p].File?)
  }

  method Deepest(s: set<Path>) returns (q: Path)
    requires s != {}
    ensures q in s && forall x | x in s :: |x| <= |q|
  {
    LongestExists(s);
    q :| q in s && forall x | x in s :: |x| <= |q|;
  }

  datatype ReadResult = Found(content: Content) | Missing | Failed

  // ---- the work root ----

  class Workspace {
    var fs: Files
    /** Any answer, but fixed for one update. */
    const resolves: Resolver
    /** Whether all goes well with the file system and with git. */
    const reliable: bool
    /** Whether the configuration in a tree loads: any answer, but the same for the same tree. */
    const loads: Files -> bool

    ghost predicate Valid()
      reads this
    {
      WellFormed(fs)
    }

    constructor (files: Files, resolves: Resolver, reliable: bool, loads: Files -> bool)
      requires WellFormed(files)
      ensures Valid() && fs == files && this.resolves == resolves && this.reliable == reliable && this.loads == loads
    {
      fs := files;
      this.resolves := resolves;
      this.reliable := reliable;
      this.loads := loads;
    }

    /** An I/O error at this point. */
    method Breaks() returns (broken: bool)
      ensures reliable ==> !broken
    {
      broken := *;
      broken := broken && !reliable;
    }

    /** `fs::create_dir_all`. */
    method CreateDirAll(p: Path) returns (ok: bool)
      requires Valid()
      modifies this`fs
      ensures Valid()
      ensures forall q :: Agree(old(fs), fs, q) || (q <= p && q !in old(fs) && q in fs && fs[q].Dir?)
      ensures ok ==> p in fs && fs[p].Dir?
      ensures p in old(fs) ==> fs == old(fs)
      ensures reliable && DirsOnTheWay(old(fs), p) ==> ok
    {
      var i := 0;
      while i < |p|
        invariant Valid() && 0 <= i <= |p|
        invariant p[..i] in fs && fs[p[..i]].Dir?
        invariant forall q :: Agree(old(fs), fs, q) || (q <= p && q !in old(fs) && q in fs && fs[q].Dir?)
        invariant p in old(fs) ==> fs == old(fs)
      {
        i := i + 1;
        ghost var q := p[..i];
        assert Parent(q) == p[..i - 1];
        if p[..i] in fs {
          if !fs[p[..i]].Dir? {
            return false;
          }
        } else {
          if p in old(fs) {
            AncestorsAreDirs(old(fs), p, p[..i]);
          }
          var broken := Breaks();
          if broken {
            return false;
          }
          fs := fs[p[..i] := Dir];
        }
      }
      assert p[..|p|] == p;
      return true;
    }

    /** `fs::remove_dir_all`: a failure may leave any part of the directory behind. */
    method RemoveDirAll(p: Path) returns (ok: bool)
      requires Valid() && p != []
      modifies this`fs
      ensures Valid() && Only(old(fs), fs, Below(p))
      ensures ok ==> p in old(fs) && old(fs)[p].Dir? && Absent(fs, p)
      ensures reliable && p in old(fs) && old(fs)[p].Dir? ==> ok
    {
      if p !in fs || !fs[p].Dir? {
        return false;
      }
      var todo := set q | q in fs && p <= q;
      hide Only, WellFormed;
      while todo != {}
        invariant Valid() && Only(old(fs), fs, Below(p)) && Rest(fs, p, todo)
        decreases todo
      {
        var broken := Breaks();
        if broken {
          return false;
        }
        var q := Deepest(todo);
        LeafRemoval(fs, p, todo, q);
        OnlyThrough(old(fs), fs, fs - {q}, Below(p));
        fs := fs - {q};
        todo := todo - {q};
      }
      ok := true;
      assert p !in todo;
      MissingIsAbsent(fs, p);
    }

    /** `fs::remove_file`. */
    method RemoveFile(p: Path) returns (ok: bool)
      requires Valid()
      modifies this`fs
      ensures Valid() && Only(old(fs), fs, Below(p))
      ensures ok ==> p in old(fs) && !old(fs)[p].Dir? && Absent(fs, p)
      ensures !ok ==> fs == old(fs)
      ensures reliable && p in old(fs) && !old(fs)[p].Dir? ==> ok
    {
      if p !in fs || fs[p].Dir? {
        return false;
      }
      var broken := Breaks();
      if broken {
        return false;
      }
      fs := fs - {p};
      MissingIsAbsent(fs, p);
      return true;
    }

    /** Put `node`, which is not a directory, where nothing or a non-directory was. */
    method Place(p: Path, node: Node) returns (ok: bool)
      requires Valid() && !node.Dir?
      modifies this`fs
      ensures Valid() && Only(old(fs), fs, Below(p))
      ensures ok <==> Placeable(old(fs), p)
      ensures ok ==> fs == old(fs)[p := node]
      ensures !ok ==> fs == old(fs)
    {
      if p == [] || Parent(p) !in fs || !fs[Parent(p)].Dir? || (p in fs && fs[p].Dir?) {
        return false;
      }
      forall x | x in fs && x != []
        ensures Parent(x) != p
      {
      }
      fs := fs[p := node];
      return true;
    }

    /** `fs::copy` with the permissions: a failure may leave a partial file behind. */
    method CopyFile(src: Path, dst: Path) returns (ok: bool)
      requires Valid()
      modifies this`fs
      ensures Valid() && Only(old(fs), fs, Below(dst))
      ensures ok ==> src in old(fs) && old(fs)[src].File? && fs == old(fs)[dst := old(fs)[src]]
      ensures ok ==> dst !in old(fs) || old(fs)[dst].File?
      ensures reliable && src in old(fs) && old(fs)[src].File? && Writable(old(fs), dst) ==> ok
    {
      if src !in fs || !fs[src].File? || (dst in fs && !fs[dst].File?) {
        return false;
      }
      var whole := fs[src];
      var broken := Breaks();
      if broken {
        var part: Content, mode: nat := *, *;
        ok := Place(dst, File(part, mode));
        return false;
      }
      ok := Place(dst, whole);
    }

    /** `std::os::unix::fs::symlink`. */
    method MakeLink(target: string, p: Path) returns (ok: bool)
      requires Valid()
      modifies this`fs
      ensures Valid() && Only(old(fs), fs, Below(p))
      ensures ok ==> p !in old(fs) && fs == old(fs)[p := Link(target)]
      ensures !ok ==> fs == old(fs)
      ensures reliable && p !in old(fs) && Placeable(old(fs), p) ==> ok
    {
      if p in fs {
        return false;
      }
      var broken := Breaks();
      if broken {
        return false;
      }
      ok := Place(p, Link(target));
    }

    /** `fs::write`: a failure may leave a torn file. */
    method WriteFile(p: Path, content: Content) returns (ok: bool)
      requires Valid()
      modifies this`fs
      ensures Valid() && Only(old(fs), fs, Below(p))
      ensures ok ==> p in fs && fs[p].File? && fs[p].content == content
      ensures reliable && Writable(old(fs), p) ==> ok
    {
      if p in fs && !fs[p].File? {
        return false;
      }
      var mode := if p in fs then fs[p].mode else NEW_FILE_MODE;
      var broken := Breaks();
      if broken {
        var part: Content := *;
        ok := Place(p, File(part, mode));
        return false;
      }
      ok := Place(p, File(content, mode));
    }

    /** `fs::rename` of a file: both names change at once or neither does. */
    method RenameFile(from: Path, to: Path) returns (ok: bool)
      requires Valid() && from != to && from in fs && fs[from].File?
      modifies this`fs
      ensures Valid() && Only(old(fs), fs, Below(from) + Below(to))
      ensures ok ==> to in fs && fs[to] == old(fs)[from] && from !in fs
      ensures !ok ==> fs == old(fs)
      ensures reliable && Placeable(old(fs), to) ==> ok
    {
      var broken := Breaks();
      if broken {
        return false;
      }
      var node := fs[from];
      ok := Place(to, node);
      if ok {
        forall x | x in fs && x != []
          ensures Parent(x) != from
        {
        }
        fs := fs - {from};
      }
    }

    /** `fs::read`, telling a missing file from any other failure. */
    method ReadFile(p: Path) returns (r: ReadResult)
      ensures r.Found? ==> p in fs && fs[p].File? && fs[p].content == r.content
      ensures r.Missing? ==> p !in fs
      ensures reliable ==> (r.Missing? <==> p !in fs) && (r.Found? <==> p in fs && fs[p].File?)
    {
      var broken := Breaks();
      if broken {
        return Failed;
      }
      if p !in fs {
        return Missing;
      }
      return if fs[p].File? then Found(fs[p].content) else Failed;
    }
  }
}
