/**
 Grouping the rules of a NEXMark verification run: a rule that binds a window must run in the
 same group as the rule that yields it, so bind edges are merged by union-find with path halving.
 */
module RuleGroups {
  // ---- parent forests ----

  /** Parent pointers that lead upwards: every non-root is strictly deeper than its parent. */
  ghost predicate Forest(g: seq<nat>, depth: seq<nat>) {
    |depth| == |g| && forall i :: 0 <= i < |g| ==> g[i] < |g| && (g[i] != i ==> depth[g[i]] < depth[i])
  }

  ghost function Root(g: seq<nat>, depth: seq<nat>, i: nat): (r: nat)
    requires Forest(g, depth) && i < |g|
    ensures r < |g| && g[r] == r
    decreases depth[i]
  {
    if g[i] == i then i else Root(g, depth, g[i])
  }

  ghost predicate SameRoots(g: seq<nat>, g': seq<nat>, depth: seq<nat>) {
    && Forest(g, depth) && Forest(g', depth)
    && forall i :: 0 <= i < |g| ==> Root(g', depth, i) == Root(g, depth, i)
  }

  /** Pointing a node at its grandparent keeps the forest and every root. */
  lemma HalvingKeepsRoots(g: seq<nat>, depth: seq<nat>, i: nat)
    requires Forest(g, depth) && i < |g|
    ensures SameRoots(g, g[i := g[g[i]]], depth)
  {
    var g' := g[i := g[g[i]]];
    assert Forest(g', depth);
    forall x | 0 <= x < |g| ensures Root(g', depth, x) == Root(g, depth, x) {
      HalvedRoot(g, depth, i, x);
    }
  }

  lemma {:induction false} HalvedRoot(g: seq<nat>, depth: seq<nat>, i: nat, x: nat)
    requires Forest(g, depth) && i < |g| && x < |g| && Forest(g[i := g[g[i]]], depth)
    ensures Root(g[i := g[g[i]]], depth, x) == Root(g, depth, x)
    decreases depth[x]
  {
    var g' := g[i := g[g[i]]];
    if g[x] != x {
      HalvedRoot(g, depth, i, g[x]);
      if x == i && g[g[x]] != g[x] {
        HalvedRoot(g, depth, i, g[g[x]]);
      }
    }
  }

  /** `find`, with path halving. */
  method Find(groupOf: array<nat>, start: nat, ghost depth: seq<nat>) returns (r: nat)
    requires Forest(groupOf[..], depth) && start < groupOf.Length
    modifies groupOf
    ensures SameRoots(old(groupOf[..]), groupOf[..], depth)
    ensures r == Root(old(groupOf[..]), depth, start) && r < groupOf.Length
  {
    ghost var before := groupOf[..];
    var i: nat := start;
    while groupOf[i] != i
      invariant i < groupOf.Length && SameRoots(before, groupOf[..], depth)
      invariant Root(groupOf[..], depth, i) == Root(before, depth, start)
      decreases depth[i]
    {
      ghost var g := groupOf[..];
      HalvingKeepsRoots(g, depth, i);
      groupOf[i] := groupOf[groupOf[i]];
      assert groupOf[..] == g[i := g[g[i]]];
      i := groupOf[i];
    }
    return i;
  }

  // ---- merging two trees ----

  /** Depths after the tree of `ri` is hung below `rj`. */
  ghost function Deepened(g: seq<nat>, depth: seq<nat>, ri: nat, rj: nat): seq<nat>
    requires Forest(g, depth) && ri < |g| && rj < |g|
  {
    seq(|g|, x requires 0 <= x < |g| =>
      if ri != rj && Root(g, depth, x) == ri then depth[x] + depth[rj] + 1 else depth[x])
  }

  lemma MergedForest(g: seq<nat>, depth: seq<nat>, ri: nat, rj: nat)
    requires Forest(g, depth) && ri < |g| && rj < |g| && g[ri] == ri && g[rj] == rj
    ensures Forest(g[ri := rj], Deepened(g, depth, ri, rj))
  {
    var g', depth' := g[ri := rj], Deepened(g, depth, ri, rj);
    forall i | 0 <= i < |g| ensures g'[i] != i ==> depth'[g'[i]] < depth'[i] {
      assert g[i] != i ==> Root(g, depth, g[i]) == Root(g, depth, i);
    }
  }

  /** Exactly the nodes of the one tree get the other's root. */
  lemma {:induction false} MergedRoot(g: seq<nat>, depth: seq<nat>, ri: nat, rj: nat, x: nat)
    requires Forest(g, depth) && ri < |g| && rj < |g| && g[ri] == ri && g[rj] == rj && x < |g|
    requires Forest(g[ri := rj], Deepened(g, depth, ri, rj))
    ensures Root(g[ri := rj], Deepened(g, depth, ri, rj), x) ==
            if Root(g, depth, x) == ri then rj else Root(g, depth, x)
    decreases depth[x]
  {
    var g', depth' := g[ri := rj], Deepened(g, depth, ri, rj);
    if g[x] != x {
      MergedRoot(g, depth, ri, rj, g[x]);
    } else if x == ri {
      assert Root(g', depth', rj) == rj;
    }
  }

  // ---- connection by edges ----

  type Edges = set<(nat, nat)>

  ghost predicate Path(edges: Edges, p: seq<nat>) {
    p != [] && forall k :: 0 <= k < |p| - 1 ==> (p[k], p[k + 1]) in edges || (p[k + 1], p[k]) in edges
  }

  /** A path of edges, taken in either direction, leads from `x` to `y`. */
  ghost predicate Connected(edges: Edges, x: nat, y: nat) {
    exists p :: Path(edges, p) && p[0] == x && p[|p| - 1] == y
  }

  lemma ConnectedSelf(edges: Edges, x: nat)
    ensures Connected(edges, x, x)
  {
    assert Path(edges, [x]);
  }

  lemma ConnectedEdge(edges: Edges, x: nat, y: nat)
    requires (x, y) in edges || (y, x) in edges
    ensures Connected(edges, x, y)
  {
    assert Path(edges, [x, y]);
  }

  lemma ConnectedBack(edges: Edges, x: nat, y: nat)
    requires Connected(edges, x, y)
    ensures Connected(edges, y, x)
  {
    var p :| Path(edges, p) && p[0] == x && p[|p| - 1] == y;
    var q := seq(|p|, k requires 0 <= k < |p| => p[|p| - 1 - k]);
    assert Path(edges, q);
  }

  lemma ConnectedThrough(edges: Edges, x: nat, y: nat, z: nat)
    requires Connected(edges, x, y) && Connected(edges, y, z)
    ensures Connected(edges, x, z)
  {
    var p :| Path(edges, p) && p[0] == x && p[|p| - 1] == y;
    var q :| Path(edges, q) && q[0] == y && q[|q| - 1] == z;
    assert Path(edges, p + q[1..]);
  }

  lemma ConnectedMore(edges: Edges, more: Edges, x: nat, y: nat)
    requires Connected(edges, x, y) && edges <= more
    ensures Connected(more, x, y)
  {
    var p :| Path(edges, p) && p[0] == x && p[|p| - 1] == y;
    assert Path(more, p);
  }

  // ---- the invariant of the union loop ----

  /** Each node hangs together with its root, and every edge lies within one tree. */
  ghost predicate Tracks(g: seq<nat>, depth: seq<nat>, edges: Edges) {
    && Forest(g, depth)
    && (forall x :: 0 <= x < |g| ==> Connected(edges, x, Root(g, depth, x)))
    && (forall e | e in edges :: e.0 < |g| && e.1 < |g| && Root(g, depth, e.0) == Root(g, depth, e.1))
  }

  lemma {:induction false} PathStaysInTree(g: seq<nat>, depth: seq<nat>, edges: Edges, p: seq<nat>, k: nat)
    requires Tracks(g, depth, edges) && Path(edges, p) && k < |p| && p[0] < |g|
    ensures p[k] < |g| && Root(g, depth, p[k]) == Root(g, depth, p[0])
  {
    if k > 0 {
      PathStaysInTree(g, depth, edges, p, k - 1);
    }
  }

  /** The trees are the connected components. */
  lemma TreesAreComponents(g: seq<nat>, depth: seq<nat>, edges: Edges, x: nat, y: nat)
    requires Tracks(g, depth, edges) && x < |g| && y < |g|
    ensures Root(g, depth, x) == Root(g, depth, y) <==> Connected(edges, x, y)
  {
    if Root(g, depth, x) == Root(g, depth, y) {
      ConnectedBack(edges, y, Root(g, depth, y));
      ConnectedThrough(edges, x, Root(g, depth, x), y);
    }
    if Connected(edges, x, y) {
      var p :| Path(edges, p) && p[0] == x && p[|p| - 1] == y;
      PathStaysInTree(g, depth, edges, p, |p| - 1);
    }
  }

  lemma TracksSameRoots(g: seq<nat>, g': seq<nat>, depth: seq<nat>, edges: Edges)
    requires Tracks(g, depth, edges) && SameRoots(g, g', depth)
    ensures Tracks(g', depth, edges)
  {
  }

  lemma TracksMerged(g: seq<nat>, depth: seq<nat>, edges: Edges, i: nat, j: nat)
    requires Tracks(g, depth, edges) && i < |g| && j < |g|
    ensures var ri, rj := Root(g, depth, i), Root(g, depth, j);
      Tracks(g[ri := rj], Deepened(g, depth, ri, rj), edges + {(i, j)})
  {
    var ri, rj := Root(g, depth, i), Root(g, depth, j);
    var g', depth', edges' := g[ri := rj], Deepened(g, depth, ri, rj), edges + {(i, j)};
    MergedForest(g, depth, ri, rj);
    forall x | 0 <= x < |g|
      ensures Root(g', depth', x) == if Root(g, depth, x) == ri then rj else Root(g, depth, x)
    {
      MergedRoot(g, depth, ri, rj, x);
    }
    forall x | 0 <= x < |g| ensures Connected(edges', x, Root(g', depth', x)) {
      ConnectedMore(edges, edges', x, Root(g, depth, x));
      if Root(g, depth, x) == ri {
        RootsJoined(edges, i, j, ri, rj);
        ConnectedThrough(edges', x, ri, rj);
      }
    }
  }

  lemma RootsJoined(edges: Edges, i: nat, j: nat, ri: nat, rj: nat)
    requires Connected(edges, i, ri) && Connected(edges, j, rj)
    ensures Connected(edges + {(i, j)}, ri, rj)
  {
    var edges' := edges + {(i, j)};
    ConnectedMore(edges, edges', i, ri);
    ConnectedMore(edges, edges', j, rj);
    ConnectedBack(edges', i, ri);
    ConnectedEdge(edges', i, j);
    ConnectedThrough(edges', ri, i, j);
    ConnectedThrough(edges', ri, j, rj);
  }

  /** One bind edge. */
  method Union(groupOf: array<nat>, i: nat, j: nat, ghost depth: seq<nat>, ghost edges: Edges)
    returns (ghost depth': seq<nat>)
    requires i < groupOf.Length && j < groupOf.Length && Tracks(groupOf[..], depth, edges)
    modifies groupOf
    ensures Tracks(groupOf[..], depth', edges + {(i, j)})
  {
    ghost var g0 := groupOf[..];
    var ri := Find(groupOf, i, depth);
    TracksSameRoots(g0, groupOf[..], depth, edges);
    ghost var g1 := groupOf[..];
    var rj := Find(groupOf, j, depth);
    TracksSameRoots(g1, groupOf[..], depth, edges);
    ghost var g := groupOf[..];
    TracksMerged(g, depth, edges, i, j);
    depth' := Deepened(g, depth, ri, rj);
    groupOf[ri] := rj;
    assert groupOf[..] == g[ri := rj];
  }

  // ---- the rules ----

  datatype Rule = Rule(target: string, binds: seq<string>)

  /** The rule that a bound window leads to: the last one yielding it. */
  ghost predicate LastYielder(rules: seq<Rule>, window: string, j: nat) {
    j < |rules| && rules[j].target == window && forall k :: j < k < |rules| ==> rules[k].target != window
  }

  /** The edges of the first `n` rules. */
  ghost function BindEdges(rules: seq<Rule>, n: nat): Edges
    requires n <= |rules|
  {
    set i: nat, j: nat | i < n && j < |rules| && (exists w | w in rules[i].binds :: LastYielder(rules, w, j)) :: (i, j)
  }

  /** The edges of one rule's first `m` binds. */
  ghost function EdgesOf(rules: seq<Rule>, i: nat, m: nat): Edges
    requires i < |rules| && m <= |rules[i].binds|
  {
    set j: nat | j < |rules| && (exists w | w in rules[i].binds[..m] :: LastYielder(rules, w, j)) :: (i, j)
  }

  method YieldIndex(rules: seq<Rule>) returns (index: map<string, nat>)
    ensures forall w :: w in index <==> exists k :: 0 <= k < |rules| && rules[k].target == w
    ensures forall w | w in index :: LastYielder(rules, w, index[w])
  {
    index := map[];
    for i := 0 to |rules|
      invariant forall w :: w in index <==> exists k :: 0 <= k < i && rules[k].target == w
      invariant forall w | w in index :: LastYielder(rules[..i], w, index[w])
    {
      index := index[rules[i].target := i];
    }
    assert rules[..|rules|] == rules;
  }

  lemma NextBind(rules: seq<Rule>, i: nat, m: nat, index: map<string, nat>)
    requires i < |rules| && m < |rules[i].binds|
    requires forall w :: w in index <==> exists k :: 0 <= k < |rules| && rules[k].target == w
    requires forall w | w in index :: LastYielder(rules, w, index[w])
    ensures var w := rules[i].binds[m];
      EdgesOf(rules, i, m + 1) == EdgesOf(rules, i, m) + if w in index then {(i, index[w])} else {}
  {
    var w := rules[i].binds[m];
    assert rules[i].binds[..m + 1] == rules[i].binds[..m] + [w];
    forall j: nat | LastYielder(rules, w, j) ensures w in index && j == index[w] {
    }
    if w in index {
      assert w in rules[i].binds[..m + 1] && LastYielder(rules, w, index[w]);
    }
    forall j: nat | j < |rules| && exists v | v in rules[i].binds[..m + 1] :: LastYielder(rules, v, j)
      ensures (i, j) in EdgesOf(rules, i, m) + if w in index then {(i, index[w])} else {}
    {
      var v :| v in rules[i].binds[..m + 1] && LastYielder(rules, v, j);
    }
  }

  lemma NextRule(rules: seq<Rule>, i: nat)
    requires i < |rules|
    ensures BindEdges(rules, i + 1) == BindEdges(rules, i) + EdgesOf(rules, i, |rules[i].binds|)
  {
    assert rules[i].binds[..|rules[i].binds|] == rules[i].binds;
  }

  /** The binds of rule `i`. */
  method MergeBinds(groupOf: array<nat>, rules: seq<Rule>, i: nat, index: map<string, nat>, ghost depth: seq<nat>)
    returns (ghost depth': seq<nat>)
    requires i < |rules| && groupOf.Length == |rules| && Tracks(groupOf[..], depth, BindEdges(rules, i))
    requires forall w :: w in index <==> exists k :: 0 <= k < |rules| && rules[k].target == w
    requires forall w | w in index :: LastYielder(rules, w, index[w])
    modifies groupOf
    ensures Tracks(groupOf[..], depth', BindEdges(rules, i + 1))
  {
    hide Tracks, BindEdges;
    depth' := depth;
    ghost var before := BindEdges(rules, i);
    assert before + EdgesOf(rules, i, 0) == before;
    for m := 0 to |rules[i].binds|
      invariant Tracks(groupOf[..], depth', before + EdgesOf(rules, i, m))
    {
      var window := rules[i].binds[m];
      NextBind(rules, i, m, index);
      if window in index {
        depth' := Union(groupOf, i, index[window], depth', before + EdgesOf(rules, i, m));
        assert before + EdgesOf(rules, i, m) + {(i, index[window])} == before + EdgesOf(rules, i, m + 1);
      } else {
        assert before + EdgesOf(rules, i, m + 1) == before + EdgesOf(rules, i, m);
      }
    }
    NextRule(rules, i);
  }

  // ---- the groups ----

  /** The indices below `n` whose root is `r`, ascending. */
  ghost function Members(g: seq<nat>, depth: seq<nat>, r: nat, n: nat): seq<nat>
    requires Forest(g, depth) && n <= |g|
  {
    if n == 0 then []
    else Members(g, depth, r, n - 1) + if Root(g, depth, n - 1) == r then [n - 1] else []
  }

  lemma {:induction false} MembersAre(g: seq<nat>, depth: seq<nat>, r: nat, n: nat)
    requires Forest(g, depth) && n <= |g|
    ensures forall i: nat :: i in Members(g, depth, r, n) <==> i < n && Root(g, depth, i) == r
    ensures forall k, m :: 0 <= k < m < |Members(g, depth, r, n)| ==>
      Members(g, depth, r, n)[k] < Members(g, depth, r, n)[m]
  {
    if n > 0 {
      MembersAre(g, depth, r, n - 1);
      var before := Members(g, depth, r, n - 1);
      forall k | 0 <= k < |before| ensures before[k] < n - 1 {
        assert before[k] in before;
      }
    }
  }

  lemma {:induction false} MembersSameRoots(g: seq<nat>, g': seq<nat>, depth: seq<nat>, r: nat, n: nat)
    requires SameRoots(g, g', depth) && |g'| == |g| && n <= |g|
    ensures Members(g', depth, r, n) == Members(g, depth, r, n)
  {
    if n > 0 {
      MembersSameRoots(g, g', depth, r, n - 1);
    }
  }

  type Groups = map<nat, seq<nat>>

  ghost predicate Grouped(groups: Groups, i: nat) {
    exists r | r in groups :: i in groups[r]
  }

  ghost predicate SameGroup(groups: Groups, i: nat, j: nat) {
    exists r | r in groups :: i in groups[r] && j in groups[r]
  }

  /** The groups divide the first `n` rules among themselves, each group in rule order. */
  ghost predicate Divides(groups: Groups, n: nat) {
    && (forall i: nat :: i < n <==> Grouped(groups, i))
    && (forall r, q | r in groups && q in groups && r != q :: forall i | i in groups[r] :: i !in groups[q])
    && (forall r | r in groups :: groups[r] != [] &&
          forall k, m :: 0 <= k < m < |groups[r]| ==> groups[r][k] < groups[r][m])
  }

  ghost predicate Collected(groups: Groups, g: seq<nat>, depth: seq<nat>, n: nat)
    requires Forest(g, depth) && n <= |g|
  {
    forall r: nat :: (r in groups <==> Members(g, depth, r, n) != []) &&
      (r in groups ==> groups[r] == Members(g, depth, r, n))
  }

  lemma CollectedDivides(groups: Groups, g: seq<nat>, depth: seq<nat>)
    requires Forest(g, depth) && Collected(groups, g, depth, |g|)
    ensures Divides(groups, |g|)
    ensures forall i, j | 0 <= i < |g| && 0 <= j < |g| :: SameGroup(groups, i, j) <==> Root(g, depth, i) == Root(g, depth, j)
  {
    hide Members;
    forall r: nat { MembersAre(g, depth, r, |g|); }
    forall i: nat | i < |g| ensures Root(g, depth, i) in groups && i in groups[Root(g, depth, i)] && Grouped(groups, i) {
      assert i in Members(g, depth, Root(g, depth, i), |g|);
    }
    forall i: nat | Grouped(groups, i) ensures i < |g| {
      var r :| r in groups && i in groups[r];
    }
    forall r, q, i | r in groups && q in groups && i in groups[r] && i in groups[q] ensures r == q {
      assert Root(g, depth, i) == r && Root(g, depth, i) == q;
    }
  }

  /** The second loop: every rule joins the list of its root. */
  method Collect(groupOf: array<nat>, ghost depth: seq<nat>) returns (groups: Groups)
    requires Forest(groupOf[..], depth)
    modifies groupOf
    ensures Collected(groups, old(groupOf[..]), depth, groupOf.Length)
  {
    ghost var g := groupOf[..];
    groups := map[];
    for i := 0 to groupOf.Length
      invariant SameRoots(g, groupOf[..], depth)
      invariant Collected(groups, g, depth, i)
    {
      var r := Find(groupOf, i, depth);
      groups := groups[r := (if r in groups then groups[r] else []) + [i]];
    }
  }

  /** The grouping inside `run`. */
  method GroupRules(rules: seq<Rule>) returns (groups: Groups)
    ensures Divides(groups, |rules|)
    ensures forall i, j | 0 <= i < |rules| && 0 <= j < |rules| ::
      SameGroup(groups, i, j) <==> Connected(BindEdges(rules, |rules|), i, j)
  {
    var groupOf := new nat[|rules|](i => i);
    ghost var depth := seq(|rules|, _ => 0);
    var index := YieldIndex(rules);
    NoEdgesYet(groupOf[..], depth, BindEdges(rules, 0));
    for i := 0 to |rules|
      invariant Tracks(groupOf[..], depth, BindEdges(rules, i))
    {
      depth := MergeBinds(groupOf, rules, i, index, depth);
    }
    ghost var g := groupOf[..];
    groups := Collect(groupOf, depth);
    CollectedDivides(groups, g, depth);
    forall i, j | 0 <= i < |rules| && 0 <= j < |rules|
      ensures SameGroup(groups, i, j) <==> Connected(BindEdges(rules, |rules|), i, j)
    {
      TreesAreComponents(g, depth, BindEdges(rules, |rules|), i, j);
    }
  }

  lemma NoEdgesYet(g: seq<nat>, depth: seq<nat>, edges: Edges)
    requires |depth| == |g| && (forall i :: 0 <= i < |g| ==> g[i] == i) && edges == {}
    ensures Tracks(g, depth, edges)
  {
    forall x: nat { ConnectedSelf(edges, x); }
  }

  // ---- which yield-bind pairs stay together ----

  /** Every rule runs together with every rule that yields a window it binds. */
  ghost predicate AllPairsTogether(rules: seq<Rule>) {
    forall i, j | 0 <= i < |rules| && 0 <= j < |rules| && rules[j].target in rules[i].binds ::
      Connected(BindEdges(rules, |rules|), i, j)
  }

  ghost predicate Distinct(targets: seq<string>) {
    forall i, j :: 0 <= i < j < |targets| ==> targets[i] != targets[j]
  }

  ghost function WithBinds(targets: seq<string>, binds: seq<seq<string>>): (rules: seq<Rule>)
    requires |binds| == |targets|
    ensures |rules| == |targets|
  {
    seq(|targets|, i requires 0 <= i < |targets| => Rule(targets[i], binds[i]))
  }

  lemma DistinctTargetsKeepPairs(rules: seq<Rule>)
    requires forall i, j :: 0 <= i < j < |rules| ==> rules[i].target != rules[j].target
    ensures AllPairsTogether(rules)
  {
    forall i, j | 0 <= i < |rules| && 0 <= j < |rules| && rules[j].target in rules[i].binds
      ensures Connected(BindEdges(rules, |rules|), i, j)
    {
      assert LastYielder(rules, rules[j].target, j);
      ConnectedEdge(BindEdges(rules, |rules|), i, j);
    }
  }

  lemma {:induction false} LastOf(targets: seq<string>, b: nat) returns (last: nat)
    requires b < |targets|
    ensures b <= last < |targets| && targets[last] == targets[b]
    ensures forall k :: last < k < |targets| ==> targets[k] != targets[b]
    decreases |targets| - b
  {
    if k :| b < k < |targets| && targets[k] == targets[b] {
      last := LastOf(targets, k);
    } else {
      last := b;
    }
  }

  lemma {:induction false} LoopLeadsNowhere(edges: Edges, l: nat, p: seq<nat>, k: nat)
    requires edges <= {(l, l)} && Path(edges, p) && k < |p|
    ensures p[k] == p[0]
  {
    if k > 0 {
      LoopLeadsNowhere(edges, l, p, k - 1);
    }
  }

  /** Where two rules yield one window, a rule that binds it can be parted from the earlier yielder. */
  lemma DuplicateTargetLosesAPair(targets: seq<string>, a: nat, b: nat) returns (binds: seq<seq<string>>)
    requires a < b < |targets| && targets[a] == targets[b]
    ensures |binds| == |targets| && !AllPairsTogether(WithBinds(targets, binds))
  {
    var last := LastOf(targets, b);
    binds := seq(|targets|, i => if i == last then [targets[last]] else []);
    var rules := WithBinds(targets, binds);
    var edges := BindEdges(rules, |rules|);
    assert edges <= {(last, last)};
    assert rules[a].target in rules[last].binds;
    if Connected(edges, last, a) {
      var p :| Path(edges, p) && p[0] == last && p[|p| - 1] == a;
      LoopLeadsNowhere(edges, last, p, |p| - 1);
    }
  }

  /** The grouping keeps every yield-bind pair together, whatever the binds, exactly when the targets are distinct. */
  lemma PairsStayTogether(targets: seq<string>)
    ensures Distinct(targets) <==>
      forall binds: seq<seq<string>> | |binds| == |targets| :: AllPairsTogether(WithBinds(targets, binds))
  {
    if Distinct(targets) {
      forall binds: seq<seq<string>> | |binds| == |targets| ensures AllPairsTogether(WithBinds(targets, binds)) {
        DistinctTargetsKeepPairs(WithBinds(targets, binds));
      }
    } else {
      var a, b :| 0 <= a < b < |targets| && targets[a] == targets[b];
      var binds := DuplicateTargetLosesAPair(targets, a, b);
    }
  }
}
