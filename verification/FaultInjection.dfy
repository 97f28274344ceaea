/**
 Temporal faults on an event stream: a first pass drops, duplicates and swaps events and sets the
 late ones aside, a second pass puts those back at later positions of the output.
 */
module FaultInjection {
  import opened Integers
  import StableSort

  datatype Assignment = Clean | OutOfOrder | Late | Duplicate | Drop

  datatype FaultStats = FaultStats(outOfOrder: nat, late: nat, duplicate: nat, dropped: nat, clean: nat)

  const MAX_OFFSET: int := 120

  type Plan = seq<Assignment>

  // ---- what becomes of each event ----

  /** The event was moved as the swap partner of the one before it. */
  predicate Consumed(plan: Plan, i: nat)
    requires i < |plan|
  {
    0 < i && !Consumed(plan, i - 1) && plan[i - 1] == OutOfOrder
  }

  predicate IsLate(plan: Plan, i: nat): (late: bool)
    ensures late ==> i + 1 < |plan|
  {
    i + 1 < |plan| && !Consumed(plan, i) && plan[i] == Late
  }

  /** How often the event arrives. */
  function Copies(plan: Plan, i: nat): nat
    requires i < |plan|
  {
    if Consumed(plan, i) then 1
    else if plan[i] == Drop then 0
    else if plan[i] == Duplicate then 2
    else 1
  }

  /** The loop's next event that is not a swap partner. */
  function Next(plan: Plan, i: nat): nat
    requires i < |plan|
  {
    if plan[i] == OutOfOrder && i + 1 < |plan| then i + 2 else i + 1
  }

  /** What the first pass emits at event `i`. */
  function Head(plan: Plan, i: nat): seq<nat>
    requires i < |plan|
  {
    match plan[i]
    case Clean => [i]
    case Drop => []
    case Duplicate => [i, i]
    case OutOfOrder => if i + 1 < |plan| then [i + 1, i] else [i]
    case Late => if i + 1 < |plan| then [] else [i]
  }

  /** The indices that the first pass emits from `i` on. */
  function Emitted(plan: Plan, i: nat): seq<nat>
    decreases |plan| - i
  {
    if i >= |plan| then [] else Head(plan, i) + Emitted(plan, Next(plan, i))
  }

  /** The first pass's output position on reaching event `i`. */
  function Position(plan: Plan, i: nat): int {
    |Emitted(plan, 0)| - |Emitted(plan, i)|
  }

  /** The drawn offsets: each within the range asked for at its event. */
  predicate OffsetsOk(plan: Plan, offsets: seq<nat>) {
    |offsets| == |plan| && forall i :: 0 <= i < |plan| && IsLate(plan, i) ==>
      1 <= offsets[i] <= Min(|plan| - i - 1, MAX_OFFSET)
  }

  datatype Deferral = Deferral(index: nat, target: int)

  function DeferredAt(plan: Plan, offsets: seq<nat>, i: nat): seq<Deferral>
    requires i < |plan| == |offsets|
  {
    if plan[i] == Late && i + 1 < |plan| then [Deferral(i, Target(plan, offsets, i))] else []
  }

  /** The late events from `i` on, each with its target position. */
  function Deferred(plan: Plan, offsets: seq<nat>, i: nat): seq<Deferral>
    requires |offsets| == |plan|
    decreases |plan| - i
  {
    if i >= |plan| then []
    else
      DeferredAt(plan, offsets, i) + Deferred(plan, offsets, Next(plan, i))
  }

  function Target(plan: Plan, offsets: seq<nat>, i: nat): int
    requires i < |plan| == |offsets|
  {
    Position(plan, i) + offsets[i]
  }

  function ByTarget(): Deferral -> int {
    (d: Deferral) => -d.target
  }

  function InsertAt<T>(s: seq<T>, k: int, x: T): seq<T>
    requires 0 <= k <= |s|
  {
    s[..k] + [x] + s[k..]
  }

  /** `Vec::insert` at the target, or at the end where the output is shorter. */
  function Place(out: seq<nat>, ds: seq<Deferral>): seq<nat>
    decreases |ds|
  {
    if ds == [] then out
    else Place(InsertAt<nat>(out, Max(Min(ds[0].target, |out|), 0), ds[0].index), ds[1..])
  }

  /** The indices of the whole output, in order of arrival. */
  function Arrivals(plan: Plan, offsets: seq<nat>): seq<nat>
    requires |offsets| == |plan|
  {
    Place(Emitted(plan, 0), StableSort.Sort(Deferred(plan, offsets, 0), ByTarget()))
  }

  function At<T>(events: seq<T>, indices: seq<nat>): (out: seq<T>)
    requires forall i | i in indices :: i < |events|
    ensures |out| == |indices|
  {
    seq(|indices|, k requires 0 <= k < |indices| => assert indices[k] in indices; events[indices[k]])
  }

  // ---- the walk of the first pass ----

  /** The loop reaches `i`: it is not a swap partner. */
  predicate Reached(plan: Plan, i: nat) {
    i <= |plan| && (i < |plan| ==> !Consumed(plan, i))
  }

  lemma {:induction false} EmittedBounds(plan: Plan, i: nat)
    ensures forall x | x in Emitted(plan, i) :: i <= x < |plan|
    decreases |plan| - i
  {
    if i < |plan| {
      EmittedBounds(plan, Next(plan, i));
    }
  }

  lemma {:induction false} DeferredBounds(plan: Plan, offsets: seq<nat>, i: nat)
    requires |offsets| == |plan| && Reached(plan, i)
    ensures forall d | d in Deferred(plan, offsets, i) ::
      i <= d.index < |plan| && IsLate(plan, d.index) && d.target == Target(plan, offsets, d.index)
    decreases |plan| - i
  {
    if i < |plan| {
      DeferredBounds(plan, offsets, Next(plan, i));
    }
  }

  /** The walk's next event is again no swap partner, and a step passes over a late event only by deferring it. */
  lemma WalkOn(plan: Plan, i: nat, x: nat)
    requires Reached(plan, i) && i < |plan| && x < |plan|
    ensures Reached(plan, Next(plan, i))
    ensures IsLate(plan, x) && i <= x < Next(plan, i) <==> x == i && plan[i] == Late && i + 1 < |plan|
  {
  }

  lemma CountsOfPair(y: nat, z: nat, x: nat)
    ensures multiset([y, z])[x] == (if x == y then 1 else 0) + if x == z then 1 else 0
  {
  }

  lemma HeadCounts(plan: Plan, i: nat, x: nat)
    requires Reached(plan, i) && i < |plan| && x < |plan|
    ensures multiset(Head(plan, i))[x] == if i <= x < Next(plan, i) && !IsLate(plan, x) then Copies(plan, x) else 0
  {
    WalkOn(plan, i, x);
    if x == i {
      assert !Consumed(plan, x);
    } else if i < x < Next(plan, i) {
      assert Consumed(plan, x);
    }
    hide Consumed;
    match plan[i]
    case Duplicate => CountsOfPair(i, i, x);
    case OutOfOrder => CountsOfPair(i + 1, i, x);
    case _ =>
  }

  /** Each event that the walk from `i` on does not defer is emitted as often as it should arrive. */
  lemma {:induction false} EmittedCounts(plan: Plan, i: nat, x: nat)
    requires Reached(plan, i) && x < |plan|
    ensures multiset(Emitted(plan, i))[x] == if i <= x && !IsLate(plan, x) then Copies(plan, x) else 0
    decreases |plan| - i
  {
    hide Copies, IsLate, Reached, Head;
    if i < |plan| {
      WalkOn(plan, i, x);
      HeadCounts(plan, i, x);
      EmittedCounts(plan, Next(plan, i), x);
    }
  }

  function Indices(ds: seq<Deferral>): seq<nat> {
    if ds == [] then [] else [ds[0].index] + Indices(ds[1..])
  }

  lemma NoIndices()
    ensures Indices([]) == []
  {
  }

  lemma FirstIndex(d: Deferral, ds: seq<Deferral>)
    ensures Indices([d] + ds) == [d.index] + Indices(ds)
  {
    assert ([d] + ds)[1..] == ds;
  }

  /** And each event that it does defer, once. */
  lemma {:induction false} DeferredCounts(plan: Plan, offsets: seq<nat>, i: nat, x: nat)
    requires |offsets| == |plan| && Reached(plan, i) && x < |plan|
    ensures multiset(Indices(Deferred(plan, offsets, i)))[x] == if i <= x && IsLate(plan, x) then 1 else 0
    decreases |plan| - i
  {
    hide Copies, IsLate, Reached, Head, Target, Indices;
    if i >= |plan| {
      assert Indices([]) == [] by { NoIndices(); }
    } else {
      WalkOn(plan, i, x);
      DeferredCounts(plan, offsets, Next(plan, i), x);
      var rest := Deferred(plan, offsets, Next(plan, i));
      if plan[i] == Late && i + 1 < |plan| {
        var d := Deferral(i, Target(plan, offsets, i));
        assert Deferred(plan, offsets, i) == [d] + rest && ([d] + rest)[1..] == rest;
        FirstIndex(d, rest);
      } else {
        assert Deferred(plan, offsets, i) == [] + rest == rest;
      }
    }
  }

  // ---- the second pass ----

  /** The arrivals that are not late. */
  function OnTime(plan: Plan, s: seq<nat>): seq<nat> {
    if s == [] then []
    else OnTime(plan, s[..|s| - 1]) + if IsLate(plan, s[|s| - 1]) then [] else [s[|s| - 1]]
  }

  lemma {:induction false} OnTimeConcat(plan: Plan, s: seq<nat>, t: seq<nat>)
    ensures OnTime(plan, s + t) == OnTime(plan, s) + OnTime(plan, t)
  {
    hide IsLate;
    if t == [] {
      assert s + t == s;
    } else {
      var n := |t| - 1;
      assert (s + t)[..|s + t| - 1] == s + t[..n];
      OnTimeConcat(plan, s, t[..n]);
    }
  }

  lemma OnTimeLast(plan: Plan, s: seq<nat>, x: nat)
    ensures OnTime(plan, s + [x]) == OnTime(plan, s) + if IsLate(plan, x) then [] else [x]
  {
    hide IsLate;
    assert (s + [x])[..|s|] == s;
  }

  lemma {:induction false} AllOnTime(plan: Plan, s: seq<nat>)
    ensures |OnTime(plan, s)| <= |s|
    ensures (forall i | 0 <= i < |s| :: !IsLate(plan, s[i])) ==> OnTime(plan, s) == s
  {
    hide IsLate;
    if s != [] {
      var front := s[..|s| - 1];
      assert s == front + [s[|s| - 1]];
      AllOnTime(plan, front);
      OnTimeLast(plan, front, s[|s| - 1]);
      hide OnTime;
    }
  }

  lemma OnTimeGrows(plan: Plan, s: seq<nat>, p: nat, q: nat)
    requires p <= q <= |s|
    ensures |OnTime(plan, s[..p])| <= |OnTime(plan, s[..q])|
  {
    hide OnTime;
    assert s[..q] == s[..p] + s[p..q];
    OnTimeConcat(plan, s[..p], s[p..q]);
  }

  lemma EmittedIsOnTime(plan: Plan)
    ensures OnTime(plan, Emitted(plan, 0)) == Emitted(plan, 0)
  {
    var first := Emitted(plan, 0);
    EmittedBounds(plan, 0);
    forall x | x in first ensures !IsLate(plan, x) {
      EmittedCounts(plan, 0, x);
      assert multiset(first)[x] > 0;
    }
    AllOnTime(plan, first);
  }

  /** Late arrivals so far stand behind exactly as many on-time ones as their targets say. */
  ghost predicate Settled(plan: Plan, offsets: seq<nat>, out: seq<nat>)
    requires |offsets| == |plan|
  {
    && OnTime(plan, out) == Emitted(plan, 0)
    && forall p :: 0 <= p < |out| && IsLate(plan, out[p]) ==>
      |OnTime(plan, out[..p])| == Min(Target(plan, offsets, out[p]), |Emitted(plan, 0)|)
  }

  ghost predicate TargetsFrom(plan: Plan, offsets: seq<nat>, out: seq<nat>, bound: int)
    requires |offsets| == |plan|
  {
    forall p :: 0 <= p < |out| && IsLate(plan, out[p]) ==> bound <= Target(plan, offsets, out[p])
  }

  /** Up to the least target, or the end of the first pass, nothing late has been put in yet. */
  lemma FrontIsOnTime(plan: Plan, offsets: seq<nat>, out: seq<nat>, bound: nat)
    requires |offsets| == |plan| && Settled(plan, offsets, out) && TargetsFrom(plan, offsets, out, bound)
    ensures |Emitted(plan, 0)| <= |out|
    ensures |OnTime(plan, out[..Min(bound, |Emitted(plan, 0)|)])| == Min(bound, |Emitted(plan, 0)|)
    ensures forall q :: 0 <= q < Min(bound, |Emitted(plan, 0)|) ==> !IsLate(plan, out[q])
  {
    hide OnTime, IsLate, Target;
    AllOnTime(plan, out);
    var m := Min(bound, |Emitted(plan, 0)|);
    forall q | 0 <= q < m ensures !IsLate(plan, out[q]) {
      AllOnTime(plan, out[..q]);
    }
    AllOnTime(plan, out[..m]);
  }

  lemma SettledPlace(plan: Plan, offsets: seq<nat>, out: seq<nat>, d: Deferral)
    requires |offsets| == |plan| && Settled(plan, offsets, out) && TargetsFrom(plan, offsets, out, d.target)
    requires 0 <= d.target && IsLate(plan, d.index) && d.target == Target(plan, offsets, d.index)
    ensures |OnTime(plan, out[..Min(d.target, |out|)])| == Min(d.target, |Emitted(plan, 0)|)
  {
    hide OnTime, IsLate, Target;
    FrontIsOnTime(plan, offsets, out, d.target);
    var all := |Emitted(plan, 0)|;
    if all < d.target {
      OnTimeGrows(plan, out, all, Min(d.target, |out|));
      OnTimeGrows(plan, out, Min(d.target, |out|), |out|);
      assert out[..|out|] == out;
    }
  }

  lemma InsertLate(plan: Plan, out: seq<nat>, k: nat, x: nat, p: nat)
    requires k <= |out| && IsLate(plan, x) && p <= |out| + 1
    ensures OnTime(plan, InsertAt<nat>(out, k, x)[..p]) == OnTime(plan, if p <= k then out[..p] else out[..p - 1])
  {
    hide IsLate;
    var out' := InsertAt<nat>(out, k, x);
    if p <= k {
      assert out'[..p] == out[..p];
    } else {
      assert out'[..p] == out[..k] + [x] + out[k..p - 1];
      assert out[..p - 1] == out[..k] + out[k..p - 1];
      OnTimeConcat(plan, out[..k] + [x], out[k..p - 1]);
      OnTimeConcat(plan, out[..k], [x]);
      OnTimeConcat(plan, out[..k], out[k..p - 1]);
      assert OnTime(plan, [x]) == [];
      assert OnTime(plan, out[..k]) + [] == OnTime(plan, out[..k]);
    }
  }

  lemma PlaceOne(plan: Plan, offsets: seq<nat>, out: seq<nat>, d: Deferral)
    requires |offsets| == |plan| && Settled(plan, offsets, out) && TargetsFrom(plan, offsets, out, d.target)
    requires 0 <= d.target && IsLate(plan, d.index) && d.target == Target(plan, offsets, d.index)
    ensures var out' := InsertAt<nat>(out, Max(Min(d.target, |out|), 0), d.index);
      Settled(plan, offsets, out') && TargetsFrom(plan, offsets, out', d.target)
  {
    hide OnTime, IsLate, Target;
    var k := Min(d.target, |out|);
    var out' := InsertAt<nat>(out, k, d.index);
    SettledPlace(plan, offsets, out, d);
    InsertLate(plan, out, k, d.index, |out| + 1);
    assert out'[..|out| + 1] == out' && out[..|out|] == out;
    forall p | 0 <= p < |out'| && IsLate(plan, out'[p])
      ensures |OnTime(plan, out'[..p])| == Min(Target(plan, offsets, out'[p]), |Emitted(plan, 0)|)
      ensures d.target <= Target(plan, offsets, out'[p])
    {
      InsertLate(plan, out, k, d.index, p);
      if p < k {
        assert out'[p] == out[p];
      } else if p > k {
        assert out'[p] == out[p - 1];
      }
    }
  }

  /** The deferrals, latest target first. */
  ghost predicate Descending(plan: Plan, offsets: seq<nat>, ds: seq<Deferral>)
    requires |offsets| == |plan|
  {
    && (forall d | d in ds :: 0 <= d.target && IsLate(plan, d.index) && d.target == Target(plan, offsets, d.index))
    && StableSort.Sorted(ds, ByTarget())
  }

  lemma RestDescends(plan: Plan, offsets: seq<nat>, ds: seq<Deferral>)
    requires |offsets| == |plan| && Descending(plan, offsets, ds) && ds != []
    ensures Descending(plan, offsets, ds[1..])
    ensures |ds| > 1 ==> ds[1].target <= ds[0].target
    ensures 0 <= ds[0].target && IsLate(plan, ds[0].index) && ds[0].target == Target(plan, offsets, ds[0].index)
  {
    hide IsLate, Target;
    assert ds[0] in ds;
    if |ds| > 1 {
      assert ByTarget()(ds[0]) <= ByTarget()(ds[1]);
    }
    forall i, j | 0 <= i < j < |ds| - 1 ensures ByTarget()(ds[1..][i]) <= ByTarget()(ds[1..][j]) {
      assert ds[1..][i] == ds[i + 1] && ds[1..][j] == ds[j + 1];
    }
  }

  lemma InsertCounts(out: seq<nat>, k: nat, x: nat)
    requires k <= |out|
    ensures multiset(InsertAt<nat>(out, k, x)) == multiset(out) + multiset{x}
  {
    assert out == out[..k] + out[k..];
  }

  lemma {:induction false} PlaceAll(plan: Plan, offsets: seq<nat>, out: seq<nat>, ds: seq<Deferral>)
    requires |offsets| == |plan| && Settled(plan, offsets, out) && Descending(plan, offsets, ds)
    requires ds != [] ==> TargetsFrom(plan, offsets, out, ds[0].target)
    ensures Settled(plan, offsets, Place(out, ds))
    ensures multiset(Place(out, ds)) == multiset(out) + multiset(Indices(ds))
    decreases |ds|
  {
    hide OnTime, IsLate, Target, Settled, Descending, InsertAt;
    if ds != [] {
      var d, rest := ds[0], ds[1..];
      RestDescends(plan, offsets, ds);
      PlaceOne(plan, offsets, out, d);
      var k := Max(Min(d.target, |out|), 0);
      InsertCounts(out, k, d.index);
      assert multiset(Indices(ds)) == multiset{d.index} + multiset(Indices(rest));
      PlaceAll(plan, offsets, InsertAt<nat>(out, k, d.index), rest);
    }
  }

  // ---- the laws of the whole transformation ----

  lemma {:induction false} IndicesOfInsert(d: Deferral, ds: seq<Deferral>)
    ensures multiset(Indices(StableSort.Insert(d, ds, ByTarget()))) == multiset([d.index]) + multiset(Indices(ds))
  {
    if ds == [] || ByTarget()(d) <= ByTarget()(ds[0]) {
      FirstIndex(d, ds);
    } else {
      var rest := StableSort.Insert(d, ds[1..], ByTarget());
      IndicesOfInsert(d, ds[1..]);
      FirstIndex(ds[0], rest);
    }
  }

  lemma {:induction false} IndicesOfSort(ds: seq<Deferral>)
    ensures multiset(Indices(StableSort.Sort(ds, ByTarget()))) == multiset(Indices(ds))
  {
    if ds != [] {
      IndicesOfSort(ds[1..]);
      IndicesOfInsert(ds[0], StableSort.Sort(ds[1..], ByTarget()));
    }
  }

  lemma EndOfConcat(head: seq<nat>, tail: seq<nat>, end: seq<nat>, i: nat)
    requires |end| <= |tail| && tail[|tail| - |end|..] == end
    requires (forall k :: 0 <= k < |head| ==> head[k] < i) && forall k :: 0 <= k < |tail| - |end| ==> tail[k] < i
    ensures (head + tail)[|head + tail| - |end|..] == end
    ensures forall k :: 0 <= k < |head + tail| - |end| ==> (head + tail)[k] < i
  {
    assert (head + tail)[|head| + (|tail| - |end|)..] == tail[|tail| - |end|..];
  }

  lemma NextAtMost(plan: Plan, j: nat, i: nat)
    requires Reached(plan, j) && Reached(plan, i) && j < i
    ensures Reached(plan, Next(plan, j)) && Next(plan, j) <= i
    ensures forall k :: 0 <= k < |Head(plan, j)| ==> Head(plan, j)[k] < i
  {
  }

  /** What the first pass emits from `i` on is the end of all it emits; before that come only earlier events. */
  lemma {:induction false} EmittedEnds(plan: Plan, j: nat, i: nat)
    requires Reached(plan, j) && Reached(plan, i) && j <= i
    ensures |Emitted(plan, i)| <= |Emitted(plan, j)|
    ensures Emitted(plan, j)[|Emitted(plan, j)| - |Emitted(plan, i)|..] == Emitted(plan, i)
    ensures forall k :: 0 <= k < |Emitted(plan, j)| - |Emitted(plan, i)| ==> Emitted(plan, j)[k] < i
    decreases |plan| - j
  {
    if j < i {
      NextAtMost(plan, j, i);
      var head, tail := Head(plan, j), Emitted(plan, Next(plan, j));
      assert Emitted(plan, j) == head + tail;
      hide Head, Emitted, Reached;
      EmittedEnds(plan, Next(plan, j), i);
      EndOfConcat(head, tail, Emitted(plan, i), i);
    }
  }

  lemma DeferralsDescend(plan: Plan, offsets: seq<nat>)
    requires |offsets| == |plan|
    ensures Descending(plan, offsets, StableSort.Sort(Deferred(plan, offsets, 0), ByTarget()))
  {
    var ds := Deferred(plan, offsets, 0);
    var sorted := StableSort.Sort(ds, ByTarget());
    StableSort.SortSorts(ds, ByTarget());
    DeferredBounds(plan, offsets, 0);
    forall d | d in sorted
      ensures 0 <= d.target && IsLate(plan, d.index) && d.target == Target(plan, offsets, d.index)
    {
      assert d in multiset(sorted);
      assert d in ds;
      EmittedEnds(plan, 0, d.index);
    }
  }

  lemma ArrivalsSettle(plan: Plan, offsets: seq<nat>)
    requires |offsets| == |plan|
    ensures Settled(plan, offsets, Arrivals(plan, offsets))
    ensures multiset(Arrivals(plan, offsets)) ==
            multiset(Emitted(plan, 0)) + multiset(Indices(Deferred(plan, offsets, 0)))
  {
    var first := Emitted(plan, 0);
    var ds := Deferred(plan, offsets, 0);
    EmittedIsOnTime(plan);
    DeferralsDescend(plan, offsets);
    FirstPassSettled(plan, offsets);
    PlaceAll(plan, offsets, first, StableSort.Sort(ds, ByTarget()));
    IndicesOfSort(ds);
  }

  lemma FirstPassSettled(plan: Plan, offsets: seq<nat>)
    requires |offsets| == |plan|
    ensures Settled(plan, offsets, Emitted(plan, 0))
    ensures forall x | x in Emitted(plan, 0) :: !IsLate(plan, x)
    ensures forall bound :: TargetsFrom(plan, offsets, Emitted(plan, 0), bound)
  {
    var first := Emitted(plan, 0);
    EmittedIsOnTime(plan);
    forall p | 0 <= p < |first| ensures !IsLate(plan, first[p]) {
      EmittedBounds(plan, 0);
      assert first[p] in first;
      EmittedCounts(plan, 0, first[p]);
      assert multiset(first)[first[p]] > 0;
    }
  }

  /** Every event arrives exactly as often as its assignment says. */
  lemma ArrivalCounts(plan: Plan, offsets: seq<nat>, x: nat)
    requires |offsets| == |plan| && x < |plan|
    ensures multiset(Arrivals(plan, offsets))[x] == Copies(plan, x)
  {
    ArrivalsSettle(plan, offsets);
    EmittedCounts(plan, 0, x);
    DeferredCounts(plan, offsets, 0, x);
  }

  /** Taking the late arrivals away leaves the first pass's output. */
  lemma OnTimeIsTheFirstPass(plan: Plan, offsets: seq<nat>)
    requires |offsets| == |plan|
    ensures OnTime(plan, Arrivals(plan, offsets)) == Emitted(plan, 0)
  {
    ArrivalsSettle(plan, offsets);
  }

  // ---- the order of the arrivals ----

  /** The event is moved behind the one after it. */
  predicate Swapped(plan: Plan, i: nat) {
    i + 1 < |plan| && !Consumed(plan, i) && plan[i] == OutOfOrder
  }

  /** The arrivals at `p` and `q` are such an event and the one before which it should have come. */
  predicate SwappedPair(plan: Plan, s: seq<nat>, p: nat, q: nat)
    requires p < q < |s|
  {
    q == p + 1 && s[p] == s[q] + 1 && Swapped(plan, s[q])
  }

  lemma HeadOrder(plan: Plan, i: nat)
    requires Reached(plan, i) && i < |plan|
    ensures forall x | x in Head(plan, i) :: i <= x < Next(plan, i)
    ensures forall p, q :: 0 <= p < q < |Head(plan, i)| ==>
      (Head(plan, i)[q] < Head(plan, i)[p] <==> SwappedPair(plan, Head(plan, i), p, q))
  {
  }

  lemma {:induction false} EmittedOrder(plan: Plan, i: nat, p: nat, q: nat)
    requires Reached(plan, i) && p < q < |Emitted(plan, i)|
    ensures Emitted(plan, i)[q] < Emitted(plan, i)[p] <==> SwappedPair(plan, Emitted(plan, i), p, q)
    decreases |plan| - i
  {
    hide Head, Swapped, IsLate;
    var head, tail := Head(plan, i), Emitted(plan, Next(plan, i));
    assert Emitted(plan, i) == head + tail;
    WalkOn(plan, i, 0);
    HeadOrder(plan, i);
    hide Reached, Consumed, Next, Emitted;
    EmittedBounds(plan, Next(plan, i));
    var k := |head|;
    if k <= p {
      EmittedOrder(plan, Next(plan, i), p - k, q - k);
    } else if k <= q {
      assert head[p] in head && tail[q - k] in tail;
    } else {
      assert head[q] < head[p] <==> SwappedPair(plan, head, p, q);
    }
  }

  /** Among the arrivals that are not late, one comes before an earlier event exactly where the two have changed places. */
  lemma ArrivalsInOrder(plan: Plan, offsets: seq<nat>, p: nat, q: nat)
    requires |offsets| == |plan| && p < q < |OnTime(plan, Arrivals(plan, offsets))|
    ensures var s := OnTime(plan, Arrivals(plan, offsets)); s[q] < s[p] <==> SwappedPair(plan, s, p, q)
  {
    OnTimeIsTheFirstPass(plan, offsets);
    EmittedOrder(plan, 0, p, q);
  }

  /** And every event that should change places with the next one does. */
  lemma SwappedChangePlaces(plan: Plan, offsets: seq<nat>, i: nat)
    requires |offsets| == |plan| && Swapped(plan, i)
    ensures var s := OnTime(plan, Arrivals(plan, offsets));
      exists p :: 0 <= p < |s| - 1 && s[p] == i + 1 && s[p + 1] == i
  {
    OnTimeIsTheFirstPass(plan, offsets);
    EmittedEnds(plan, 0, i);
    var first, rest := Emitted(plan, 0), Emitted(plan, i);
    assert rest == [i + 1, i] + Emitted(plan, i + 2);
    var p := |first| - |rest|;
    assert first[p..][0] == first[p] && first[p..][1] == first[p + 1];
  }

  lemma {:induction false} OnTimeMembers(plan: Plan, s: seq<nat>, x: nat)
    ensures x in OnTime(plan, s) <==> x in s && !IsLate(plan, x)
  {
    hide IsLate;
    if s != [] {
      OnTimeMembers(plan, s[..|s| - 1], x);
    }
  }

  /** The on-time arrivals before and after a late one: the first pass's output, cut at the target. */
  lemma LateCutsTheFirstPass(plan: Plan, offsets: seq<nat>, p: nat)
    requires |offsets| == |plan| && p < |Arrivals(plan, offsets)| && IsLate(plan, Arrivals(plan, offsets)[p])
    ensures var out, first := Arrivals(plan, offsets), Emitted(plan, 0);
      var cut := Min(Target(plan, offsets, out[p]), |first|);
      0 <= cut && OnTime(plan, out[..p]) == first[..cut] && OnTime(plan, out[p..]) == first[cut..]
  {
    hide OnTime, Emitted, IsLate, Arrivals;
    var out := Arrivals(plan, offsets);
    ArrivalsSettle(plan, offsets);
    assert out == out[..p] + out[p..];
    OnTimeConcat(plan, out[..p], out[p..]);
  }

  // ---- the order of the late arrivals among themselves ----

  /** Of two late events with one target within the first pass, the later one in the input arrives first. */
  ghost predicate TiesReversed(plan: Plan, offsets: seq<nat>, out: seq<nat>)
    requires |offsets| == |plan|
  {
    forall p, q :: 0 <= p < q < |out| && Tied(plan, offsets, out[p], out[q]) ==> out[q] < out[p]
  }

  predicate Tied(plan: Plan, offsets: seq<nat>, i: nat, j: nat)
    requires |offsets| == |plan|
  {
    && IsLate(plan, i) && IsLate(plan, j)
    && Target(plan, offsets, i) == Target(plan, offsets, j) <= |Emitted(plan, 0)|
  }

  /** The late events in `out` come before those still to be placed, where they have the same target. */
  ghost predicate TiesBefore(plan: Plan, offsets: seq<nat>, out: seq<nat>, d: Deferral)
    requires |offsets| == |plan|
  {
    forall p :: 0 <= p < |out| && IsLate(plan, out[p]) && Target(plan, offsets, out[p]) == d.target ==> out[p] < d.index
  }

  predicate TiesAscend(ds: seq<Deferral>) {
    forall i, j :: 0 <= i < j < |ds| && ds[i].target == ds[j].target ==> ds[i].index < ds[j].index
  }

  lemma TieOne(plan: Plan, offsets: seq<nat>, out: seq<nat>, d: Deferral)
    requires |offsets| == |plan| && Settled(plan, offsets, out) && TargetsFrom(plan, offsets, out, d.target)
    requires 0 <= d.target && IsLate(plan, d.index) && d.target == Target(plan, offsets, d.index)
    requires TiesReversed(plan, offsets, out) && TiesBefore(plan, offsets, out, d)
    ensures TiesReversed(plan, offsets, InsertAt<nat>(out, Max(Min(d.target, |out|), 0), d.index))
  {
    hide OnTime, IsLate, Target, Emitted;
    FrontIsOnTime(plan, offsets, out, d.target);
    var k, all := Min(d.target, |out|), |Emitted(plan, 0)|;
    var out' := InsertAt<nat>(out, k, d.index);
    assert d.target <= all ==> forall p | 0 <= p < k :: out'[p] == out[p] && !IsLate(plan, out'[p]);
    forall p, q | 0 <= p < q < |out'| && Tied(plan, offsets, out'[p], out'[q])
      ensures out'[q] < out'[p]
    {
      if p == k {
        assert out'[q] == out[q - 1];
      } else if q != k {
        assert out'[p] == out[if p < k then p else p - 1] && out'[q] == out[if q < k then q else q - 1];
      }
    }
  }

  lemma StillBefore(plan: Plan, offsets: seq<nat>, out: seq<nat>, k: nat, d: Deferral, e: Deferral)
    requires |offsets| == |plan| && k <= |out| && IsLate(plan, d.index) && d.target == Target(plan, offsets, d.index)
    requires TiesBefore(plan, offsets, out, e) && (d.target == e.target ==> d.index < e.index)
    ensures TiesBefore(plan, offsets, InsertAt<nat>(out, k, d.index), e)
  {
    hide IsLate, Target;
    var out' := InsertAt<nat>(out, k, d.index);
    forall p | 0 <= p < |out'| && IsLate(plan, out'[p]) && Target(plan, offsets, out'[p]) == e.target
      ensures out'[p] < e.index
    {
      if p != k {
        assert out'[p] == out[if p < k then p else p - 1];
      }
    }
  }

  lemma {:induction false} TiesAll(plan: Plan, offsets: seq<nat>, out: seq<nat>, ds: seq<Deferral>)
    requires |offsets| == |plan| && Settled(plan, offsets, out) && Descending(plan, offsets, ds) && TiesAscend(ds)
    requires ds != [] ==> TargetsFrom(plan, offsets, out, ds[0].target)
    requires TiesReversed(plan, offsets, out) && forall d | d in ds :: TiesBefore(plan, offsets, out, d)
    ensures TiesReversed(plan, offsets, Place(out, ds))
    decreases |ds|
  {
    hide OnTime, IsLate, Target, Settled, Descending, InsertAt, TiesReversed, TiesBefore;
    if ds != [] {
      var d, rest := ds[0], ds[1..];
      RestDescends(plan, offsets, ds);
      PlaceOne(plan, offsets, out, d);
      TieOne(plan, offsets, out, d);
      var k := Max(Min(d.target, |out|), 0);
      forall e | e in rest ensures TiesBefore(plan, offsets, InsertAt<nat>(out, k, d.index), e) {
        StillBefore(plan, offsets, out, k, d, e);
      }
      TiesAll(plan, offsets, InsertAt<nat>(out, k, d.index), rest);
    }
  }

  lemma TiesAscendInFront(d: Deferral, ds: seq<Deferral>)
    requires TiesAscend(ds) && forall e | e in ds :: d.target == e.target ==> d.index < e.index
    ensures TiesAscend([d] + ds)
  {
  }

  lemma {:induction false} InsertTies(d: Deferral, ds: seq<Deferral>)
    requires TiesAscend(ds) && StableSort.Sorted(ds, ByTarget()) && forall e | e in ds :: d.index < e.index
    ensures TiesAscend(StableSort.Insert(d, ds, ByTarget()))
    ensures forall e | e in StableSort.Insert(d, ds, ByTarget()) :: e == d || e in ds
  {
    if ds == [] || ByTarget()(d) <= ByTarget()(ds[0]) {
      TiesAscendInFront(d, ds);
    } else {
      var rest := ds[1..];
      InsertTies(d, rest);
      TiesAscendInFront(ds[0], StableSort.Insert(d, rest, ByTarget()));
    }
  }

  predicate InInputOrder(ds: seq<Deferral>) {
    forall i, j :: 0 <= i < j < |ds| ==> ds[i].index < ds[j].index
  }

  lemma InOrderInFront(head: seq<Deferral>, tail: seq<Deferral>)
    requires InInputOrder(head) && InInputOrder(tail)
    requires forall d, e :: d in head && e in tail ==> d.index < e.index
    ensures InInputOrder(head + tail)
  {
  }

  lemma {:induction false} SortTies(ds: seq<Deferral>)
    requires InInputOrder(ds)
    ensures TiesAscend(StableSort.Sort(ds, ByTarget()))
    ensures forall e | e in StableSort.Sort(ds, ByTarget()) :: e in ds
  {
    if ds != [] {
      SortTies(ds[1..]);
      StableSort.SortSorts(ds[1..], ByTarget());
      InsertTies(ds[0], StableSort.Sort(ds[1..], ByTarget()));
    }
  }

  lemma {:induction false} DeferredAscend(plan: Plan, offsets: seq<nat>, i: nat)
    requires |offsets| == |plan| && Reached(plan, i)
    ensures InInputOrder(Deferred(plan, offsets, i))
    decreases |plan| - i
  {
    if i < |plan| {
      DeferredAscend(plan, offsets, Next(plan, i));
      DeferredBounds(plan, offsets, Next(plan, i));
      InOrderInFront(DeferredAt(plan, offsets, i), Deferred(plan, offsets, Next(plan, i)));
    }
  }

  lemma ArrivalTies(plan: Plan, offsets: seq<nat>)
    requires |offsets| == |plan|
    ensures TiesReversed(plan, offsets, Arrivals(plan, offsets))
  {
    var first, ds := Emitted(plan, 0), Deferred(plan, offsets, 0);
    var sorted := StableSort.Sort(ds, ByTarget());
    DeferredAscend(plan, offsets, 0);
    SortTies(ds);
    DeferralsDescend(plan, offsets);
    FirstPassSettled(plan, offsets);
    assert Place(first, sorted) == Arrivals(plan, offsets);
    hide Emitted, Deferred, StableSort.Sort, Place, IsLate, Target, Settled, Descending;
    TiesAll(plan, offsets, first, sorted);
  }

  /** Late events arrive in the order of their targets, and with the same target in the opposite order of the input. */
  lemma LateArrivalsInOrder(plan: Plan, offsets: seq<nat>, p: nat, q: nat)
    requires |offsets| == |plan| && p < q < |Arrivals(plan, offsets)|
    requires IsLate(plan, Arrivals(plan, offsets)[p]) && IsLate(plan, Arrivals(plan, offsets)[q])
    ensures var out, all := Arrivals(plan, offsets), |Emitted(plan, 0)|;
      var s, t := Target(plan, offsets, out[p]), Target(plan, offsets, out[q]);
      Min(s, all) <= Min(t, all) && (s == t <= all ==> out[q] < out[p])
  {
    ArrivalsSettle(plan, offsets);
    ArrivalTies(plan, offsets);
    hide Arrivals, OnTime, IsLate, Target, Emitted;
    OnTimeGrows(plan, Arrivals(plan, offsets), p, q);
  }

  // ---- how far a late event is put back ----

  /** The events after `i` among `s`. */
  function CountAfter(s: seq<nat>, i: nat): nat {
    if s == [] then 0 else CountAfter(s[..|s| - 1], i) + if i < s[|s| - 1] then 1 else 0
  }

  lemma {:induction false} CountAfterConcat(s: seq<nat>, t: seq<nat>, i: nat)
    ensures CountAfter(s + t, i) == CountAfter(s, i) + CountAfter(t, i)
  {
    if t == [] {
      assert s + t == s;
    } else {
      assert (s + t)[..|s + t| - 1] == s + t[..|t| - 1];
      CountAfterConcat(s, t[..|t| - 1], i);
    }
  }

  lemma {:induction false} CountAfterNone(s: seq<nat>, i: nat)
    requires forall k :: 0 <= k < |s| ==> s[k] < i
    ensures CountAfter(s, i) == 0
  {
    if s != [] {
      CountAfterNone(s[..|s| - 1], i);
    }
  }

  lemma {:induction false} CountAfterAll(s: seq<nat>, i: nat)
    requires forall k :: 0 <= k < |s| ==> i < s[k]
    ensures CountAfter(s, i) == |s|
  {
    if s != [] {
      CountAfterAll(s[..|s| - 1], i);
    }
  }

  lemma CountAfterCut(s: seq<nat>, pos: nat, cut: nat, i: nat)
    requires pos <= cut <= |s|
    requires (forall k :: 0 <= k < pos ==> s[k] < i) && forall k :: pos <= k < |s| ==> i < s[k]
    ensures CountAfter(s[..cut], i) == cut - pos
  {
    assert s[..cut] == s[..pos] + s[pos..cut];
    CountAfterConcat(s[..pos], s[pos..cut], i);
    CountAfterNone(s[..pos], i);
    CountAfterAll(s[pos..cut], i);
  }

  lemma SplitAtLate(plan: Plan, i: nat)
    requires IsLate(plan, i)
    ensures var first, pos := Emitted(plan, 0), Position(plan, i);
      && 0 <= pos <= |first| && (forall k :: 0 <= k < pos ==> first[k] < i) && forall k :: pos <= k < |first| ==> i < first[k]
  {
    LatePosition(plan, i);
    hide Emitted, Position, IsLate;
    var first, pos := Emitted(plan, 0), Position(plan, i);
    forall k | 0 <= k < pos ensures first[k] < i {
      assert first[..pos][k] in first[..pos];
    }
    forall k | pos <= k < |first| ensures i < first[k] {
      assert first[pos..][k - pos] in first[pos..];
    }
  }

  /** It is overtaken by as many of the events after it as its offset says, or by all that arrive on time. */
  lemma LateDelayExactly(plan: Plan, offsets: seq<nat>, p: nat)
    requires |offsets| == |plan| && p < |Arrivals(plan, offsets)| && IsLate(plan, Arrivals(plan, offsets)[p])
    ensures var out := Arrivals(plan, offsets);
      CountAfter(OnTime(plan, out[..p]), out[p]) == Min(offsets[out[p]], CountAfter(OnTime(plan, out), out[p]))
  {
    hide OnTime, Emitted, IsLate, Arrivals, Position, CountAfter;
    var out, first := Arrivals(plan, offsets), Emitted(plan, 0);
    var i := out[p];
    LateCutsTheFirstPass(plan, offsets, p);
    OnTimeIsTheFirstPass(plan, offsets);
    SplitAtLate(plan, i);
    CountAfterCut(first, Position(plan, i), Min(Target(plan, offsets, i), |first|), i);
    CountAfterCut(first, Position(plan, i), |first|, i);
    assert first[..|first|] == first;
  }

  /** So a drawn offset puts it behind 1 to 120 of them, where any arrive on time. */
  lemma LateDelayBounds(plan: Plan, offsets: seq<nat>, p: nat)
    requires OffsetsOk(plan, offsets) && p < |Arrivals(plan, offsets)| && IsLate(plan, Arrivals(plan, offsets)[p])
    ensures var out := Arrivals(plan, offsets);
      var delay := CountAfter(OnTime(plan, out[..p]), out[p]);
      delay <= 120 && (CountAfter(OnTime(plan, out), out[p]) > 0 ==> 1 <= delay)
  {
    hide Arrivals, OnTime, CountAfter;
    LateDelayExactly(plan, offsets, p);
  }

  /** And each number of places in reach can be drawn. */
  lemma EachOffsetIsDrawn(plan: Plan, i: nat, offset: nat)
    requires i < |plan| && 1 <= offset <= 120 && i + offset < |plan|
    ensures exists offsets :: OffsetsOk(plan, offsets) && offsets[i] == offset
  {
    var offsets := seq(|plan|, _ => 1)[i := offset];
    assert OffsetsOk(plan, offsets) && offsets[i] == offset;
  }

  lemma LateEmitsNothing(plan: Plan, i: nat)
    requires IsLate(plan, i)
    ensures Reached(plan, i) && Emitted(plan, i) == Emitted(plan, i + 1)
  {
    assert Head(plan, i) == [] && Next(plan, i) == i + 1;
    assert [] + Emitted(plan, i + 1) == Emitted(plan, i + 1);
  }

  lemma LatePosition(plan: Plan, i: nat)
    requires IsLate(plan, i)
    ensures 0 <= Position(plan, i) <= |Emitted(plan, 0)|
    ensures Emitted(plan, 0)[Position(plan, i)..] == Emitted(plan, i)
    ensures forall x | x in Emitted(plan, 0)[..Position(plan, i)] :: x < i
    ensures forall x | x in Emitted(plan, i) :: i < x
  {
    LateEmitsNothing(plan, i);
    assert Reached(plan, 0);
    hide Emitted, Reached, IsLate;
    EmittedEnds(plan, 0, i);
    EmittedBounds(plan, i + 1);
  }

  lemma BehindALateEvent(plan: Plan, offsets: seq<nat>, p: nat, q: nat)
    requires |offsets| == |plan| && p <= q < |Arrivals(plan, offsets)|
    requires var out := Arrivals(plan, offsets);
      IsLate(plan, out[p]) && !IsLate(plan, out[q])
    ensures Arrivals(plan, offsets)[p] < Arrivals(plan, offsets)[q]
  {
    hide OnTime, Emitted, IsLate, Arrivals;
    var out, first := Arrivals(plan, offsets), Emitted(plan, 0);
    var i := out[p];
    LateCutsTheFirstPass(plan, offsets, p);
    LatePosition(plan, i);
    var cut := Min(Target(plan, offsets, i), |first|);
    assert out[p..][q - p] == out[q];
    OnTimeMembers(plan, out[p..], out[q]);
    assert out[q] in first[cut..];
    assert first[cut..] == first[Position(plan, i)..][cut - Position(plan, i)..];
    assert out[q] in Emitted(plan, i);
  }

  /** A late event arrives after every on-time event that came before it in the input. */
  lemma LateFollowsItsPredecessors(plan: Plan, offsets: seq<nat>, p: nat, q: nat)
    requires |offsets| == |plan| && p < |Arrivals(plan, offsets)| && q < |Arrivals(plan, offsets)|
    requires var out := Arrivals(plan, offsets);
      IsLate(plan, out[p]) && !IsLate(plan, out[q]) && out[q] < out[p]
    ensures q < p
  {
    hide Arrivals;
    if p <= q {
      BehindALateEvent(plan, offsets, p, q);
    }
  }

  lemma OvertakenByTheRest(plan: Plan, offsets: seq<nat>, p: nat)
    requires OffsetsOk(plan, offsets) && p < |Arrivals(plan, offsets)| && IsLate(plan, Arrivals(plan, offsets)[p])
    ensures var out := Arrivals(plan, offsets);
      (exists q :: 0 <= q < p && !IsLate(plan, out[q]) && out[p] < out[q]) <==> Emitted(plan, out[p]) != []
  {
    hide OnTime, Emitted, IsLate, Arrivals;
    var out, first := Arrivals(plan, offsets), Emitted(plan, 0);
    var i := out[p];
    LateCutsTheFirstPass(plan, offsets, p);
    LatePosition(plan, i);
    var pos, cut := Position(plan, i), Min(Target(plan, offsets, i), |first|);
    if Emitted(plan, i) != [] {
      assert first[pos] == Emitted(plan, i)[0];
      assert first[pos] in Emitted(plan, i);
      assert first[pos] in first[..cut];
      OnTimeMembers(plan, out[..p], first[pos]);
      var q :| 0 <= q < p && out[..p][q] == first[pos];
      assert out[q] == first[pos];
    } else {
      forall q | 0 <= q < p && !IsLate(plan, out[q]) ensures out[q] < i {
        assert out[..p][q] == out[q];
        OnTimeMembers(plan, out[..p], out[q]);
        assert first[..pos] == first;
        assert out[q] in first[..cut];
        assert out[q] in first;
      }
    }
  }

  /** Some event after `i` arrives on time. */
  ghost predicate OnTimeFollows(plan: Plan, i: nat) {
    exists j :: i < j < |plan| && !IsLate(plan, j) && 0 < Copies(plan, j)
  }

  lemma RestIsOnTime(plan: Plan, i: nat)
    requires IsLate(plan, i)
    ensures Emitted(plan, i) != [] <==> OnTimeFollows(plan, i)
  {
    var rest := Emitted(plan, i);
    LatePosition(plan, i);
    EmittedBounds(plan, i);
    hide Emitted, Copies;
    if rest != [] {
      var j := rest[0];
      assert j in rest && multiset(rest)[j] > 0;
      EmittedCounts(plan, i, j);
    }
    if OnTimeFollows(plan, i) {
      var j :| i < j < |plan| && !IsLate(plan, j) && 0 < Copies(plan, j);
      EmittedCounts(plan, i, j);
      assert j in multiset(rest);
    }
  }

  /** It is really overtaken exactly when an event after it in the input arrives on time. */
  lemma LateIsOvertaken(plan: Plan, offsets: seq<nat>, p: nat)
    requires OffsetsOk(plan, offsets) && p < |Arrivals(plan, offsets)| && IsLate(plan, Arrivals(plan, offsets)[p])
    ensures var out := Arrivals(plan, offsets);
      (exists q :: 0 <= q < p && !IsLate(plan, out[q]) && out[p] < out[q]) <==> OnTimeFollows(plan, out[p])
  {
    OvertakenByTheRest(plan, offsets, p);
    RestIsOnTime(plan, Arrivals(plan, offsets)[p]);
  }

  /** So a late event followed only by dropped ones is not delayed at all. */
  lemma LateBeforeADropIsInPlace()
    ensures Arrivals([Clean, Late, Drop], [0, 1, 0]) == [0, 1]
    ensures OffsetsOk([Clean, Late, Drop], [0, 1, 0])
  {
    var plan: Plan := [Clean, Late, Drop];
    var offsets := [0, 1, 0];
    assert Emitted(plan, 3) == [] && Emitted(plan, 2) == [] && Emitted(plan, 1) == [] && Emitted(plan, 0) == [0];
    assert Deferred(plan, offsets, 3) == [] && Deferred(plan, offsets, 2) == [];
    var d := Deferral(1, 2);
    assert Deferred(plan, offsets, 1) == [d] && Deferred(plan, offsets, 0) == [d];
    StableSort.SortedIsFixed([d], ByTarget());
    assert InsertAt([0], 1, 1) == [0, 1];
    assert [d][1..] == [];
    assert Place([0, 1], []) == [0, 1];
  }

  // ---- statistics ----

  /** What the event counts as: a degraded fault, or a swap partner, counts as clean. */
  function Outcome(plan: Plan, i: nat): Assignment
    requires i < |plan|
  {
    if Consumed(plan, i) || (i + 1 >= |plan| && plan[i] in {OutOfOrder, Late}) then Clean else plan[i]
  }

  /** What is counted is what becomes of the event: changed places, put back, gone, or twice there. */
  lemma OutcomesExactly(plan: Plan, i: nat)
    requires i < |plan|
    ensures Outcome(plan, i) == OutOfOrder <==> Swapped(plan, i)
    ensures Outcome(plan, i) == Late <==> IsLate(plan, i)
    ensures Outcome(plan, i) == Drop <==> Copies(plan, i) == 0
    ensures Outcome(plan, i) == Duplicate <==> Copies(plan, i) == 2
  {
  }

  function Tally(plan: Plan, a: Assignment, k: nat): nat
    requires k <= |plan|
  {
    if k == 0 then 0 else Tally(plan, a, k - 1) + if Outcome(plan, k - 1) == a then 1 else 0
  }

  function StatsUpTo(plan: Plan, k: nat): FaultStats
    requires k <= |plan|
  {
    FaultStats(Tally(plan, OutOfOrder, k), Tally(plan, Late, k), Tally(plan, Duplicate, k), Tally(plan, Drop, k),
               Tally(plan, Clean, k))
  }

  /** The five statistics account for every input event once. */
  lemma {:induction false} StatsAddUp(plan: Plan, k: nat)
    requires k <= |plan|
    ensures var s := StatsUpTo(plan, k); s.outOfOrder + s.late + s.duplicate + s.dropped + s.clean == k
  {
    if k > 0 {
      StatsAddUp(plan, k - 1);
    }
  }

  // ---- conservation of the events themselves ----

  /** The indices below `k` with the outcome. */
  function With(plan: Plan, a: Assignment, k: nat): seq<nat>
    requires k <= |plan|
  {
    if k == 0 then []
    else if Outcome(plan, k - 1) == a then With(plan, a, k - 1) + [k - 1]
    else With(plan, a, k - 1)
  }

  function Range(k: nat): seq<nat> {
    if k == 0 then [] else Range(k - 1) + [k - 1]
  }

  lemma CountLast(s: seq<nat>, y: nat, x: nat)
    ensures multiset(s + [y])[x] == if x == y then multiset(s)[x] + 1 else multiset(s)[x]
  {
  }

  lemma {:induction false} WithCounts(plan: Plan, a: Assignment, k: nat, x: nat)
    requires k <= |plan|
    ensures multiset(With(plan, a, k))[x] == if x < k && Outcome(plan, x) == a then 1 else 0
  {
    hide Outcome;
    if k > 0 {
      WithCounts(plan, a, k - 1, x);
      if Outcome(plan, k - 1) == a {
        CountLast(With(plan, a, k - 1), k - 1, x);
      }
    }
  }

  lemma {:induction false} WithBelow(plan: Plan, a: Assignment, k: nat)
    requires k <= |plan|
    ensures forall y | y in With(plan, a, k) :: y < k
  {
    hide Outcome;
    if k > 0 {
      WithBelow(plan, a, k - 1);
    }
  }

  lemma {:induction false} RangeCounts(k: nat, x: nat)
    ensures multiset(Range(k))[x] == if x < k then 1 else 0
    ensures forall y | y in Range(k) :: y < k
  {
    if k > 0 {
      RangeCounts(k - 1, x);
    }
  }

  lemma SameMembers<X>(s: seq<X>, t: seq<X>)
    requires multiset(s) == multiset(t)
    ensures forall x :: x in s <==> x in t
  {
    forall x ensures x in s <==> x in t {
      assert x in s <==> x in multiset(s);
      assert x in t <==> x in multiset(t);
    }
  }

  lemma TakeOut<X>(t: seq<X>, k: nat)
    requires k < |t|
    ensures multiset(t) == multiset(t[..k] + t[k + 1..]) + multiset{t[k]}
  {
    assert t == t[..k] + [t[k]] + t[k + 1..];
  }

  lemma CancelOne<X>(m: multiset<X>, n: multiset<X>, x: X)
    requires m + multiset{x} == n + multiset{x}
    ensures m == n
  {
    assert m == (m + multiset{x}) - multiset{x};
  }

  lemma WithoutTheFirst<X>(s: seq<X>, t: seq<X>) returns (k: nat)
    requires s != [] && multiset(s) == multiset(t)
    ensures k < |t| && t[k] == s[0] && multiset(s[1..]) == multiset(t[..k] + t[k + 1..])
  {
    SameMembers(s, t);
    assert s[0] in t;
    k :| 0 <= k < |t| && t[k] == s[0];
    TakeOut(t, k);
    TakeOut(s, 0);
    assert s[..0] + s[1..] == s[1..];
    CancelOne(multiset(s[1..]), multiset(t[..k] + t[k + 1..]), s[0]);
  }

  lemma ArrivalsInRange(plan: Plan, offsets: seq<nat>)
    requires |offsets| == |plan|
    ensures forall x | x in Arrivals(plan, offsets) :: x < |plan|
  {
    hide Arrivals, Deferred, Emitted, Indices;
    ArrivalsSettle(plan, offsets);
    EmittedBounds(plan, 0);
    DeferredBounds(plan, offsets, 0);
    IndexMembers(Deferred(plan, offsets, 0));
    SameMembers(Arrivals(plan, offsets), Emitted(plan, 0) + Indices(Deferred(plan, offsets, 0)));
  }

  lemma {:induction false} IndexMembers(ds: seq<Deferral>)
    ensures forall x | x in Indices(ds) :: exists d :: d in ds && d.index == x
  {
    if ds != [] {
      IndexMembers(ds[1..]);
    }
  }

  lemma CopiesByOutcome(plan: Plan, x: nat)
    requires x < |plan|
    ensures Copies(plan, x) + (if Outcome(plan, x) == Drop then 1 else 0) ==
            1 + (if Outcome(plan, x) == Duplicate then 1 else 0)
  {
  }

  lemma IndexIsConserved(plan: Plan, offsets: seq<nat>, x: nat)
    requires |offsets| == |plan|
    ensures multiset(Arrivals(plan, offsets))[x] + multiset(With(plan, Drop, |plan|))[x] ==
            multiset(Range(|plan|))[x] + multiset(With(plan, Duplicate, |plan|))[x]
  {
    hide Arrivals, With, Range, Outcome, Copies;
    WithCounts(plan, Drop, |plan|, x);
    WithCounts(plan, Duplicate, |plan|, x);
    RangeCounts(|plan|, x);
    if x < |plan| {
      ArrivalCounts(plan, offsets, x);
      CopiesByOutcome(plan, x);
    } else {
      ArrivalsInRange(plan, offsets);
      assert x !in Arrivals(plan, offsets);
    }
  }

  /** Arrivals and dropped events together are the input and one more of each duplicated event. */
  lemma IndicesAreConserved(plan: Plan, offsets: seq<nat>)
    requires |offsets| == |plan|
    ensures multiset(Arrivals(plan, offsets) + With(plan, Drop, |plan|)) ==
            multiset(Range(|plan|) + With(plan, Duplicate, |plan|))
  {
    hide Arrivals, With, Range;
    var left, right := Arrivals(plan, offsets) + With(plan, Drop, |plan|), Range(|plan|) + With(plan, Duplicate, |plan|);
    var inLeft: multiset<nat>, inRight: multiset<nat> := multiset(left), multiset(right);
    forall x: nat ensures inLeft[x] == inRight[x] {
      IndexIsConserved(plan, offsets, x);
    }
  }

  lemma AtConcat<T>(events: seq<T>, s: seq<nat>, t: seq<nat>)
    requires forall i | i in s + t :: i < |events|
    ensures (forall i | i in s :: i < |events|) && (forall i | i in t :: i < |events|)
    ensures At(events, s + t) == At(events, s) + At(events, t)
  {
    forall i | i in s ensures i in s + t {
    }
    forall i | i in t ensures i in s + t {
    }
  }

  lemma {:induction false} SameIndicesSameEvents<T>(events: seq<T>, s: seq<nat>, t: seq<nat>)
    requires (forall i | i in s :: i < |events|) && multiset(s) == multiset(t)
    ensures forall i | i in t :: i < |events|
    ensures multiset(At(events, s)) == multiset(At(events, t))
    decreases |s|
  {
    SameMembers(s, t);
    if s == [] {
      assert |multiset(t)| == 0;
    } else {
      var k := WithoutTheFirst(s, t);
      var front, back := t[..k], t[k + 1..];
      assert t == front + [s[0]] + back && s == [s[0]] + s[1..];
      assert forall i | i in s[1..] :: i in s;
      SameIndicesSameEvents(events, s[1..], front + back);
      AtConcat(events, [s[0]], s[1..]);
      AtConcat(events, front + [s[0]], back);
      AtConcat(events, front, [s[0]]);
      AtConcat(events, front, back);
    }
  }

  lemma {:induction false} AtRange<T>(events: seq<T>, k: nat)
    requires k <= |events|
    ensures (forall i | i in Range(k) :: i < |events|) && At(events, Range(k)) == events[..k]
  {
    RangeCounts(k, 0);
    if k > 0 {
      AtRange(events, k - 1);
      AtConcat(events, Range(k - 1), [k - 1]);
    }
  }

  /** The output and the dropped events together are the input and one more of each duplicated event. */
  lemma EventsAreConserved<T>(events: seq<T>, plan: Plan, offsets: seq<nat>)
    requires |offsets| == |plan| == |events|
    ensures forall i | i in Arrivals(plan, offsets) :: i < |events|
    ensures forall i | i in With(plan, Drop, |plan|) || i in With(plan, Duplicate, |plan|) :: i < |events|
    ensures multiset(At(events, Arrivals(plan, offsets))) + multiset(At(events, With(plan, Drop, |plan|))) ==
            multiset(events) + multiset(At(events, With(plan, Duplicate, |plan|)))
  {
    hide Arrivals;
    var out, dropped, doubled := Arrivals(plan, offsets), With(plan, Drop, |plan|), With(plan, Duplicate, |plan|);
    ArrivalsInRange(plan, offsets);
    WithBelow(plan, Drop, |plan|);
    WithBelow(plan, Duplicate, |plan|);
    AtRange(events, |plan|);
    assert events[..|plan|] == events;
    IndicesAreConserved(plan, offsets);
    SameIndicesSameEvents(events, out + dropped, Range(|plan|) + doubled);
    AtConcat(events, out, dropped);
    AtConcat(events, Range(|plan|), doubled);
  }

  // ---- the transformation itself ----

  /** Pass 1 up to event `i`: the output and the deferrals so far, and what is still to come. */
  ghost predicate PassOne<T>(events: seq<T>, plan: Plan, offsets: seq<nat>, i: nat, out: seq<nat>, result: seq<T>,
                             deferred: seq<Deferral>, stats: FaultStats)
    requires |events| == |plan| == |offsets| && i <= |plan|
  {
    && out + Emitted(plan, i) == Emitted(plan, 0)
    && deferred + Deferred(plan, offsets, i) == Deferred(plan, offsets, 0)
    && (forall x | x in out :: x < |events|) && result == At(events, out)
    && stats == StatsUpTo(plan, i)
  }

  lemma EmitOne(plan: Plan, i: nat, out: seq<nat>)
    requires i < |plan| && out + Emitted(plan, i) == Emitted(plan, 0)
    ensures out + Head(plan, i) + Emitted(plan, Next(plan, i)) == Emitted(plan, 0)
  {
    Assoc(out, Head(plan, i), Emitted(plan, Next(plan, i)));
  }

  lemma Assoc<X>(s: seq<X>, t: seq<X>, u: seq<X>)
    ensures s + (t + u) == s + t + u
  {
  }

  lemma DeferOne(plan: Plan, offsets: seq<nat>, i: nat, deferred: seq<Deferral>)
    requires |offsets| == |plan| && i < |plan|
    requires deferred + Deferred(plan, offsets, i) == Deferred(plan, offsets, 0)
    ensures deferred + DeferredAt(plan, offsets, i) + Deferred(plan, offsets, Next(plan, i)) == Deferred(plan, offsets, 0)
  {
    hide DeferredAt;
    Assoc(deferred, DeferredAt(plan, offsets, i), Deferred(plan, offsets, Next(plan, i)));
  }

  lemma AtMore<T>(events: seq<T>, out: seq<nat>, more: seq<nat>)
    requires (forall x | x in out :: x < |events|) && forall x | x in more :: x < |events|
    ensures (forall x | x in out + more :: x < |events|) && At(events, out + more) == At(events, out) + At(events, more)
  {
  }

  lemma InRange(s: seq<nat>, t: seq<nat>, u: seq<nat>, n: nat)
    requires forall x | x in s + t + u :: x < n
    ensures (forall x | x in s :: x < n) && forall x | x in t :: x < n
  {
    forall x | x in s || x in t ensures x < n {
      assert x in s + t;
      assert x in s + t + u;
    }
  }

  function Counted(s: FaultStats, a: Assignment): FaultStats {
    match a
    case OutOfOrder => s.(outOfOrder := s.outOfOrder + 1)
    case Late => s.(late := s.late + 1)
    case Duplicate => s.(duplicate := s.duplicate + 1)
    case Drop => s.(dropped := s.dropped + 1)
    case Clean => s.(clean := s.clean + 1)
  }

  lemma CountOne(plan: Plan, k: nat)
    requires k < |plan|
    ensures StatsUpTo(plan, k + 1) == Counted(StatsUpTo(plan, k), Outcome(plan, k))
  {
  }

  lemma ConsumedNext(plan: Plan, i: nat)
    requires i < |plan| && Reached(plan, i)
    ensures Reached(plan, Next(plan, i))
    ensures Next(plan, i) == i + 2 ==> Consumed(plan, i + 1)
  {
  }

  /** One event's assignment. */
  method Emit<T>(events: seq<T>, plan: Plan, i: nat, result: seq<T>, stats: FaultStats)
    returns (result': seq<T>, stats': FaultStats)
    requires |events| == |plan| && i < |plan| && Reached(plan, i)
    requires stats == StatsUpTo(plan, i)
    ensures result' == result + At(events, Head(plan, i))
    ensures stats' == StatsUpTo(plan, Next(plan, i))
  {
    hide StatsUpTo;
    CountOne(plan, i);
    ConsumedNext(plan, i);
    if Next(plan, i) == i + 2 {
      CountOne(plan, i + 1);
    }
    result', stats' := result, stats;
    match plan[i]
    case Clean =>
      result' := result + [events[i]];
      stats' := stats.(clean := stats.clean + 1);
    case Drop =>
      stats' := stats.(dropped := stats.dropped + 1);
    case Duplicate =>
      result' := result + [events[i]] + [events[i]];
      stats' := stats.(duplicate := stats.duplicate + 1);
    case OutOfOrder =>
      if i + 1 < |plan| {
        result' := result + [events[i + 1]] + [events[i]];
        stats' := stats.(outOfOrder := stats.outOfOrder + 1, clean := stats.clean + 1);
      } else {
        result' := result + [events[i]];
        stats' := stats.(clean := stats.clean + 1);
      }
    case Late =>
      if i + 1 < |plan| {
        stats' := stats.(late := stats.late + 1);
      } else {
        result' := result + [events[i]];
        stats' := stats.(clean := stats.clean + 1);
      }
  }

  lemma NothingCounted(plan: Plan)
    ensures StatsUpTo(plan, 0) == FaultStats(0, 0, 0, 0, 0)
  {
  }

  lemma PositionIs(plan: Plan, i: nat, out: seq<nat>)
    requires out + Emitted(plan, i) == Emitted(plan, 0)
    ensures |out| == Position(plan, i)
  {
  }

  lemma NothingAfter(plan: Plan, offsets: seq<nat>)
    requires |offsets| == |plan|
    ensures Emitted(plan, |plan|) == [] && Deferred(plan, offsets, |plan|) == []
  {
  }

  lemma InsertMapped<T>(events: seq<T>, out: seq<nat>, k: nat, x: nat)
    requires (forall y | y in out :: y < |events|) && x < |events| && k <= |out|
    ensures forall y | y in InsertAt<nat>(out, k, x) :: y < |events|
    ensures At(events, InsertAt<nat>(out, k, x)) == InsertAt<T>(At(events, out), k, events[x])
  {
    var out' := InsertAt<nat>(out, k, x);
    forall y | y in out' ensures y < |events| {
      var j :| 0 <= j < |out'| && out'[j] == y;
      assert j < k ==> out[j] == y && out[j] in out;
      assert k < j ==> out[j - 1] == y && out[j - 1] in out;
    }
  }

  lemma PlaceStep(out: seq<nat>, ds: seq<Deferral>)
    requires ds != [] && 0 <= ds[0].target
    ensures Place(out, ds) == Place(InsertAt<nat>(out, Min(ds[0].target, |out|), ds[0].index), ds[1..])
  {
  }

  lemma NothingPlaced(out: seq<nat>)
    ensures Place(out, []) == out
  {
  }

  lemma DeferralsToPlace(plan: Plan, offsets: seq<nat>, sorted: seq<Deferral>)
    requires |offsets| == |plan| && sorted == StableSort.Sort(Deferred(plan, offsets, 0), ByTarget())
    ensures Place(Emitted(plan, 0), sorted) == Arrivals(plan, offsets)
    ensures forall d | d in sorted :: 0 <= d.target && d.index < |plan|
  {
    DeferralsDescend(plan, offsets);
  }

  /** `result.insert` of one deferred event. */
  method PutOne<T>(events: seq<T>, d: Deferral, ghost out: seq<nat>, result: seq<T>)
    returns (ghost out': seq<nat>, result': seq<T>)
    requires 0 <= d.target && d.index < |events| && (forall x | x in out :: x < |events|) && result == At(events, out)
    ensures out' == InsertAt<nat>(out, Min(d.target, |out|), d.index)
    ensures (forall x | x in out' :: x < |events|) && result' == At(events, out')
  {
    var idx := Min(d.target, |result|);
    InsertMapped(events, out, idx, d.index);
    out' := InsertAt<nat>(out, idx, d.index);
    result' := InsertAt<T>(result, idx, events[d.index]);
  }

  /** Pass 2: the deferred events go in at their targets, the latest target first. */
  method PutBack<T>(events: seq<T>, plan: Plan, offsets: seq<nat>, ghost first: seq<nat>, clean: seq<T>,
                    deferred: seq<Deferral>) returns (result: seq<T>)
    requires |plan| == |events| == |offsets|
    requires first == Emitted(plan, 0) && deferred == Deferred(plan, offsets, 0)
    requires (forall x | x in first :: x < |events|) && clean == At(events, first)
    ensures forall x | x in Arrivals(plan, offsets) :: x < |events|
    ensures result == At(events, Arrivals(plan, offsets))
  {
    hide Emitted, Deferred, StableSort.Sort, InsertAt, Place, Arrivals, At;
    var sorted := StableSort.Sort(deferred, ByTarget());
    DeferralsToPlace(plan, offsets, sorted);
    ghost var arrivals := Arrivals(plan, offsets);
    result := clean;
    ghost var out: seq<nat> := first;
    assert sorted[0..] == sorted;
    for k := 0 to |sorted|
      invariant Place(out, sorted[k..]) == arrivals
      invariant (forall x | x in out :: x < |events|) && result == At(events, out)
    {
      assert sorted[k] in sorted;
      assert sorted[k..][0] == sorted[k] && sorted[k..][1..] == sorted[k + 1..];
      PlaceStep(out, sorted[k..]);
      out, result := PutOne(events, sorted[k], out, result);
    }
    NothingPlaced(out);
    assert sorted[|sorted|..] == [];
  }

  /** One turn of pass 1, at an event that is not a swap partner. */
  method Turn<T>(events: seq<T>, plan: Plan, offsets: seq<nat>, i: nat, ghost out: seq<nat>, result: seq<T>,
                 deferred: seq<Deferral>, stats: FaultStats)
    returns (ghost out': seq<nat>, result': seq<T>, deferred': seq<Deferral>, stats': FaultStats)
    requires |plan| == |events| == |offsets| && i < |plan| && Reached(plan, i)
    requires PassOne(events, plan, offsets, i, out, result, deferred, stats)
    ensures PassOne(events, plan, offsets, Next(plan, i), out', result', deferred', stats')
  {
    hide Emitted, Deferred, StatsUpTo, Target, Head;
    EmitOne(plan, i, out);
    DeferOne(plan, offsets, i, deferred);
    EmittedBounds(plan, 0);
    InRange(out, Head(plan, i), Emitted(plan, Next(plan, i)), |events|);
    AtMore(events, out, Head(plan, i));
    deferred' := deferred;
    if plan[i] == Late && i + 1 < |plan| {
      PositionIs(plan, i, out);
      TargetIs(plan, offsets, i);
      deferred' := deferred + [Deferral(i, |result| + offsets[i])];
    } else {
      assert deferred + [] == deferred;
    }
    result', stats' := Emit(events, plan, i, result, stats);
    out' := out + Head(plan, i);
  }

  lemma TargetIs(plan: Plan, offsets: seq<nat>, i: nat)
    requires i < |plan| == |offsets|
    ensures Target(plan, offsets, i) == Position(plan, i) + offsets[i]
  {
  }

  /** `two_pass_transform`; `offsets[i]` is what is drawn for event `i` if it is late. */
  method TwoPassTransform<T>(events: seq<T>, plan: Plan, offsets: seq<nat>) returns (result: seq<T>, stats: FaultStats)
    requires |plan| == |events| && OffsetsOk(plan, offsets)
    ensures forall x | x in Arrivals(plan, offsets) :: x < |events|
    ensures result == At(events, Arrivals(plan, offsets))
    ensures stats == StatsUpTo(plan, |plan|)
  {
    hide Emitted, Deferred, StatsUpTo, Arrivals, Target, Head;
    var n := |events|;
    result, stats := [], FaultStats(0, 0, 0, 0, 0);
    var deferred: seq<Deferral> := [];
    ghost var out: seq<nat> := [];
    var consumed := seq(n, _ => false);
    var i := 0;
    NothingCounted(plan);
    assert [] + Emitted(plan, 0) == Emitted(plan, 0) && [] + Deferred(plan, offsets, 0) == Deferred(plan, offsets, 0);
    assert PassOne(events, plan, offsets, 0, out, result, deferred, stats);
    hide PassOne;
    while i < n
      invariant i <= n && |consumed| == n
      invariant i < n ==> consumed[i] == Consumed(plan, i)
      invariant forall k :: i < k < n ==> !consumed[k]
      invariant i < n && consumed[i] ==> PassOne(events, plan, offsets, i + 1, out, result, deferred, stats)
      invariant i == n || !consumed[i] ==> PassOne(events, plan, offsets, i, out, result, deferred, stats)
    {
      if !consumed[i] {
        ConsumedNext(plan, i);
        out, result, deferred, stats := Turn(events, plan, offsets, i, out, result, deferred, stats);
        if plan[i] == OutOfOrder && i + 1 < n && !consumed[i + 1] {
          consumed := consumed[i + 1 := true];
        }
      }
      i := i + 1;
    }
    PassOneEnds(events, plan, offsets, out, result, deferred, stats);
    result := PutBack(events, plan, offsets, out, result, deferred);
  }

  lemma PassOneEnds<T>(events: seq<T>, plan: Plan, offsets: seq<nat>, out: seq<nat>, result: seq<T>,
                       deferred: seq<Deferral>, stats: FaultStats)
    requires |events| == |plan| == |offsets| && PassOne(events, plan, offsets, |plan|, out, result, deferred, stats)
    ensures out == Emitted(plan, 0) && deferred == Deferred(plan, offsets, 0)
    ensures (forall x | x in out :: x < |events|) && result == At(events, out) && stats == StatsUpTo(plan, |plan|)
  {
    NothingAfter(plan, offsets);
    assert out + [] == out && deferred + [] == deferred;
  }
}
