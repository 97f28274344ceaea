/**
 Routing NEXMark events into thirty-second buckets and reading the buckets back in order, as the
 generator (to files) and the verifier (in memory) both do.
 */
module TimeBuckets {
  import opened Integers
  import opened Nexmark
  import StableSort

  const BUCKET_NS: int := 30_000_000_000

  /** `time_buckets_for`: one bucket for every thirty seconds of the run, and at least one. */
  function TimeBucketsFor(count: int): nat {
    Max(TruncDiv(count * INTER_EVENT_DELAY_NS, BUCKET_NS), 1)
  }

  function BucketOf(ns: int, buckets: nat): (b: nat)
    requires 0 < buckets
    ensures b < buckets
  {
    Min(Max(ns - BASE_NS, 0) / BUCKET_NS, buckets - 1)
  }

  /** The sort key of the routing. */
  function EventBucket(buckets: nat): NxEvent -> int
    requires 0 < buckets
  {
    (ev: NxEvent) => BucketOf(ev.ns, buckets)
  }

  /** Each bucket holds, in order, the events that belong to it. */
  ghost predicate Routed(evs: seq<NxEvent>, buckets: seq<seq<NxEvent>>)
    requires 0 < |buckets|
  {
    forall b :: 0 <= b < |buckets| ==> buckets[b] == StableSort.WithKey(evs, EventBucket(|buckets|), b)
  }

  lemma RouteOne(evs: seq<NxEvent>, ev: NxEvent, buckets: nat, b: nat)
    requires 0 < buckets
    ensures StableSort.WithKey(evs + [ev], EventBucket(buckets), b) ==
      StableSort.WithKey(evs, EventBucket(buckets), b) + if BucketOf(ev.ns, buckets) == b then [ev] else []
  {
    StableSort.WithKeyConcat(evs, [ev], EventBucket(buckets), b);
    assert [ev][1..] == [];
  }

  /** The routing loop: `collect_buckets`, and `write_event` on the bucket files. */
  method Route(evs: seq<NxEvent>, n: nat) returns (buckets: seq<seq<NxEvent>>)
    requires 0 < n
    ensures |buckets| == n && Routed(evs, buckets)
  {
    hide StableSort.WithKey, BucketOf;
    buckets := seq(n, _ => []);
    forall b: nat ensures StableSort.WithKey(evs[..0], EventBucket(n), b) == [] {
      NothingRouted(n, b);
    }
    for k := 0 to |evs|
      invariant |buckets| == n && Routed(evs[..k], buckets)
    {
      var b := BucketOf(evs[k].ns, n);
      forall c: nat | c < n
        ensures StableSort.WithKey(evs[..k + 1], EventBucket(n), c) ==
          StableSort.WithKey(evs[..k], EventBucket(n), c) + if b == c then [evs[k]] else []
      {
        assert evs[..k + 1] == evs[..k] + [evs[k]];
        RouteOne(evs[..k], evs[k], n, c);
      }
      buckets := buckets[b := buckets[b] + [evs[k]]];
    }
    assert evs[..|evs|] == evs;
  }

  lemma NothingRouted(n: nat, b: nat)
    requires 0 < n
    ensures StableSort.WithKey([], EventBucket(n), b) == []
  {
  }

  // ---- reading the buckets back ----

  lemma {:induction false} ConcatKeys(evs: seq<NxEvent>, buckets: seq<seq<NxEvent>>, n: nat, first: nat, v: int)
    requires 0 < n && first + |buckets| == n
    requires forall b :: 0 <= b < |buckets| ==> buckets[b] == StableSort.WithKey(evs, EventBucket(n), first + b)
    ensures StableSort.WithKey(StableSort.Concat(buckets), EventBucket(n), v) ==
      if first <= v < n then StableSort.WithKey(evs, EventBucket(n), v) else []
    ensures StableSort.Sorted(StableSort.Concat(buckets), EventBucket(n))
    ensures forall ev | ev in StableSort.Concat(buckets) :: first <= BucketOf(ev.ns, n)
    decreases |buckets|
  {
    hide StableSort.WithKey, BucketOf;
    var key := EventBucket(n);
    if buckets == [] {
      NothingRouted(n, first);
      NoneOfEmpty(key, v);
    } else {
      forall b | 0 <= b < |buckets[1..]|
        ensures buckets[1..][b] == StableSort.WithKey(evs, key, first + 1 + b)
      {
        assert buckets[1..][b] == buckets[b + 1];
      }
      ConcatKeys(evs, buckets[1..], n, first + 1, v);
      StableSort.WithKeyMember(evs, key, first);
      StableSort.WithKeyConcat(buckets[0], StableSort.Concat(buckets[1..]), key, v);
      OfOneKey(buckets[0], key, first, v);
    }
  }

  lemma NoneOfEmpty(key: NxEvent -> int, v: int)
    ensures StableSort.WithKey([], key, v) == []
  {
  }

  lemma {:induction false} OfOneKey(s: seq<NxEvent>, key: NxEvent -> int, w: int, v: int)
    requires forall x | x in s :: key(x) == w
    ensures StableSort.WithKey(s, key, v) == if v == w then s else []
  {
    if s != [] {
      OfOneKey(s[1..], key, w, v);
    }
  }

  /** The buckets in order are the stable sort of the events by bucket: a permutation that never goes back a bucket. */
  lemma BucketsAreTheStableSort(evs: seq<NxEvent>, buckets: seq<seq<NxEvent>>)
    requires 0 < |buckets| && Routed(evs, buckets)
    ensures StableSort.Concat(buckets) == StableSort.Sort(evs, EventBucket(|buckets|))
    ensures multiset(StableSort.Concat(buckets)) == multiset(evs)
  {
    var n := |buckets|;
    var key := EventBucket(n);
    ConcatKeys(evs, buckets, n, 0, 0);
    forall v ensures StableSort.WithKey(StableSort.Concat(buckets), key, v) == StableSort.WithKey(evs, key, v) {
      ConcatKeys(evs, buckets, n, 0, v);
      StableSort.WithKeyMember(evs, key, v);
      if !(0 <= v < n) {
        NoSuchBucket(evs, n, v);
      }
    }
    StableSort.StableMeansSort(evs, StableSort.Concat(buckets), key);
    StableSort.SortSorts(evs, key);
  }

  lemma {:induction false} NoSuchBucket(evs: seq<NxEvent>, n: nat, v: int)
    requires 0 < n && !(0 <= v < n)
    ensures StableSort.WithKey(evs, EventBucket(n), v) == []
  {
    if evs != [] {
      NoSuchBucket(evs[1..], n, v);
    }
  }

  // ---- generated streams ----

  lemma TimesRise(evs: seq<NxEvent>, k: nat)
    requires Generated(evs) && k < |evs|
    ensures evs[k].ns == BASE_NS + k * INTER_EVENT_DELAY_NS
  {
    assert CanEmit(k, evs[k]);
  }

  /** An event number's bucket: 300,000 events to a bucket, the last bucket taking the remainder. */
  lemma BucketOfNumber(count: nat, k: nat)
    requires k < count
    ensures BucketOf(BASE_NS + k * INTER_EVENT_DELAY_NS, TimeBucketsFor(count)) ==
      Min(k / 300_000, TimeBucketsFor(count) - 1)
    ensures TimeBucketsFor(count) == Max(count / 300_000, 1)
  {
    assert k * INTER_EVENT_DELAY_NS / BUCKET_NS == k / 300_000;
    assert count * INTER_EVENT_DELAY_NS / BUCKET_NS == count / 300_000;
  }

  /** Bucketing a generated stream and reading it back changes nothing. */
  lemma GeneratedOrderSurvives(evs: seq<NxEvent>, buckets: seq<seq<NxEvent>>)
    requires Generated(evs) && |buckets| == TimeBucketsFor(|evs|) && Routed(evs, buckets)
    ensures StableSort.Concat(buckets) == evs
  {
    var n := |buckets|;
    var key := EventBucket(n);
    forall i, j | 0 <= i < j < |evs| ensures key(evs[i]) <= key(evs[j]) {
      TimesRise(evs, i);
      TimesRise(evs, j);
      BucketOfNumber(|evs|, i);
      BucketOfNumber(|evs|, j);
    }
    BucketsAreTheStableSort(evs, buckets);
    StableSort.SortedIsFixed(evs, key);
  }
}
