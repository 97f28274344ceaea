/**
 Generating a scenario's events: each stream gets a share of the budget, its events are spaced
 evenly in time, and the sorted chunks are merged with a heap.
 */
module ChunkMerge {
  import opened Integers
  import opened Wrappers
  import StableSort

  /** An event: its time in nanoseconds since the epoch, and everything else about it. */
  datatype GenEvent = GenEvent(timestamp: int, stream: string, body: int)

  type Chunk = seq<GenEvent>

  /** `timestamp_nanos_opt().unwrap_or(i64::MAX)`. */
  function Key(e: GenEvent): int {
    if I64_MIN <= e.timestamp <= I64_MAX then e.timestamp else I64_MAX
  }

  function Timestamp(e: GenEvent): int {
    e.timestamp
  }

  // ---- the merge, as a function ----

  /** The head of chunk `c` goes next: by key, then by chunk. */
  ghost predicate GoesNext(rem: seq<Chunk>, c: nat) {
    && c < |rem| && rem[c] != []
    && (forall d :: 0 <= d < c && rem[d] != [] ==> Key(rem[c][0]) < Key(rem[d][0]))
    && (forall d :: c <= d < |rem| && rem[d] != [] ==> Key(rem[c][0]) <= Key(rem[d][0]))
  }

  ghost function NextChunk(rem: seq<Chunk>): (c: Option<nat>)
    ensures c.None? ==> forall d :: 0 <= d < |rem| ==> rem[d] == []
    ensures c.Some? ==> GoesNext(rem, c.value)
  {
    if rem == [] then None
    else
      var n := |rem| - 1;
      assert forall d :: 0 <= d < n ==> rem[..n][d] == rem[d];
      match NextChunk(rem[..n])
      case None => if rem[n] == [] then None else Some(n)
      case Some(c) => Some(if rem[n] != [] && Key(rem[n][0]) < Key(rem[c][0]) then n else c)
  }

  /** What the heap merge gives, for any chunks at all. */
  ghost function Merge(rem: seq<Chunk>): Chunk
    decreases |StableSort.Concat(rem)|
  {
    match NextChunk(rem)
    case None => []
    case Some(c) =>
      AroundPop(rem, c);
      [rem[c][0]] + Merge(rem[c := rem[c][1..]])
  }

  lemma NextIsTheOne(rem: seq<Chunk>, c: nat)
    requires GoesNext(rem, c)
    ensures NextChunk(rem) == Some(c)
  {
    var next := NextChunk(rem);
    assert next.Some? && GoesNext(rem, next.value);
  }

  lemma MergeStep(rem: seq<Chunk>, c: nat)
    requires GoesNext(rem, c)
    ensures Merge(rem) == [rem[c][0]] + Merge(rem[c := rem[c][1..]])
  {
    NextIsTheOne(rem, c);
  }

  lemma {:induction false} MergeKeeps(rem: seq<Chunk>)
    ensures multiset(Merge(rem)) == multiset(StableSort.Concat(rem))
    decreases |StableSort.Concat(rem)|
  {
    hide StableSort.Concat;
    match NextChunk(rem)
    case None => NothingLeft(rem);
    case Some(c) =>
      AroundPop(rem, c);
      PopTakesOne(rem, c);
      MergeKeeps(rem[c := rem[c][1..]]);
  }

  /** Chunks in the order of their keys are merged to the stable sort of all events. */
  lemma {:induction false} MergeIsTheSort(rem: seq<Chunk>)
    requires AllSorted(rem)
    ensures Merge(rem) == StableSort.Sort(StableSort.Concat(rem), Key)
    decreases |StableSort.Concat(rem)|
  {
    hide StableSort.Concat, StableSort.Sort;
    match NextChunk(rem)
    case None =>
      NothingLeft(rem);
      SortNothing();
    case Some(c) =>
      AroundPop(rem, c);
      SortedTail(rem, c);
      PopTakesTheFirst(rem, c);
      MergeIsTheSort(rem[c := rem[c][1..]]);
  }

  // ---- the heap merge ----

  /** What is left of each chunk: the element in the heap, then the rest of its iterator. */
  ghost function Left(heap: seq<Option<GenEvent>>, iters: seq<Chunk>): (rem: seq<Chunk>)
    requires |heap| == |iters|
    ensures |rem| == |heap|
  {
    seq(|heap|, c requires 0 <= c < |heap| => (if heap[c].Some? then [heap[c].value] else []) + iters[c])
  }

  ghost predicate HeapOk(heap: seq<Option<GenEvent>>, iters: seq<Chunk>) {
    |heap| == |iters| && forall c :: 0 <= c < |heap| ==> heap[c].None? ==> iters[c] == []
  }

  /** The heap's order: by key, then by chunk. */
  predicate Before(heap: seq<Option<GenEvent>>, c: nat, d: nat)
    requires c < |heap| && d < |heap| && heap[c].Some? && heap[d].Some?
  {
    Key(heap[c].value) < Key(heap[d].value) || (Key(heap[c].value) == Key(heap[d].value) && c <= d)
  }

  /** The chunk of the heap's least item. */
  method Least(heap: seq<Option<GenEvent>>) returns (c: Option<nat>)
    ensures c.None? ==> forall d :: 0 <= d < |heap| ==> heap[d].None?
    ensures c.Some? ==> c.value < |heap| && heap[c.value].Some?
    ensures c.Some? ==> forall d :: 0 <= d < |heap| && heap[d].Some? ==> Before(heap, c.value, d)
  {
    c := None;
    for d := 0 to |heap|
      invariant c.None? ==> forall e :: 0 <= e < d ==> heap[e].None?
      invariant c.Some? ==> c.value < d && heap[c.value].Some?
      invariant c.Some? ==> forall e :: 0 <= e < d && heap[e].Some? ==> Before(heap, c.value, e)
    {
      if heap[d].Some? && (c.None? || Key(heap[d].value) < Key(heap[c.value].value)) {
        c := Some(d);
      }
    }
  }

  lemma {:induction false} ConcatAround(chunks: seq<Chunk>, c: nat)
    requires c < |chunks|
    ensures StableSort.Concat(chunks) == StableSort.Concat(chunks[..c]) + chunks[c] + StableSort.Concat(chunks[c + 1..])
  {
    if c > 0 {
      ConcatAround(chunks[1..], c - 1);
      assert chunks[1..][..c - 1] == chunks[..c][1..];
      assert chunks[1..][c..] == chunks[c + 1..];
      assert chunks[0] + (StableSort.Concat(chunks[1..][..c - 1]) + chunks[c] + StableSort.Concat(chunks[c + 1..])) ==
             chunks[0] + StableSort.Concat(chunks[1..][..c - 1]) + chunks[c] + StableSort.Concat(chunks[c + 1..]);
    } else {
      assert chunks[..0] == [] && chunks[c + 1..] == chunks[1..];
    }
  }

  lemma {:induction false} ConcatMembers(chunks: seq<Chunk>, e: GenEvent)
    requires e in StableSort.Concat(chunks)
    ensures exists c :: 0 <= c < |chunks| && e in chunks[c]
  {
    if e in chunks[0] {
    } else {
      ConcatMembers(chunks[1..], e);
      var c :| 0 <= c < |chunks[1..]| && e in chunks[1..][c];
      assert chunks[c + 1] == chunks[1..][c];
    }
  }

  ghost predicate AllSorted(chunks: seq<Chunk>) {
    forall c :: 0 <= c < |chunks| ==> StableSort.Sorted(chunks[c], Key)
  }

  lemma AroundPop(rem: seq<Chunk>, c: nat)
    requires c < |rem| && rem[c] != []
    ensures var front, rest := StableSort.Concat(rem[..c]), rem[c][1..] + StableSort.Concat(rem[c + 1..]);
      StableSort.Concat(rem) == front + [rem[c][0]] + rest && StableSort.Concat(rem[c := rem[c][1..]]) == front + rest
  {
    hide StableSort.Concat;
    var x, tail := rem[c][0], rem[c][1..];
    var rem' := rem[c := tail];
    var front, back := StableSort.Concat(rem[..c]), StableSort.Concat(rem[c + 1..]);
    ConcatAround(rem, c);
    ConcatAround(rem', c);
    assert rem'[..c] == rem[..c] && rem'[c + 1..] == rem[c + 1..];
    assert rem[c] == [x] + tail;
    assert front + ([x] + tail) + back == front + [x] + (tail + back);
    assert front + tail + back == front + (tail + back);
  }

  lemma PopTakesOne(rem: seq<Chunk>, c: nat)
    requires c < |rem| && rem[c] != []
    ensures multiset(StableSort.Concat(rem)) == multiset([rem[c][0]]) + multiset(StableSort.Concat(rem[c := rem[c][1..]]))
  {
    hide StableSort.Concat;
    AroundPop(rem, c);
  }

  /** Popping the head of chunk `c` takes the first element of what the sort would give. */
  lemma PopTakesTheFirst(rem: seq<Chunk>, c: nat)
    requires c < |rem| && rem[c] != [] && AllSorted(rem)
    requires forall d :: 0 <= d < c && rem[d] != [] ==> Key(rem[c][0]) < Key(rem[d][0])
    requires forall d :: c <= d < |rem| && rem[d] != [] ==> Key(rem[c][0]) <= Key(rem[d][0])
    ensures StableSort.Sort(StableSort.Concat(rem), Key) ==
            [rem[c][0]] + StableSort.Sort(StableSort.Concat(rem[c := rem[c][1..]]), Key)
  {
    hide StableSort.Concat, StableSort.Sort, Key;
    var x, tail := rem[c][0], rem[c][1..];
    var front, back := StableSort.Concat(rem[..c]), StableSort.Concat(rem[c + 1..]);
    AroundPop(rem, c);
    forall y | y in front ensures Key(x) < Key(y) {
      ConcatMembers(rem[..c], y);
    }
    forall y | y in tail + back ensures Key(x) <= Key(y) {
      if y in back {
        ConcatMembers(rem[c + 1..], y);
        var d :| 0 <= d < |rem[c + 1..]| && y in rem[c + 1..][d];
        assert rem[c + 1..][d] == rem[c + 1 + d];
      } else {
        assert y in rem[c];
      }
    }
    StableSort.LeastComesFirst(front, x, tail + back, Key);
  }

  lemma SortedTail(rem: seq<Chunk>, c: nat)
    requires AllSorted(rem) && c < |rem| && rem[c] != []
    ensures AllSorted(rem[c := rem[c][1..]])
  {
  }

  /** `iter.next()` of chunk `c`, into its place in the heap. */
  method Refill(heap: seq<Option<GenEvent>>, iters: seq<Chunk>, c: nat)
    returns (heap': seq<Option<GenEvent>>, iters': seq<Chunk>)
    requires c < |heap| == |iters|
    ensures |heap'| == |iters'| == |heap|
    ensures forall d :: 0 <= d < |heap| && d != c ==> heap'[d] == heap[d] && iters'[d] == iters[d]
    ensures heap'[c].None? ==> iters'[c] == []
    ensures Left(heap', iters') == Left(heap, iters)[c := iters[c]]
  {
    if iters[c] == [] {
      heap', iters' := heap[c := None], iters;
    } else {
      heap', iters' := heap[c := Some(iters[c][0])], iters[c := iters[c][1..]];
      assert Left(heap', iters')[c] == iters[c];
    }
    forall d | 0 <= d < |heap| ensures Left(heap', iters')[d] == Left(heap, iters)[c := iters[c]][d] {
    }
  }

  lemma {:induction false} NothingLeft(rem: seq<Chunk>)
    requires forall c :: 0 <= c < |rem| ==> rem[c] == []
    ensures StableSort.Concat(rem) == []
  {
    if rem != [] {
      NothingLeft(rem[1..]);
    }
  }

  /** The heap's least item is the head that goes next. */
  lemma LeastGoesNext(heap: seq<Option<GenEvent>>, iters: seq<Chunk>, c: nat)
    requires HeapOk(heap, iters) && c < |heap| && heap[c].Some?
    requires forall d :: 0 <= d < |heap| && heap[d].Some? ==> Before(heap, c, d)
    ensures GoesNext(Left(heap, iters), c)
    ensures Left(heap, iters)[c][0] == heap[c].value && Left(heap, iters)[c][1..] == iters[c]
  {
    hide Key;
    var rem := Left(heap, iters);
    forall d | 0 <= d < |rem| && rem[d] != [] ensures heap[d].Some? && rem[d][0] == heap[d].value {
    }
  }

  /** `merge_sorted_chunks`. */
  method MergeSortedChunks(chunks: seq<Chunk>) returns (merged: Chunk)
    ensures merged == Merge(chunks)
    ensures multiset(merged) == multiset(StableSort.Concat(chunks))
    ensures AllSorted(chunks) ==> merged == StableSort.Sort(StableSort.Concat(chunks), Key)
  {
    hide StableSort.Sort, StableSort.Concat, AllSorted, GoesNext, Merge;
    var heap: seq<Option<GenEvent>> := seq(|chunks|, _ => None);
    var iters := chunks;
    forall c | 0 <= c < |chunks| ensures Left(heap, iters)[c] == chunks[c] {
      assert [] + iters[c] == iters[c];
    }
    for c := 0 to |chunks|
      invariant |heap| == |iters| == |chunks| && Left(heap, iters) == chunks
      invariant forall d :: 0 <= d < c ==> heap[d].None? ==> iters[d] == []
      invariant forall d :: c <= d < |chunks| ==> heap[d].None?
    {
      assert Left(heap, iters)[c] == [] + iters[c] == iters[c];
      heap, iters := Refill(heap, iters, c);
    }
    merged := [];
    assert [] + Merge(chunks) == Merge(chunks);
    while true
      invariant HeapOk(heap, iters) && merged + Merge(Left(heap, iters)) == Merge(chunks)
      decreases |StableSort.Concat(Left(heap, iters))|
    {
      var next := Least(heap);
      if next.None? {
        break;
      }
      var c := next.value;
      LeastGoesNext(heap, iters, c);
      MergeStep(Left(heap, iters), c);
      PopShrinks(heap, iters, c);
      ghost var rest := Merge(Left(heap, iters)[c := iters[c]]);
      assert merged + ([heap[c].value] + rest) == merged + [heap[c].value] + rest;
      merged := merged + [heap[c].value];
      heap, iters := Refill(heap, iters, c);
    }
    MergeNothing(Left(heap, iters));
    assert merged + [] == merged;
    MergeKeeps(chunks);
    if AllSorted(chunks) {
      MergeIsTheSort(chunks);
    }
  }

  lemma MergeNothing(rem: seq<Chunk>)
    requires forall c :: 0 <= c < |rem| ==> rem[c] == []
    ensures Merge(rem) == []
  {
  }

  lemma SortNothing()
    ensures StableSort.Sort([], Key) == [] && StableSort.Concat<GenEvent>([]) == []
  {
  }

  lemma PopShrinks(heap: seq<Option<GenEvent>>, iters: seq<Chunk>, c: nat)
    requires |heap| == |iters| && c < |heap| && heap[c].Some?
    ensures |StableSort.Concat(Left(heap, iters)[c := iters[c]])| < |StableSort.Concat(Left(heap, iters))|
  {
    var rem := Left(heap, iters);
    var rem' := rem[c := iters[c]];
    ConcatAround(rem, c);
    ConcatAround(rem', c);
    assert rem'[..c] == rem[..c] && rem'[c + 1..] == rem[c + 1..];
  }

  // ---- one stream ----

  /** The spacing of a stream's events over the scenario's duration. */
  function Interval(durationNanos: nat, count: nat): int {
    if count > 1 then TruncDiv(AsI64(durationNanos), count) else 0
  }

  /** `generate_stream_events`; the field values are left arbitrary. */
  method StreamEvents(stream: string, count: nat, start: int, durationNanos: nat) returns (events: Chunk)
    ensures |events| == count
    ensures forall i :: 0 <= i < count ==>
      events[i].stream == stream && events[i].timestamp == start + Interval(durationNanos, count) * i
  {
    var interval := Interval(durationNanos, count);
    events := [];
    for i := 0 to count
      invariant |events| == i
      invariant forall j :: 0 <= j < i ==> events[j].stream == stream && events[j].timestamp == start + interval * j
    {
      var fields: int := *;
      events := events + [GenEvent(start + interval * i, stream, fields)];
    }
  }

  ghost predicate Spaced(events: Chunk, start: int, interval: int) {
    forall i :: 0 <= i < |events| ==> events[i].timestamp == start + interval * i
  }

  lemma Rises(interval: int, i: int, j: int)
    requires i <= j && 0 <= interval
    ensures interval * i <= interval * j
  {
    assert interval * j - interval * i == interval * (j - i);
  }

  /** A stream's timestamps do not fall exactly when its interval is not negative. */
  lemma StreamIsSorted(events: Chunk, start: int, durationNanos: nat)
    requires Spaced(events, start, Interval(durationNanos, |events|))
    ensures StableSort.Sorted(events, Timestamp) <==> 0 <= Interval(durationNanos, |events|)
  {
    var interval := Interval(durationNanos, |events|);
    if 0 <= interval {
      forall i, j | 0 <= i < j < |events| ensures Timestamp(events[i]) <= Timestamp(events[j]) {
        Rises(interval, i, j);
      }
    } else {
      assert events[0].timestamp == start + interval * 0 && events[1].timestamp == start + interval * 1;
      assert Timestamp(events[0]) > Timestamp(events[1]);
    }
  }

  /** A duration of less than 2^63 nanoseconds gives such an interval. */
  lemma OrdinaryDuration(durationNanos: nat, count: nat)
    requires durationNanos <= I64_MAX
    ensures 0 <= Interval(durationNanos, count) && (0 < count ==> Interval(durationNanos, count) * count <= durationNanos)
  {
    if count > 1 {
      assert AsI64(durationNanos) == durationNanos;
    }
  }

  // ---- keys and timestamps ----

  /** No timestamp lies before the range of 64-bit nanoseconds. */
  ghost predicate NotTooEarly(events: Chunk) {
    forall e | e in events :: I64_MIN <= e.timestamp
  }

  /** Sorting by timestamp is sorting by key, as long as no timestamp is too early. */
  lemma SortedByKey(events: Chunk)
    requires StableSort.Sorted(events, Timestamp) && NotTooEarly(events)
    ensures StableSort.Sorted(events, Key)
  {
    forall i, j | 0 <= i < j < |events| ensures Key(events[i]) <= Key(events[j]) {
      assert Timestamp(events[i]) <= Timestamp(events[j]);
    }
  }

  ghost predicate InWindow(events: Chunk, lo: int, hi: int) {
    forall e | e in events :: lo <= e.timestamp <= hi
  }

  /** Chunks as the generator makes them: each sorted in time, with times from `lo` to `hi`. */
  ghost predicate TimedChunks(chunks: seq<Chunk>, lo: int, hi: int) {
    forall chunk | chunk in chunks :: StableSort.Sorted(chunk, Timestamp) && InWindow(chunk, lo, hi)
  }

  ghost predicate MergesInTime(chunks: seq<Chunk>) {
    StableSort.Sorted(Merge(chunks), Timestamp)
  }

  /** An event of an earlier chunk goes first on equal keys. */
  ghost predicate MayPrecede(e: GenEvent, c: nat, f: GenEvent, d: nat) {
    Key(e) < Key(f) || (Key(e) == Key(f) && c <= d)
  }

  /** Each chunk is sorted in time, and the merge's order across chunks is the order in time. */
  ghost predicate KeysTellTime(chunks: seq<Chunk>) {
    && (forall c :: 0 <= c < |chunks| ==> StableSort.Sorted(chunks[c], Timestamp))
    && (forall c: nat, d: nat, e, f | c < |chunks| && d < |chunks| && c != d && e in chunks[c] && f in chunks[d]
          && MayPrecede(e, c, f, d) :: Timestamp(e) <= Timestamp(f))
  }

  /** Then nothing left is earlier than the head that goes next. */
  lemma NextIsEarliest(rem: seq<Chunk>, c: nat, e: GenEvent)
    requires GoesNext(rem, c) && KeysTellTime(rem) && e in StableSort.Concat(rem)
    ensures Timestamp(rem[c][0]) <= Timestamp(e)
  {
    ConcatMembers(rem, e);
    var d :| 0 <= d < |rem| && e in rem[d];
    var i :| 0 <= i < |rem[d]| && rem[d][i] == e;
    if d != c {
      assert MayPrecede(rem[c][0], c, rem[d][0], d);
    }
  }

  lemma KeysTellTimeAfter(rem: seq<Chunk>, c: nat)
    requires KeysTellTime(rem) && c < |rem| && rem[c] != []
    ensures KeysTellTime(rem[c := rem[c][1..]])
  {
    hide MayPrecede;
    var rem' := rem[c := rem[c][1..]];
    forall d: nat, e | d < |rem| && e in rem'[d] ensures e in rem[d] {
    }
  }

  lemma {:induction false} KeysTellTimeMerges(rem: seq<Chunk>)
    requires KeysTellTime(rem)
    ensures MergesInTime(rem)
    decreases |StableSort.Concat(rem)|
  {
    hide KeysTellTime, GoesNext, StableSort.Concat;
    var next := NextChunk(rem);
    if next.Some? {
      var c := next.value;
      assert rem[c] != [] by { NextHasAHead(rem, c); }
      var rem' := rem[c := rem[c][1..]];
      AroundPop(rem, c);
      PopTakesOne(rem, c);
      KeysTellTimeAfter(rem, c);
      KeysTellTimeMerges(rem');
      hide MergesInTime, Merge;
      MergeStep(rem, c);
      HeadIsEarliest(rem, c);
    }
  }

  lemma HeadIsEarliest(rem: seq<Chunk>, c: nat)
    requires KeysTellTime(rem) && GoesNext(rem, c) && MergesInTime(rem[c := rem[c][1..]])
    requires Merge(rem) == [rem[c][0]] + Merge(rem[c := rem[c][1..]])
    ensures MergesInTime(rem)
  {
    hide KeysTellTime, StableSort.Concat, Merge;
    var rest := Merge(rem[c := rem[c][1..]]);
    MergeKeeps(rem[c := rem[c][1..]]);
    PopTakesOne(rem, c);
    forall i | 0 <= i < |rest| ensures Timestamp(rem[c][0]) <= Timestamp(rest[i]) {
      assert rest[i] in multiset(rest);
      assert rest[i] in multiset(StableSort.Concat(rem));
      NextIsEarliest(rem, c, rest[i]);
    }
  }

  lemma NextHasAHead(rem: seq<Chunk>, c: nat)
    requires GoesNext(rem, c)
    ensures c < |rem| && rem[c] != []
  {
  }

  lemma WindowMergesInTime(chunks: seq<Chunk>, lo: int, hi: int)
    requires TimedChunks(chunks, lo, hi) && (lo == hi || (I64_MIN <= lo && hi <= I64_MAX))
    ensures MergesInTime(chunks)
  {
    forall c: nat | c < |chunks| ensures StableSort.Sorted(chunks[c], Timestamp) && InWindow(chunks[c], lo, hi) {
      assert chunks[c] in chunks;
    }
    KeysTellTimeMerges(chunks);
  }

  lemma TailInTime(e: GenEvent, rest: Chunk)
    requires StableSort.Sorted([e] + rest, Timestamp)
    ensures StableSort.Sorted(rest, Timestamp) && forall f | f in rest :: Timestamp(e) <= Timestamp(f)
  {
    var all := [e] + rest;
    forall i, j | 0 <= i < j < |rest| ensures Timestamp(rest[i]) <= Timestamp(rest[j]) {
      assert all[i + 1] == rest[i] && all[j + 1] == rest[j];
    }
    forall f | f in rest ensures Timestamp(e) <= Timestamp(f) {
      var i :| 0 <= i < |rest| && rest[i] == f;
      assert all[0] == e && all[i + 1] == f;
    }
  }

  lemma HeadInTime(e: GenEvent, all: Chunk, some: Chunk)
    requires StableSort.Sorted(some, Timestamp) && (forall f | f in some :: f in all)
    requires forall f | f in all :: Timestamp(e) <= Timestamp(f)
    ensures StableSort.Sorted([e] + some, Timestamp)
  {
  }

  /** Behind an event that has no smaller key than any of an earlier chunk, all of that chunk is merged first. */
  lemma {:induction false} FirstChunkFirst(chunk: Chunk, f: GenEvent)
    requires forall e | e in chunk :: Key(e) <= Key(f)
    ensures Merge([chunk, [f]]) == chunk + [f]
  {
    hide Key;
    if chunk == [] {
      assert GoesNext([chunk, [f]], 1);
      MergeStep([chunk, [f]], 1);
      MergeNothing([chunk, [f]][1 := [f][1..]]);
    } else {
      assert GoesNext([chunk, [f]], 0);
      MergeStep([chunk, [f]], 0);
      assert [chunk, [f]][0 := chunk[1..]] == [chunk[1..], [f]];
      FirstChunkFirst(chunk[1..], f);
      assert [chunk[0]] + (chunk[1..] + [f]) == chunk + [f];
    }
  }

  lemma LaterThanTheLast(chunk: Chunk, f: GenEvent, e: GenEvent)
    requires (forall x | x in chunk :: Key(x) <= Key(f)) && e in chunk && Timestamp(f) < Timestamp(e)
    ensures !MergesInTime([chunk, [f]])
  {
    FirstChunkFirst(chunk, f);
    var all := chunk + [f];
    var i :| 0 <= i < |chunk| && chunk[i] == e;
    assert all[i] == e && all[|chunk|] == f;
  }

  lemma EarlierThanTheFirst(chunk: Chunk, f: GenEvent, e: GenEvent)
    requires chunk != [] && Key(f) < Key(chunk[0]) && e in chunk && Timestamp(e) < Timestamp(f)
    ensures !MergesInTime([chunk, [f]])
  {
    var chunks := [chunk, [f]];
    assert GoesNext(chunks, 1);
    MergeStep(chunks, 1);
    var rest := chunks[1 := [f][1..]];
    MergeKeeps(rest);
    ConcatFirst(rest);
    assert e in StableSort.Concat(rest);
    assert e in multiset(Merge(rest));
    if MergesInTime(chunks) {
      TailInTime(f, Merge(rest));
    }
  }

  lemma ConcatFirst(chunks: seq<Chunk>)
    requires chunks != []
    ensures StableSort.Concat(chunks) == chunks[0] + StableSort.Concat(chunks[1..])
  {
  }

  /** Outside 64 bits there are always two events that the merge leaves in the wrong order. */
  lemma MergedOutOfOrder(lo: int, hi: int) returns (chunks: seq<Chunk>)
    requires lo < hi && (lo < I64_MIN || I64_MAX < hi)
    ensures TimedChunks(chunks, lo, hi) && AllSorted(chunks) && !MergesInTime(chunks)
  {
    if I64_MAX < hi || lo + 1 < I64_MIN {
      var last := if I64_MAX < hi then hi else lo + 1;
      var late, early := GenEvent(last, "", 0), GenEvent(last - 1, "", 0);
      LaterThanTheLast([late], early, late);
      chunks := [[late], [early]];
    } else {
      var early, late := GenEvent(lo, "", 0), GenEvent(lo + 1, "", 0);
      EarlierThanTheFirst([early], late, early);
      chunks := [[early], [late]];
    }
  }

  /**
   Merging is in time order for every list of sorted chunks with times in a window exactly when the
   window is a single instant or lies within 64-bit nanoseconds.
   */
  lemma MergesInTimeExactly(lo: int, hi: int)
    requires lo <= hi
    ensures (forall chunks | TimedChunks(chunks, lo, hi) :: MergesInTime(chunks)) <==>
            lo == hi || (I64_MIN <= lo && hi <= I64_MAX)
  {
    if lo == hi || (I64_MIN <= lo && hi <= I64_MAX) {
      forall chunks | TimedChunks(chunks, lo, hi) ensures MergesInTime(chunks) {
        WindowMergesInTime(chunks, lo, hi);
      }
    } else {
      var chunks := MergedOutOfOrder(lo, hi);
    }
  }

  // ---- the budget ----

  datatype Stream = Stream(name: string, window: string, wanted: nat)

  /** What is left of the total after the shares of the first `i` streams. */
  function Remaining(streams: seq<Stream>, total: nat, i: nat): nat
    requires i <= |streams|
  {
    if i == 0 then total
    else Remaining(streams, total, i - 1) - Min(streams[i - 1].wanted, Remaining(streams, total, i - 1))
  }

  /** A stream's budget: its rounded share as far as it goes, and for the last stream all that is left. */
  function Budget(streams: seq<Stream>, total: nat, i: nat): nat
    requires i < |streams|
  {
    if i == |streams| - 1 then Remaining(streams, total, i)
    else Min(streams[i].wanted, Remaining(streams, total, i))
  }

  function BudgetsUpTo(streams: seq<Stream>, total: nat, n: nat): nat
    requires n <= |streams|
  {
    if n == 0 then 0 else BudgetsUpTo(streams, total, n - 1) + Budget(streams, total, n - 1)
  }

  lemma {:induction false} BudgetsSoFar(streams: seq<Stream>, total: nat, n: nat)
    requires n < |streams|
    ensures BudgetsUpTo(streams, total, n) + Remaining(streams, total, n) == total
  {
    if n > 0 {
      BudgetsSoFar(streams, total, n - 1);
    }
  }

  /** The budgets add up to the scenario's total, however the shares were rounded. */
  lemma BudgetsAddUp(streams: seq<Stream>, total: nat)
    requires streams != []
    ensures BudgetsUpTo(streams, total, |streams|) == total
  {
    BudgetsSoFar(streams, total, |streams| - 1);
  }

  function Used(inject: map<string, nat>, name: string): nat {
    if name in inject then inject[name] else 0
  }

  /** How many events stream `i` generates: its budget, less what was injected into it. */
  function BackgroundCount(streams: seq<Stream>, total: nat, inject: map<string, nat>, i: nat): nat
    requires i < |streams|
  {
    SaturatingSub(Budget(streams, total, i), Used(inject, streams[i].name))
  }

  /** The background events of the first `n` streams. */
  function Background(streams: seq<Stream>, total: nat, inject: map<string, nat>, n: nat): nat
    requires n <= |streams|
  {
    if n == 0 then 0
    else Background(streams, total, inject, n - 1) + BackgroundCount(streams, total, inject, n - 1)
  }

  function UsedUpTo(streams: seq<Stream>, inject: map<string, nat>, n: nat): nat
    requires n <= |streams|
  {
    if n == 0 then 0 else UsedUpTo(streams, inject, n - 1) + Used(inject, streams[n - 1].name)
  }

  lemma {:induction false} BackgroundIsTheRest(streams: seq<Stream>, total: nat, inject: map<string, nat>, n: nat)
    requires n <= |streams|
    ensures Background(streams, total, inject, n) + UsedUpTo(streams, inject, n) >= BudgetsUpTo(streams, total, n)
    ensures Background(streams, total, inject, n) + UsedUpTo(streams, inject, n) == BudgetsUpTo(streams, total, n) <==>
      forall i :: 0 <= i < n ==> Used(inject, streams[i].name) <= Budget(streams, total, i)
  {
    hide Budget, Used;
    if n > 0 {
      BackgroundIsTheRest(streams, total, inject, n - 1);
    }
  }

  // ---- the whole generation ----

  /** A stream's chunk: evenly spaced from the start, under the stream's name. */
  ghost predicate FromStart(chunk: Chunk, name: string, start: int, durationNanos: nat) {
    && chunk != [] && Spaced(chunk, start, Interval(durationNanos, |chunk|))
    && forall i :: 0 <= i < |chunk| ==> chunk[i].stream == name
  }

  /** The chunks of the first `n` streams: one for each that has anything left to generate, in their order. */
  ghost predicate IsBackground(chunks: seq<Chunk>, streams: seq<Stream>, total: nat, inject: map<string, nat>,
                               start: int, durationNanos: nat, n: nat)
    requires n <= |streams|
    decreases n
  {
    if n == 0 then chunks == []
    else
      var count := BackgroundCount(streams, total, inject, n - 1);
      if count == 0 then IsBackground(chunks, streams, total, inject, start, durationNanos, n - 1)
      else
        && chunks != [] && |chunks[|chunks| - 1]| == count
        && FromStart(chunks[|chunks| - 1], streams[n - 1].name, start, durationNanos)
        && IsBackground(chunks[..|chunks| - 1], streams, total, inject, start, durationNanos, n - 1)
  }

  /** There is a schema for each of the first `n` streams that has anything left to generate. */
  ghost predicate HasSchemas(streams: seq<Stream>, windows: set<string>, total: nat, inject: map<string, nat>, n: nat)
    requires n <= |streams|
  {
    n == 0 || (HasSchemas(streams, windows, total, inject, n - 1)
               && (BackgroundCount(streams, total, inject, n - 1) == 0 || streams[n - 1].window in windows))
  }

  lemma {:induction false} SchemaMissing(streams: seq<Stream>, windows: set<string>, total: nat, inject: map<string, nat>,
                                         i: nat, n: nat)
    requires i < n <= |streams| && BackgroundCount(streams, total, inject, i) > 0 && streams[i].window !in windows
    ensures !HasSchemas(streams, windows, total, inject, n)
    decreases n
  {
    if i < n - 1 {
      SchemaMissing(streams, windows, total, inject, i, n - 1);
    }
  }

  lemma OneMoreChunk(chunks: seq<Chunk>, events: Chunk, streams: seq<Stream>, total: nat, inject: map<string, nat>,
                     start: int, durationNanos: nat, i: nat)
    requires i < |streams| && IsBackground(chunks, streams, total, inject, start, durationNanos, i)
    requires |events| == BackgroundCount(streams, total, inject, i) > 0
    requires FromStart(events, streams[i].name, start, durationNanos)
    ensures IsBackground(chunks + [events], streams, total, inject, start, durationNanos, i + 1)
  {
    hide FromStart, BackgroundCount;
    assert (chunks + [events])[..|chunks|] == chunks;
  }

  /** Injected events come first, sorted in time. */
  function InjectedChunks(injected: Chunk): seq<Chunk> {
    if injected == [] then [] else [StableSort.Sort(injected, Timestamp)]
  }

  lemma InjectedSorted(injected: Chunk)
    ensures var sorted := StableSort.Sort(injected, Timestamp);
      && StableSort.Sorted(sorted, Timestamp) && multiset(sorted) == multiset(injected) && |sorted| == |injected|
      && forall e :: e in sorted <==> e in injected
  {
    var sorted := StableSort.Sort(injected, Timestamp);
    StableSort.SortSorts(injected, Timestamp);
    assert |multiset(sorted)| == |multiset(injected)|;
    forall e ensures e in sorted <==> e in injected {
      assert e in multiset(sorted) <==> e in multiset(injected);
    }
  }

  lemma {:induction false} ConcatOneMore(chunks: seq<Chunk>, chunk: Chunk)
    ensures StableSort.Concat(chunks + [chunk]) == StableSort.Concat(chunks) + chunk
  {
    ConcatAround(chunks + [chunk], |chunks|);
    assert (chunks + [chunk])[..|chunks|] == chunks && (chunks + [chunk])[|chunks| + 1..] == [];
  }

  lemma {:induction false} BackgroundSize(chunks: seq<Chunk>, streams: seq<Stream>, total: nat, inject: map<string, nat>,
                                          start: int, durationNanos: nat, n: nat)
    requires n <= |streams| && IsBackground(chunks, streams, total, inject, start, durationNanos, n)
    ensures |StableSort.Concat(chunks)| == Background(streams, total, inject, n)
    decreases n
  {
    hide StableSort.Concat, BackgroundCount, FromStart;
    if n == 0 {
      SortNothing();
    } else if BackgroundCount(streams, total, inject, n - 1) == 0 {
      BackgroundSize(chunks, streams, total, inject, start, durationNanos, n - 1);
    } else {
      var front, last := chunks[..|chunks| - 1], chunks[|chunks| - 1];
      BackgroundSize(front, streams, total, inject, start, durationNanos, n - 1);
      assert chunks == front + [last];
      ConcatOneMore(front, last);
    }
  }

  lemma WithInjected(injected: Chunk, background: seq<Chunk>)
    ensures multiset(StableSort.Concat(InjectedChunks(injected) + background)) ==
            multiset(injected) + multiset(StableSort.Concat(background))
  {
    InjectedSorted(injected);
    if injected == [] {
      assert [] + background == background;
    } else {
      assert (InjectedChunks(injected) + background)[1..] == background;
    }
  }

  /**
   The chunks of `generate`: injected events by time, then one chunk for each stream with anything
   left to generate.
   */
  method BuildChunks(injected: Chunk, inject: map<string, nat>, streams: seq<Stream>, windows: set<string>, total: nat,
                     start: int, durationNanos: nat) returns (r: Option<seq<Chunk>>, ghost background: seq<Chunk>)
    ensures r.Some? ==> r.value == InjectedChunks(injected) + background
    ensures r.Some? ==> IsBackground(background, streams, total, inject, start, durationNanos, |streams|)
    ensures r.Some? <==> HasSchemas(streams, windows, total, inject, |streams|)
  {
    var chunks: seq<Chunk> := if injected == [] then [] else [StableSort.Sort(injected, Timestamp)];
    background := [];
    var remaining := total;
    hide FromStart, StableSort.Sort, HasSchemas, BackgroundCount, IsBackground;
    NoStreamYet(streams, windows, inject, total, start, durationNanos);
    for i := 0 to |streams|
      invariant remaining == if i < |streams| || i == 0 then Remaining(streams, total, i) else remaining
      invariant chunks == InjectedChunks(injected) + background
      invariant IsBackground(background, streams, total, inject, start, durationNanos, i)
      invariant HasSchemas(streams, windows, total, inject, i)
    {
      var streamTotal := remaining;
      if i < |streams| - 1 {
        streamTotal := Min(streams[i].wanted, remaining);
        remaining := remaining - streamTotal;
      }
      var count := SaturatingSub(streamTotal, Used(inject, streams[i].name));
      CountIs(streams, total, inject, i, streamTotal);
      StreamPassed(background, streams, windows, inject, total, start, durationNanos, i);
      if count > 0 {
        if streams[i].window !in windows {
          SchemaMissing(streams, windows, total, inject, i, |streams|);
          return None, background;
        }
        var events := StreamEvents(streams[i].name, count, start, durationNanos);
        IsFromStart(events, streams[i].name, start, durationNanos);
        OneMoreChunk(background, events, streams, total, inject, start, durationNanos, i);
        background := background + [events];
        chunks := chunks + [events];
      }
    }
    r := Some(chunks);
  }

  lemma NoStreamYet(streams: seq<Stream>, windows: set<string>, inject: map<string, nat>, total: nat, start: int,
                    durationNanos: nat)
    ensures IsBackground([], streams, total, inject, start, durationNanos, 0)
    ensures HasSchemas(streams, windows, total, inject, 0)
  {
  }

  lemma CountIs(streams: seq<Stream>, total: nat, inject: map<string, nat>, i: nat, streamTotal: nat)
    requires i < |streams| && streamTotal == Budget(streams, total, i)
    ensures BackgroundCount(streams, total, inject, i) == SaturatingSub(streamTotal, Used(inject, streams[i].name))
  {
  }

  lemma StreamPassed(chunks: seq<Chunk>, streams: seq<Stream>, windows: set<string>, inject: map<string, nat>, total: nat,
                    start: int, durationNanos: nat, i: nat)
    requires i < |streams| && IsBackground(chunks, streams, total, inject, start, durationNanos, i)
    requires HasSchemas(streams, windows, total, inject, i)
    ensures BackgroundCount(streams, total, inject, i) == 0 ==>
      IsBackground(chunks, streams, total, inject, start, durationNanos, i + 1)
    ensures BackgroundCount(streams, total, inject, i) == 0 || streams[i].window in windows ==>
      HasSchemas(streams, windows, total, inject, i + 1)
  {
    hide BackgroundCount, FromStart;
  }

  lemma IsFromStart(events: Chunk, name: string, start: int, durationNanos: nat)
    requires events != []
    requires forall i :: 0 <= i < |events| ==>
      events[i].stream == name && events[i].timestamp == start + Interval(durationNanos, |events|) * i
    ensures FromStart(events, name, start, durationNanos)
  {
  }

  /** The last time that a stream can reach, for a duration that reads as `w` nanoseconds. */
  function LastTime(start: int, w: int): int {
    if w < 2 then start else start + w - 1
  }

  /**
   When a run comes out in time order, whatever its streams. Where the start has a key of its own,
   all background times must have one too, no injected event may be before them all, and if the
   background can reach the last of them, no injected event may be after it. Where it has not, all
   background events must stand at the start, and no injected event after it.
   */
  ghost predicate TimesFit(injected: Chunk, start: int, w: int) {
    if I64_MIN <= start < I64_MAX then
      && -1 <= w && LastTime(start, w) <= I64_MAX
      && (forall e | e in injected :: I64_MIN <= e.timestamp)
      && (LastTime(start, w) == I64_MAX ==> forall e | e in injected :: e.timestamp <= I64_MAX)
    else -1 <= w < 2 && forall e | e in injected :: e.timestamp <= start
  }

  // ---- times that fit ----

  lemma DivideBack(w: nat, count: nat)
    requires 1 < count
    ensures w / count * (count - 1) <= if w < 2 then 0 else w - 1
  {
    var q := w / count;
    assert q * (count - 1) == q * count - q;
    assert q * count <= w;
    if q == 0 {
      assert q * (count - 1) == 0;
    } else {
      assert count <= q * count;
    }
  }

  lemma StepsStayBelow(w: int, count: nat, i: nat)
    requires -1 <= w && 1 < count && i < count
    ensures 0 <= TruncDiv(w, count) && TruncDiv(w, count) * i <= if w < 2 then 0 else w - 1
  {
    if w < 0 {
      assert 1 / count == 0;
    } else {
      DivideBack(w, count);
      if 0 < w / count {
        Rises(w / count, i, count - 1);
      }
    }
  }

  lemma ChunkTimes(chunk: Chunk, name: string, start: int, durationNanos: nat)
    requires FromStart(chunk, name, start, durationNanos) && -1 <= AsI64(durationNanos)
    ensures StableSort.Sorted(chunk, Timestamp) && InWindow(chunk, start, LastTime(start, AsI64(durationNanos)))
  {
    hide AsI64, TruncDiv;
    var w, interval := AsI64(durationNanos), Interval(durationNanos, |chunk|);
    if |chunk| > 1 {
      StepsStayBelow(w, |chunk|, 0);
    }
    StreamIsSorted(chunk, start, durationNanos);
    forall e | e in chunk ensures start <= e.timestamp <= LastTime(start, w) {
      var i :| 0 <= i < |chunk| && chunk[i] == e;
      if |chunk| > 1 {
        StepsStayBelow(w, |chunk|, i);
        Rises(interval, 0, i);
      }
    }
  }

  ghost predicate AllFromStart(background: seq<Chunk>, start: int, durationNanos: nat) {
    forall c :: 0 <= c < |background| ==> SomeStream(background[c], start, durationNanos)
  }

  ghost predicate SomeStream(chunk: Chunk, start: int, durationNanos: nat) {
    exists name :: FromStart(chunk, name, start, durationNanos)
  }

  lemma {:induction false} BackgroundFromStart(chunks: seq<Chunk>, streams: seq<Stream>, total: nat,
                                               inject: map<string, nat>, start: int, durationNanos: nat, n: nat)
    requires n <= |streams| && IsBackground(chunks, streams, total, inject, start, durationNanos, n)
    ensures AllFromStart(chunks, start, durationNanos)
    decreases n
  {
    hide FromStart, BackgroundCount;
    if n > 0 {
      if BackgroundCount(streams, total, inject, n - 1) == 0 {
        BackgroundFromStart(chunks, streams, total, inject, start, durationNanos, n - 1);
      } else {
        var front := chunks[..|chunks| - 1];
        BackgroundFromStart(front, streams, total, inject, start, durationNanos, n - 1);
        forall c | 0 <= c < |chunks| ensures SomeStream(chunks[c], start, durationNanos) {
          if c < |chunks| - 1 {
            assert front[c] == chunks[c];
          } else {
            assert FromStart(chunks[c], streams[n - 1].name, start, durationNanos);
          }
        }
      }
    }
  }

  /** What chunk `c` holds: injected events in the first, if there are any, and background in the others. */
  ghost predicate Belongs(e: GenEvent, c: nat, injected: Chunk, start: int, w: int) {
    if injected != [] && c == 0 then e in injected else start <= e.timestamp <= LastTime(start, w)
  }

  lemma FitsAcross(injected: Chunk, start: int, w: int, e: GenEvent, c: nat, f: GenEvent, d: nat)
    requires TimesFit(injected, start, w) && c != d && MayPrecede(e, c, f, d)
    requires Belongs(e, c, injected, start, w) && Belongs(f, d, injected, start, w)
    ensures Timestamp(e) <= Timestamp(f)
  {
  }

  lemma FittingTimesMerge(injected: Chunk, background: seq<Chunk>, start: int, durationNanos: nat)
    requires AllFromStart(background, start, durationNanos) && TimesFit(injected, start, AsI64(durationNanos))
    ensures MergesInTime(InjectedChunks(injected) + background)
  {
    hide AsI64, FromStart, TimesFit, MayPrecede, StableSort.Sort;
    var w, chunks := AsI64(durationNanos), InjectedChunks(injected) + background;
    assert -1 <= w by { FitsForward(injected, start, w); }
    InjectedSorted(injected);
    forall c: nat | c < |chunks|
      ensures StableSort.Sorted(chunks[c], Timestamp)
      ensures forall e | e in chunks[c] :: Belongs(e, c, injected, start, w)
    {
      if !(injected != [] && c == 0) {
        var b := c - |InjectedChunks(injected)|;
        assert chunks[c] == background[b];
        var name :| FromStart(background[b], name, start, durationNanos);
        ChunkTimes(chunks[c], name, start, durationNanos);
      }
    }
    forall c: nat, d: nat, e, f | c < |chunks| && d < |chunks| && c != d && e in chunks[c] && f in chunks[d]
        && MayPrecede(e, c, f, d)
      ensures Timestamp(e) <= Timestamp(f)
    {
      FitsAcross(injected, start, w, e, c, f, d);
    }
    KeysTellTimeMerges(chunks);
  }

  lemma FitsForward(injected: Chunk, start: int, w: int)
    requires TimesFit(injected, start, w)
    ensures -1 <= w
  {
  }

  // ---- times that do not ----

  /** A merge in time order stays one when the first chunk is left out. */
  lemma {:induction false} WithoutTheFirst(chunks: seq<Chunk>)
    requires chunks != [] && MergesInTime(chunks)
    ensures MergesInTime(chunks[1..])
    decreases |StableSort.Concat(chunks)|
  {
    hide StableSort.Concat;
    var next, others := NextChunk(chunks), chunks[1..];
    if next == None {
      assert forall d :: 0 <= d < |others| ==> others[d] == chunks[d + 1];
      MergeNothing(others);
    } else {
      var c := next.value;
      var chunks' := chunks[c := chunks[c][1..]];
      AroundPop(chunks, c);
      TailInTime(chunks[c][0], Merge(chunks'));
      WithoutTheFirst(chunks');
      if c == 0 {
        assert chunks'[1..] == others;
      } else {
        var others' := others[c - 1 := others[c - 1][1..]];
        assert chunks'[1..] == others';
        assert forall d :: 0 <= d < |others| ==> others[d] == chunks[d + 1];
        assert GoesNext(others, c - 1);
        MergeStep(others, c - 1);
        MergeKeeps(chunks');
        MergeKeeps(others');
        forall e | e in Merge(others') ensures e in Merge(chunks') {
          assert e in multiset(StableSort.Concat(others'));
          ConcatFirst(chunks');
          assert e in multiset(Merge(chunks'));
        }
        HeadInTime(chunks[c][0], Merge(chunks'), Merge(others'));
      }
    }
  }

  /** So a background that comes out of order does so behind any injected events. */
  lemma OutOfOrderAnyway(injected: Chunk, background: seq<Chunk>)
    requires !MergesInTime(background)
    ensures !MergesInTime(InjectedChunks(injected) + background)
  {
    hide MergesInTime;
    var chunks := InjectedChunks(injected) + background;
    if injected == [] {
      assert chunks == background;
    } else {
      assert chunks[1..] == background;
      if MergesInTime(chunks) {
        WithoutTheFirst(chunks);
      }
    }
  }

  lemma {:induction false} MergeOne(chunk: Chunk)
    ensures Merge([chunk]) == chunk
  {
    if chunk != [] {
      assert GoesNext([chunk], 0);
      MergeStep([chunk], 0);
      assert [chunk][0 := chunk[1..]] == [chunk[1..]];
      MergeOne(chunk[1..]);
    } else {
      MergeNothing([chunk]);
    }
  }

  lemma {:induction false} WithKeyInTime(s: Chunk, v: int)
    requires StableSort.Sorted(s, Timestamp)
    ensures StableSort.Sorted(StableSort.WithKey(s, Key, v), Timestamp)
  {
    if s != [] {
      assert [s[0]] + s[1..] == s;
      TailInTime(s[0], s[1..]);
      WithKeyInTime(s[1..], v);
      var rest := StableSort.WithKey(s[1..], Key, v);
      StableSort.WithKeyMember(s[1..], Key, v);
      HeadInTime(s[0], s[1..], rest);
      assert [] + rest == rest;
    }
  }

  lemma FirstIsEarliest(sorted: Chunk, e: GenEvent)
    requires StableSort.Sorted(sorted, Timestamp) && e in sorted
    ensures Timestamp(sorted[0]) <= Timestamp(e)
  {
    var i :| 0 <= i < |sorted| && sorted[i] == e;
  }

  lemma LaterBeforeEarlier(a: Chunk, b: Chunk, e: GenEvent, f: GenEvent)
    requires e in a && f in b && Timestamp(f) < Timestamp(e)
    ensures !StableSort.Sorted(a + b, Timestamp)
  {
    var i :| 0 <= i < |a| && a[i] == e;
    var j :| 0 <= j < |b| && b[j] == f;
    assert (a + b)[i] == e && (a + b)[|a| + j] == f;
  }

  lemma MergeOfTwoKeepsTies(first: Chunk, second: Chunk, v: int)
    requires AllSorted([first, second])
    ensures StableSort.WithKey(Merge([first, second]), Key, v) ==
            StableSort.WithKey(first, Key, v) + StableSort.WithKey(second, Key, v)
  {
    hide AllSorted, StableSort.Sort, StableSort.WithKey;
    ConcatFirst([first, second]);
    ConcatFirst([second]);
    assert [first, second][1..] == [second] && [second][1..] == [] && second + [] == second;
    MergeIsTheSort([first, second]);
    StableSort.SortKeepsTies(first + second, Key, v);
    StableSort.WithKeyConcat(first, second, Key, v);
  }

  /** Two key-sorted chunks, and an event of the first that is later than one of the second with the same key. */
  lemma TiesOutOfTime(first: Chunk, second: Chunk, e: GenEvent, f: GenEvent)
    requires AllSorted([first, second]) && e in first && f in second
    requires Key(e) == Key(f) && Timestamp(f) < Timestamp(e)
    ensures !MergesInTime([first, second])
  {
    hide StableSort.WithKey, StableSort.Sorted, Merge, Key;
    var v := Key(e);
    MergeOfTwoKeepsTies(first, second, v);
    StableSort.WithKeyMember(first, Key, v);
    StableSort.WithKeyMember(second, Key, v);
    LaterBeforeEarlier(StableSort.WithKey(first, Key, v), StableSort.WithKey(second, Key, v), e, f);
    if MergesInTime([first, second]) {
      WithKeyInTime(Merge([first, second]), v);
    }
  }

  /** A stream's chunk of the given size. */
  function EvenChunk(count: nat, start: int, durationNanos: nat): Chunk {
    seq(count, i => GenEvent(start + Interval(durationNanos, count) * i, "", 0))
  }

  lemma EvenChunkFromStart(count: nat, start: int, durationNanos: nat)
    requires 0 < count
    ensures FromStart(EvenChunk(count, start, durationNanos), "", start, durationNanos)
  {
  }

  /** As many events as nanoseconds stand one apart. */
  lemma OneApart(start: int, durationNanos: nat, i: nat)
    requires i < AsI64(durationNanos) && 2 <= AsI64(durationNanos)
    ensures EvenChunk(AsI64(durationNanos), start, durationNanos)[i].timestamp == start + i
    ensures EvenChunk(AsI64(durationNanos), start, durationNanos)[i] in EvenChunk(AsI64(durationNanos), start, durationNanos)
  {
    hide AsI64;
    var w := AsI64(durationNanos);
    assert TruncDiv(w, w) == 1;
  }

  ghost predicate AllNameless(background: seq<Chunk>, start: int, durationNanos: nat) {
    forall c :: 0 <= c < |background| ==> FromStart(background[c], "", start, durationNanos)
  }

  /** Wherever the times do not fit there are streams whose run comes out of order. */
  lemma UnfitTimes(injected: Chunk, start: int, durationNanos: nat) returns (background: seq<Chunk>)
    requires !TimesFit(injected, start, AsI64(durationNanos))
    ensures background != [] && AllNameless(background, start, durationNanos)
    ensures !MergesInTime(InjectedChunks(injected) + background)
  {
    hide FromStart, MergesInTime, AsI64, EvenChunk;
    var w := AsI64(durationNanos);
    if w < -1 {
      background := FallingRun(start, durationNanos);
      OutOfOrderAnyway(injected, background);
    } else if 2 <= w && (start < I64_MIN || I64_MAX < LastTime(start, w)) {
      background := RunOffTheEnd(start, durationNanos);
      OutOfOrderAnyway(injected, background);
    } else {
      background := InjectedOutside(injected, start, durationNanos);
    }
  }

  lemma FallingRun(start: int, durationNanos: nat) returns (background: seq<Chunk>)
    requires AsI64(durationNanos) < -1
    ensures background != [] && AllNameless(background, start, durationNanos) && !MergesInTime(background)
  {
    var chunk := EvenChunk(2, start, durationNanos);
    EvenChunkFromStart(2, start, durationNanos);
    StreamIsSorted(chunk, start, durationNanos);
    MergeOne(chunk);
    background := [chunk];
  }

  lemma RunOffTheEnd(start: int, durationNanos: nat) returns (background: seq<Chunk>)
    requires 2 <= AsI64(durationNanos)
    requires start < I64_MIN || I64_MAX < LastTime(start, AsI64(durationNanos))
    ensures background != [] && AllNameless(background, start, durationNanos) && !MergesInTime(background)
  {
    hide AsI64, MergesInTime;
    var w := AsI64(durationNanos);
    if I64_MIN <= start < I64_MAX {
      var chunk := EvenChunk(w, start, durationNanos);
      EvenChunkFromStart(w, start, durationNanos);
      ChunkTimes(chunk, "", start, durationNanos);
      SortedByKey(chunk);
      OneApart(start, durationNanos, w - 1);
      OneApart(start, durationNanos, I64_MAX - start);
      hide EvenChunk, FromStart;
      TiesOutOfTime(chunk, chunk, chunk[w - 1], chunk[I64_MAX - start]);
      background := [chunk, chunk];
    } else {
      var two, one := EvenChunk(2, start, durationNanos), EvenChunk(1, start, durationNanos);
      EvenChunkFromStart(2, start, durationNanos);
      EvenChunkFromStart(1, start, durationNanos);
      assert TruncDiv(w, 2) >= 1;
      assert one == [one[0]];
      LaterThanTheLast(two, one[0], two[1]);
      background := [two, one];
    }
  }

  lemma InjectedOutside(injected: Chunk, start: int, durationNanos: nat) returns (background: seq<Chunk>)
    requires var w := AsI64(durationNanos);
      && !TimesFit(injected, start, w) && -1 <= w
      && (2 <= w ==> I64_MIN <= start && LastTime(start, w) <= I64_MAX)
    ensures background != [] && AllNameless(background, start, durationNanos)
    ensures !MergesInTime(InjectedChunks(injected) + background)
  {
    hide AsI64, MergesInTime, StableSort.Sort, EvenChunk, FromStart;
    var sorted := StableSort.Sort(injected, Timestamp);
    InjectedSorted(injected);
    var e;
    if !(I64_MIN <= start < I64_MAX) {
      e :| e in injected && start < e.timestamp;
      background := [OneEvent(start, durationNanos)];
      LaterThanTheStart(sorted, start, durationNanos, e);
    } else if exists x :: x in injected && x.timestamp < I64_MIN {
      e :| e in injected && e.timestamp < I64_MIN;
      background := [OneEvent(start, durationNanos)];
      EarlierThanTheStart(sorted, start, durationNanos, e);
    } else {
      e :| e in injected && I64_MAX < e.timestamp;
      background := [EvenChunk(AsI64(durationNanos), start, durationNanos)];
      LaterThanTheEnd(sorted, start, durationNanos, e);
    }
    assert InjectedChunks(injected) + background == [sorted, background[0]];
  }

  function OneEvent(start: int, durationNanos: nat): (chunk: Chunk)
    ensures chunk == [GenEvent(start, "", 0)]
  {
    EvenChunk(1, start, durationNanos)
  }

  lemma LaterThanTheStart(sorted: Chunk, start: int, durationNanos: nat, e: GenEvent)
    requires !(I64_MIN <= start < I64_MAX) && e in sorted && start < e.timestamp
    ensures FromStart(OneEvent(start, durationNanos), "", start, durationNanos)
    ensures !MergesInTime([sorted, OneEvent(start, durationNanos)])
  {
    hide MergesInTime;
    LaterThanTheLast(sorted, GenEvent(start, "", 0), e);
  }

  lemma EarlierThanTheStart(sorted: Chunk, start: int, durationNanos: nat, e: GenEvent)
    requires I64_MIN <= start < I64_MAX
    requires StableSort.Sorted(sorted, Timestamp) && e in sorted && e.timestamp < I64_MIN
    ensures FromStart(OneEvent(start, durationNanos), "", start, durationNanos)
    ensures !MergesInTime([sorted, OneEvent(start, durationNanos)])
  {
    hide MergesInTime;
    FirstIsEarliest(sorted, e);
    EarlierThanTheFirst(sorted, GenEvent(start, "", 0), e);
  }

  /** The stream's last event stands at the end of the 64-bit range, and ties with a later injected one. */
  lemma LaterThanTheEnd(sorted: Chunk, start: int, durationNanos: nat, e: GenEvent)
    requires var w := AsI64(durationNanos); 2 <= w && I64_MIN <= start && LastTime(start, w) == I64_MAX
    requires StableSort.Sorted(sorted, Timestamp) && NotTooEarly(sorted) && e in sorted && I64_MAX < e.timestamp
    ensures var chunk := EvenChunk(AsI64(durationNanos), start, durationNanos);
      FromStart(chunk, "", start, durationNanos) && !MergesInTime([sorted, chunk])
  {
    hide AsI64, MergesInTime;
    var w := AsI64(durationNanos);
    var chunk := EvenChunk(w, start, durationNanos);
    EvenChunkFromStart(w, start, durationNanos);
    ChunkTimes(chunk, "", start, durationNanos);
    SortedByKey(chunk);
    SortedByKey(sorted);
    OneApart(start, durationNanos, w - 1);
    hide EvenChunk, FromStart;
    TiesOutOfTime(sorted, chunk, e, chunk[w - 1]);
  }

  // ---- every background occurs ----

  /** Streams that want what `background` holds, and what was injected into them on top. */
  function StreamsFor(background: seq<Chunk>, used: nat): seq<Stream> {
    seq(|background|, c requires 0 <= c < |background| => Stream("", "", |background[c]| + used))
  }

  function WantedFrom(streams: seq<Stream>, i: nat): nat
    requires i <= |streams|
    decreases |streams| - i
  {
    if i == |streams| then 0 else streams[i].wanted + WantedFrom(streams, i + 1)
  }

  lemma {:induction false} RemainingIsWanted(streams: seq<Stream>, i: nat)
    requires i <= |streams|
    ensures Remaining(streams, WantedFrom(streams, 0), i) == WantedFrom(streams, i)
  {
    if i > 0 {
      RemainingIsWanted(streams, i - 1);
    }
  }

  lemma BudgetIsWanted(streams: seq<Stream>, i: nat)
    requires i < |streams|
    ensures Budget(streams, WantedFrom(streams, 0), i) == streams[i].wanted
  {
    RemainingIsWanted(streams, i);
  }

  lemma {:induction false} BackgroundOccurs(background: seq<Chunk>, inject: map<string, nat>, start: int, durationNanos: nat,
                                            n: nat)
    requires AllNameless(background, start, durationNanos) && n <= |background|
    ensures var streams := StreamsFor(background, Used(inject, ""));
      IsBackground(background[..n], streams, WantedFrom(streams, 0), inject, start, durationNanos, n)
  {
    hide FromStart;
    if n > 0 {
      var streams := StreamsFor(background, Used(inject, ""));
      BackgroundOccurs(background, inject, start, durationNanos, n - 1);
      BudgetIsWanted(streams, n - 1);
      assert background[n - 1] != [] by { NotEmpty(background[n - 1], start, durationNanos); }
      assert BackgroundCount(streams, WantedFrom(streams, 0), inject, n - 1) == |background[n - 1]|;
      assert background[..n][..n - 1] == background[..n - 1];
    }
  }

  lemma NotEmpty(chunk: Chunk, start: int, durationNanos: nat)
    requires FromStart(chunk, "", start, durationNanos)
    ensures chunk != []
  {
  }

  /**
   A scenario's events come out in time order, whatever its streams and their budgets, exactly when
   its times fit.
   */
  lemma GeneratesInTimeExactly(injected: Chunk, inject: map<string, nat>, start: int, durationNanos: nat)
    ensures (forall streams: seq<Stream>, total: nat, background: seq<Chunk> |
               streams != [] && IsBackground(background, streams, total, inject, start, durationNanos, |streams|) ::
               MergesInTime(InjectedChunks(injected) + background)) <==>
            TimesFit(injected, start, AsI64(durationNanos))
    ensures injected == [] ==>
      var w := AsI64(durationNanos);
      TimesFit(injected, start, w) <==> -1 <= w <= 1 || (0 <= w && I64_MIN <= start && start + w - 1 <= I64_MAX)
  {
    hide MergesInTime, AllFromStart, AllNameless, AsI64;
    if TimesFit(injected, start, AsI64(durationNanos)) {
      forall streams: seq<Stream>, total: nat, background: seq<Chunk> |
          streams != [] && IsBackground(background, streams, total, inject, start, durationNanos, |streams|)
        ensures MergesInTime(InjectedChunks(injected) + background)
      {
        BackgroundFromStart(background, streams, total, inject, start, durationNanos, |streams|);
        FittingTimesMerge(injected, background, start, durationNanos);
      }
    } else {
      var background := UnfitTimes(injected, start, durationNanos);
      var streams := StreamsFor(background, Used(inject, ""));
      BackgroundOccurs(background, inject, start, durationNanos, |background|);
      assert background[..|background|] == background;
      assert IsBackground(background, streams, WantedFrom(streams, 0), inject, start, durationNanos, |streams|);
    }
  }

  /**
   `generate`, from the injected events on: the merge of the injected events and of the streams'
   chunks, in time order where the times fit.
   */
  method Generate(injected: Chunk, inject: map<string, nat>, streams: seq<Stream>, windows: set<string>, total: nat,
                  start: int, durationNanos: nat) returns (r: Option<Chunk>, ghost background: seq<Chunk>)
    ensures r.Some? <==> streams != [] && HasSchemas(streams, windows, total, inject, |streams|)
    ensures r.Some? ==> IsBackground(background, streams, total, inject, start, durationNanos, |streams|)
    ensures r.Some? ==> r.value == Merge(InjectedChunks(injected) + background)
    ensures r.Some? ==> |r.value| == |injected| + Background(streams, total, inject, |streams|)
    ensures r.Some? ==> multiset(injected) <= multiset(r.value)
    ensures r.Some? && TimesFit(injected, start, AsI64(durationNanos)) ==> StableSort.Sorted(r.value, Timestamp)
  {
    hide TimesFit, AllFromStart, IsBackground, StableSort.Concat, HasSchemas;
    background := [];
    // Without a stream the total rate is zero, which is an error.
    if streams == [] {
      return None, background;
    }
    var chunks;
    chunks, background := BuildChunks(injected, inject, streams, windows, total, start, durationNanos);
    if chunks == None {
      return None, background;
    }
    var merged := MergeSortedChunks(chunks.value);
    r := Some(merged);
    WithInjected(injected, background);
    BackgroundSize(background, streams, total, inject, start, durationNanos, |streams|);
    assert |multiset(merged)| == |multiset(injected)| + |multiset(StableSort.Concat(background))|;
    if TimesFit(injected, start, AsI64(durationNanos)) {
      BackgroundFromStart(background, streams, total, inject, start, durationNanos, |streams|);
      FittingTimesMerge(injected, background, start, durationNanos);
    }
  }
}
