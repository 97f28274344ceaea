/**
 The two multiset comparisons of output lines: a merge over sorted copies that counts missing and
 extra lines, and a count map that lists the differing lines one by one.
 */
module LineDiff {
  import opened Integers

  type Line = string

  // ---- the order of lines ----

  predicate Before(a: Line, b: Line) {
    b != "" && (a == "" || a[0] < b[0] || (a[0] == b[0] && Before(a[1..], b[1..])))
  }

  lemma {:induction false} OneComesFirst(a: Line, b: Line)
    ensures a == b || Before(a, b) || Before(b, a)
  {
    if a != "" && b != "" && a[0] == b[0] {
      OneComesFirst(a[1..], b[1..]);
      assert a == [a[0]] + a[1..] && b == [b[0]] + b[1..];
    }
  }

  lemma {:induction false} BeforeThrough(a: Line, b: Line, c: Line)
    requires Before(a, b) && Before(b, c)
    ensures Before(a, c)
  {
    if a != "" && a[0] == b[0] && b[0] == c[0] {
      BeforeThrough(a[1..], b[1..], c[1..]);
    }
  }

  lemma {:induction false} NotBeforeItself(a: Line)
    ensures !Before(a, a)
  {
    if a != "" {
      NotBeforeItself(a[1..]);
    }
  }

  predicate NotAfter(a: Line, b: Line) {
    a == b || Before(a, b)
  }

  ghost predicate Sorted(s: seq<Line>) {
    forall i, j :: 0 <= i < j < |s| ==> NotAfter(s[i], s[j])
  }

  function Insert(x: Line, s: seq<Line>): seq<Line> {
    if s == [] || NotAfter(x, s[0]) then [x] + s else [s[0]] + Insert(x, s[1..])
  }

  function Sort(s: seq<Line>): seq<Line> {
    if s == [] then [] else Insert(s[0], Sort(s[1..]))
  }

  lemma {:induction false} InsertSorts(x: Line, s: seq<Line>)
    requires Sorted(s)
    ensures Sorted(Insert(x, s)) && multiset(Insert(x, s)) == multiset([x]) + multiset(s)
    ensures Insert(x, s)[0] == x || (s != [] && Insert(x, s)[0] == s[0])
  {
    hide Before;
    if s == [] {
    } else if NotAfter(x, s[0]) {
      forall i | 0 <= i < |s| ensures NotAfter(x, s[i]) {
        if i > 0 && x != s[0] && s[0] != s[i] {
          BeforeThrough(x, s[0], s[i]);
        }
      }
    } else {
      InsertSorts(x, s[1..]);
      var rest := Insert(x, s[1..]);
      assert s == [s[0]] + s[1..];
      OneComesFirst(x, s[0]);
      forall i | 0 <= i < |rest| ensures NotAfter(s[0], rest[i]) {
        assert rest[i] in multiset(rest);
        assert rest[i] == x || rest[i] in s[1..];
      }
    }
  }

  lemma {:induction false} SortSorts(s: seq<Line>)
    ensures Sorted(Sort(s)) && multiset(Sort(s)) == multiset(s)
  {
    if s != [] {
      SortSorts(s[1..]);
      InsertSorts(s[0], Sort(s[1..]));
      assert s == [s[0]] + s[1..];
    }
  }

  // ---- the sorted merge ----

  /** The lines of `a` left over once each line of `b` has been matched with an equal one. */
  ghost function Surplus(a: seq<Line>, b: seq<Line>): multiset<Line> {
    multiset(a) - multiset(b)
  }

  lemma FirstIsAlone(a: seq<Line>, b: seq<Line>)
    requires a != [] && Sorted(b) && (b != [] ==> Before(a[0], b[0]))
    ensures |Surplus(a, b)| == 1 + |Surplus(a[1..], b)| && |Surplus(b, a)| == |Surplus(b, a[1..])|
  {
    hide Before;
    forall k | 0 <= k < |b| ensures b[k] != a[0] {
      NotBeforeItself(a[0]);
      if b[0] != b[k] {
        assert NotAfter(b[0], b[k]);
        BeforeThrough(a[0], b[0], b[k]);
      }
    }
    assert a == [a[0]] + a[1..];
    assert a[0] !in multiset(b);
    assert Surplus(a, b) == multiset{a[0]} + Surplus(a[1..], b);
    assert Surplus(b, a) == Surplus(b, a[1..]);
  }

  lemma FirstsMatch(a: seq<Line>, b: seq<Line>)
    requires a != [] && b != [] && a[0] == b[0]
    ensures Surplus(a, b) == Surplus(a[1..], b[1..])
  {
    assert a == [a[0]] + a[1..] && b == [b[0]] + b[1..];
  }

  lemma NoneLeft(a: seq<Line>)
    ensures |Surplus(a, [])| == |a| && |Surplus([], a)| == 0
  {
    assert Surplus(a, []) == multiset(a);
  }

  /** What has been counted, and what is still to be counted in the rest of the sorted copies. */
  ghost predicate Counting(a: seq<Line>, b: seq<Line>, restA: seq<Line>, restB: seq<Line>, missing: nat, extra: nat) {
    && Sorted(restA) && Sorted(restB)
    && missing + |Surplus(restA, restB)| == |Surplus(a, b)|
    && extra + |Surplus(restB, restA)| == |Surplus(b, a)|
  }

  lemma CountingStep(a: seq<Line>, b: seq<Line>, restA: seq<Line>, restB: seq<Line>, missing: nat, extra: nat)
    requires Counting(a, b, restA, restB, missing, extra) && restA != [] && restB != []
    ensures Before(restA[0], restB[0]) ==> Counting(a, b, restA[1..], restB, missing + 1, extra)
    ensures Before(restB[0], restA[0]) ==> Counting(a, b, restA, restB[1..], missing, extra + 1)
    ensures !Before(restA[0], restB[0]) && !Before(restB[0], restA[0]) ==>
              Counting(a, b, restA[1..], restB[1..], missing, extra)
  {
    hide Before, Surplus;
    if Before(restA[0], restB[0]) {
      FirstIsAlone(restA, restB);
    }
    if Before(restB[0], restA[0]) {
      FirstIsAlone(restB, restA);
    }
    if !Before(restA[0], restB[0]) && !Before(restB[0], restA[0]) {
      OneComesFirst(restA[0], restB[0]);
      FirstsMatch(restA, restB);
      FirstsMatch(restB, restA);
    }
  }

  lemma CountingStarts(a: seq<Line>, b: seq<Line>)
    ensures Counting(a, b, Sort(a), Sort(b), 0, 0)
  {
    SortSorts(a);
    SortSorts(b);
  }

  lemma CountingEnds(a: seq<Line>, b: seq<Line>, restA: seq<Line>, restB: seq<Line>, missing: nat, extra: nat)
    requires Counting(a, b, restA, restB, missing, extra) && (restA == [] || restB == [])
    ensures missing + |restA| == |multiset(a) - multiset(b)|
    ensures extra + |restB| == |multiset(b) - multiset(a)|
  {
    NoneLeft(restA);
    NoneLeft(restB);
  }

  /** `merge_count`: how many lines only `a` has, and how many only `b` has, repeats counted. */
  method MergeCount(a: seq<Line>, b: seq<Line>) returns (missing: nat, extra: nat)
    ensures missing == |multiset(a) - multiset(b)|
    ensures extra == |multiset(b) - multiset(a)|
  {
    hide Before, Sort, Counting;
    var sa, sb := Sort(a), Sort(b);
    var i, j := 0, 0;
    missing, extra := 0, 0;
    CountingStarts(a, b);
    assert sa[0..] == sa && sb[0..] == sb;
    while i < |sa| && j < |sb|
      invariant i <= |sa| && j <= |sb| && Counting(a, b, sa[i..], sb[j..], missing, extra)
      decreases |sa| - i + |sb| - j
    {
      assert sa[i..][1..] == sa[i + 1..] && sb[j..][1..] == sb[j + 1..];
      CountingStep(a, b, sa[i..], sb[j..], missing, extra);
      if Before(sa[i], sb[j]) {
        missing := missing + 1;
        i := i + 1;
      } else if Before(sb[j], sa[i]) {
        extra := extra + 1;
        j := j + 1;
      } else {
        i := i + 1;
        j := j + 1;
      }
    }
    CountingEnds(a, b, sa[i..], sb[j..], missing, extra);
    missing := missing + |sa| - i;
    extra := extra + |sb| - j;
  }

  // ---- the count map ----

  datatype Difference = OnlyA(line: Line) | OnlyB(line: Line)

  function CountIn(counts: map<Line, int>, line: Line): int {
    if line in counts then counts[line] else 0
  }

  lemma OneMoreLine(a: seq<Line>, i: nat, x: Line)
    requires i < |a|
    ensures multiset(a[..i + 1])[x] == multiset(a[..i])[x] + if x == a[i] then 1 else 0
  {
    assert a[..i + 1] == a[..i] + [a[i]];
  }

  lemma Bumped(counts: map<Line, int>, y: Line, step: int, x: Line)
    ensures CountIn(counts[y := CountIn(counts, y) + step], x) == CountIn(counts, x) + if x == y then step else 0
  {
  }

  method CountLines(a: seq<Line>, b: seq<Line>) returns (counts: map<Line, int>)
    ensures forall x :: CountIn(counts, x) + multiset(b)[x] == multiset(a)[x]
  {
    counts := map[];
    for i := 0 to |a|
      invariant forall x :: CountIn(counts, x) == multiset(a[..i])[x]
    {
      ghost var before := counts;
      counts := counts[a[i] := CountIn(counts, a[i]) + 1];
      hide CountIn;
      forall x ensures CountIn(counts, x) == multiset(a[..i + 1])[x] {
        OneMoreLine(a, i, x);
        Bumped(before, a[i], 1, x);
      }
    }
    assert a[..|a|] == a;
    for i := 0 to |b|
      invariant forall x :: CountIn(counts, x) + multiset(b[..i])[x] == multiset(a)[x]
    {
      ghost var before := counts;
      counts := counts[b[i] := CountIn(counts, b[i]) - 1];
      hide CountIn;
      forall x ensures CountIn(counts, x) + multiset(b[..i + 1])[x] == multiset(a)[x] {
        OneMoreLine(b, i, x);
        Bumped(before, b[i], -1, x);
      }
    }
    assert b[..|b|] == b;
  }

  /** `for _ in 0..n { bad.push(d) }`: nothing where `n` is negative. */
  method PushTimes(bad: seq<Difference>, d: Difference, n: int) returns (bad': seq<Difference>)
    ensures multiset(bad') == multiset(bad)[d := multiset(bad)[d] + Max(n, 0)]
    ensures |bad'| == |bad| + Max(n, 0)
  {
    bad' := bad;
    for i := 0 to Max(n, 0)
      invariant |bad'| == |bad| + i && multiset(bad') == multiset(bad)[d := multiset(bad)[d] + i]
    {
      bad' := bad' + [d];
    }
  }

  /** `bad` lists the surplus on both sides, for the lines not in `left`. */
  ghost predicate Lists(bad: seq<Difference>, counts: map<Line, int>, left: set<Line>) {
    forall x :: multiset(bad)[OnlyA(x)] == (if x in left then 0 else Max(CountIn(counts, x), 0))
             && multiset(bad)[OnlyB(x)] == (if x in left then 0 else Max(-CountIn(counts, x), 0))
  }

  /** `compare_multiset`: the verdict, and every differing line as often as it differs, in no particular order. */
  method CompareMultiset(a: seq<Line>, b: seq<Line>) returns (same: bool, bad: seq<Difference>)
    ensures same <==> multiset(a) == multiset(b)
    ensures forall x :: multiset(bad)[OnlyA(x)] == (multiset(a) - multiset(b))[x]
    ensures forall x :: multiset(bad)[OnlyB(x)] == (multiset(b) - multiset(a))[x]
  {
    var counts := CountLines(a, b);
    bad := [];
    var left := counts.Keys;
    while left != {}
      invariant left <= counts.Keys && Lists(bad, counts, left)
      decreases |left|
    {
      var line :| line in left;
      bad := PushTimes(bad, OnlyA(line), counts[line]);
      bad := PushTimes(bad, OnlyB(line), -counts[line]);
      left := left - {line};
    }
    same := bad == [];
    Verdict(a, b, counts, bad);
  }

  lemma Verdict(a: seq<Line>, b: seq<Line>, counts: map<Line, int>, bad: seq<Difference>)
    requires Lists(bad, counts, {}) && forall x :: CountIn(counts, x) + multiset(b)[x] == multiset(a)[x]
    ensures bad == [] <==> multiset(a) == multiset(b)
    ensures forall x :: multiset(bad)[OnlyA(x)] == (multiset(a) - multiset(b))[x]
    ensures forall x :: multiset(bad)[OnlyB(x)] == (multiset(b) - multiset(a))[x]
  {
    if bad == [] {
      forall x ensures multiset(a)[x] == multiset(b)[x] {
        assert multiset(bad)[OnlyA(x)] == 0 && multiset(bad)[OnlyB(x)] == 0;
      }
    } else {
      var d := bad[0];
      assert multiset(bad)[d] > 0;
      assert CountIn(counts, d.line) != 0;
    }
  }

  // ---- the two agree ----

  ghost predicate Counts(bad: seq<Difference>, onlyA: multiset<Line>, onlyB: multiset<Line>) {
    forall x :: multiset(bad)[OnlyA(x)] == onlyA[x] && multiset(bad)[OnlyB(x)] == onlyB[x]
  }

  lemma CountsLess(bad: seq<Difference>, onlyA: multiset<Line>, onlyB: multiset<Line>, x: Line)
    requires bad != [] && Counts(bad, onlyA, onlyB)
    ensures bad[0] == OnlyA(x) ==> x in onlyA && Counts(bad[1..], onlyA - multiset{x}, onlyB)
    ensures bad[0] == OnlyB(x) ==> x in onlyB && Counts(bad[1..], onlyA, onlyB - multiset{x})
  {
    assert bad == [bad[0]] + bad[1..];
    assert multiset(bad) == multiset{bad[0]} + multiset(bad[1..]);
  }

  lemma {:induction false} DifferenceCount(bad: seq<Difference>, onlyA: multiset<Line>, onlyB: multiset<Line>)
    requires Counts(bad, onlyA, onlyB)
    ensures |bad| == |onlyA| + |onlyB|
  {
    if bad == [] {
      assert onlyA == multiset{} && onlyB == multiset{};
    } else {
      var x := bad[0].line;
      CountsLess(bad, onlyA, onlyB, x);
      hide Counts;
      if bad[0].OnlyA? {
        DifferenceCount(bad[1..], onlyA - multiset{x}, onlyB);
        assert |onlyA| == |onlyA - multiset{x}| + 1;
      } else {
        DifferenceCount(bad[1..], onlyA, onlyB - multiset{x});
        assert |onlyB| == |onlyB - multiset{x}| + 1;
      }
    }
  }

  /** Both comparisons of the same two files: as many differing lines in the list as missing and extra ones together. */
  method CompareBothWays(a: seq<Line>, b: seq<Line>) returns (missing: nat, extra: nat, same: bool, bad: seq<Difference>)
    ensures |bad| == missing + extra
    ensures same <==> missing == 0 && extra == 0
  {
    missing, extra := MergeCount(a, b);
    same, bad := CompareMultiset(a, b);
    DifferenceCount(bad, multiset(a) - multiset(b), multiset(b) - multiset(a));
    if missing == 0 && extra == 0 {
      assert multiset(a) - multiset(b) == multiset{} && multiset(b) - multiset(a) == multiset{};
      forall x ensures multiset(a)[x] == multiset(b)[x] {
        assert (multiset(a) - multiset(b))[x] == 0 && (multiset(b) - multiset(a))[x] == 0;
      }
    }
  }

  // ---- splitting and joining ----

  const NEWLINE: char := '\n'

  function Joined(lines: seq<Line>): string {
    if lines == [] then "" else lines[0] + [NEWLINE] + Joined(lines[1..])
  }

  /** `split('\n')`: never empty. */
  function SplitAt(text: string): (parts: seq<Line>)
    ensures parts != []
  {
    if text == "" then [""]
    else
      var rest := SplitAt(text[1..]);
      if text[0] == NEWLINE then [""] + rest else [[text[0]] + rest[0]] + rest[1..]
  }

  /** `split_lines`: the empty part after a final newline is not a line. */
  function SplitLines(text: string): seq<Line> {
    var parts := SplitAt(text);
    if parts[|parts| - 1] == "" then parts[..|parts| - 1] else parts
  }

  /** `join_lines`. */
  method JoinLines(lines: seq<Line>) returns (text: string)
    ensures text == Joined(lines)
  {
    text := "";
    assert lines[0..] == lines;
    for i := 0 to |lines|
      invariant text + Joined(lines[i..]) == Joined(lines)
    {
      assert lines[i..][1..] == lines[i + 1..];
      ghost var rest := Joined(lines[i + 1..]);
      assert text + (lines[i] + [NEWLINE] + rest) == text + lines[i] + [NEWLINE] + rest;
      text := text + lines[i];
      text := text + [NEWLINE];
    }
    assert lines[|lines|..] == [] && text + "" == text;
  }

  lemma {:induction false} SplitFirst(line: Line, rest: string)
    requires NEWLINE !in line
    ensures SplitAt(line + [NEWLINE] + rest) == [line] + SplitAt(rest)
  {
    var text := line + [NEWLINE] + rest;
    if line == "" {
      assert text[1..] == rest;
    } else {
      assert text[1..] == line[1..] + [NEWLINE] + rest;
      SplitFirst(line[1..], rest);
      assert [line[0]] + line[1..] == line;
    }
  }

  lemma {:induction false} SplitJoined(lines: seq<Line>)
    requires forall l | l in lines :: NEWLINE !in l
    ensures SplitAt(Joined(lines)) == lines + [""]
  {
    if lines != [] {
      SplitJoined(lines[1..]);
      SplitFirst(lines[0], Joined(lines[1..]));
      assert lines == [lines[0]] + lines[1..];
    }
  }

  lemma {:induction false} PartsHaveNoNewline(text: string)
    ensures forall l | l in SplitAt(text) :: NEWLINE !in l
  {
    if text != "" {
      PartsHaveNoNewline(text[1..]);
      var rest := SplitAt(text[1..]);
      assert rest[0] in rest;
    }
  }

  /** Splitting undoes joining exactly for lines without a newline in them. */
  lemma SplitUndoesJoin(lines: seq<Line>)
    ensures SplitLines(Joined(lines)) == lines <==> forall l | l in lines :: NEWLINE !in l
  {
    PartsHaveNoNewline(Joined(lines));
    if forall l | l in lines :: NEWLINE !in l {
      SplitJoined(lines);
      assert (lines + [""])[..|lines|] == lines;
    } else {
      var parts := SplitAt(Joined(lines));
      forall l | l in SplitLines(Joined(lines)) ensures NEWLINE !in l {
        assert l in parts;
      }
    }
  }
}
