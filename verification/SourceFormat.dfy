/**
 The WFL source formatter: lines are trimmed and indented by brace and parenthesis depth, runs of
 blank lines shrink to one, and the text ends in exactly one newline.
 */
module SourceFormat {
  import opened Integers
  import opened LineDiff

  // ---- trimming ----

  /** Unicode's `White_Space`. */
  predicate IsSpace(c: char) {
    var n := c as int;
    0x9 <= n <= 0xd || n == 0x20 || n == 0x85 || n == 0xa0 || n == 0x1680 || 0x2000 <= n <= 0x200a
    || n == 0x2028 || n == 0x2029 || n == 0x202f || n == 0x205f || n == 0x3000
  }

  const WHITE_SPACE: string :=
    "\t\n\U{b}\U{c}\r \U{85}\U{a0}\U{1680}\U{2000}\U{2001}\U{2002}\U{2003}\U{2004}\U{2005}\U{2006}\U{2007}\U{2008}\U{2009}\U{200a}\U{2028}\U{2029}\U{202f}\U{205f}\U{3000}"

  /** They are these twenty-five characters. */
  lemma WhiteSpaceIs(c: char)
    ensures IsSpace(c) <==> c in WHITE_SPACE
    ensures |WHITE_SPACE| == 25
  {
    if IsSpace(c) {
      var n := c as int;
      var k := if n <= 0xd then n - 9 else if n == 0x20 then 5 else if n == 0x85 then 6 else if n == 0xa0 then 7
               else if n == 0x1680 then 8 else if n <= 0x200a then n - 0x2000 + 9 else if n == 0x2028 then 20
               else if n == 0x2029 then 21 else if n == 0x202f then 22 else if n == 0x205f then 23 else 24;
      assert WHITE_SPACE[k] as int == n;
      assert WHITE_SPACE[k] == c;
    }
  }

  predicate IsTrimmed(s: string) {
    s != "" ==> !IsSpace(s[0]) && !IsSpace(s[|s| - 1])
  }

  function TrimStart(s: string): string {
    if s != "" && IsSpace(s[0]) then TrimStart(s[1..]) else s
  }

  function TrimEnd(s: string): string {
    if s != "" && IsSpace(s[|s| - 1]) then TrimEnd(s[..|s| - 1]) else s
  }

  function Trim(s: string): string {
    TrimEnd(TrimStart(s))
  }

  lemma {:induction false} TrimEndKeeps(s: string)
    ensures TrimEnd(s) <= s && (TrimEnd(s) != "" ==> !IsSpace(TrimEnd(s)[|TrimEnd(s)| - 1]))
  {
    if s != "" && IsSpace(s[|s| - 1]) {
      TrimEndKeeps(s[..|s| - 1]);
    }
  }

  lemma {:induction false} TrimStartKeeps(s: string)
    ensures TrimStart(s) != "" ==> !IsSpace(TrimStart(s)[0])
    ensures forall c | c in TrimStart(s) :: c in s
  {
    if s != "" && IsSpace(s[0]) {
      TrimStartKeeps(s[1..]);
    }
  }

  lemma TrimTrims(s: string)
    ensures IsTrimmed(Trim(s)) && forall c | c in Trim(s) :: c in s
  {
    TrimStartKeeps(s);
    TrimEndKeeps(TrimStart(s));
  }

  ghost predicate AllSpace(s: string) {
    forall c | c in s :: IsSpace(c)
  }

  lemma {:induction false} TrimStartOff(s: string) returns (front: string)
    ensures s == front + TrimStart(s) && AllSpace(front)
  {
    front := "";
    if s != "" && IsSpace(s[0]) {
      var more := TrimStartOff(s[1..]);
      front := [s[0]] + more;
    }
  }

  lemma {:induction false} TrimEndOff(s: string) returns (back: string)
    ensures s == TrimEnd(s) + back && AllSpace(back)
  {
    back := "";
    if s != "" && IsSpace(s[|s| - 1]) {
      var more := TrimEndOff(s[..|s| - 1]);
      back := more + [s[|s| - 1]];
    }
  }

  /** Trimming takes white space off both ends, all of it, and nothing else. */
  lemma TrimTakesSpaceOff(s: string) returns (front: string, back: string)
    ensures s == front + Trim(s) + back && AllSpace(front) && AllSpace(back) && IsTrimmed(Trim(s))
  {
    front := TrimStartOff(s);
    back := TrimEndOff(TrimStart(s));
    TrimTrims(s);
    assert front + (Trim(s) + back) == front + Trim(s) + back;
  }

  function Spaces(n: nat): string {
    seq(n, _ => ' ')
  }

  lemma {:induction false} TrimIndented(n: nat, s: string)
    requires IsTrimmed(s) && s != ""
    ensures Trim(Spaces(n) + s) == s
  {
    if n == 0 {
      assert Spaces(0) + s == s;
    } else {
      assert (Spaces(n) + s)[1..] == Spaces(n - 1) + s;
      TrimIndented(n - 1, s);
    }
  }

  // ---- delimiters ----

  datatype Mode = Code | Quoted | Comment

  /** What the scanner takes the character at `i` for: a quoted or commented one never counts. */
  function ModeAt(line: string, i: nat): Mode
    requires i <= |line|
  {
    if i == 0 then Code
    else
      var c := line[i - 1];
      match ModeAt(line, i - 1)
      case Comment => Comment
      case Quoted => if c == '"' then Code else Quoted
      case Code => if c == '#' then Comment else if c == '"' then Quoted else Code
  }

  function CountCode(line: string, set1: set<char>, k: nat): nat
    requires k <= |line|
  {
    if k == 0 then 0
    else CountCode(line, set1, k - 1) + if ModeAt(line, k - 1) == Code && line[k - 1] in set1 then 1 else 0
  }

  const OPENERS: set<char> := {'{', '('}
  const CLOSERS: set<char> := {'}', ')'}

  function Opens(line: string): nat {
    CountCode(line, OPENERS, |line|)
  }

  function Closes(line: string): nat {
    CountCode(line, CLOSERS, |line|)
  }

  lemma {:induction false} CommentRuns(line: string, i: nat, k: nat, set1: set<char>)
    requires i <= k <= |line| && ModeAt(line, i) == Comment
    ensures ModeAt(line, k) == Comment && CountCode(line, set1, k) == CountCode(line, set1, i)
  {
    if i < k {
      CommentRuns(line, i, k - 1, set1);
    }
  }

  /** `count_delimiters`. */
  method CountDelimiters(line: string) returns (opens: nat, closes: nat)
    ensures opens == Opens(line) && closes == Closes(line)
  {
    opens, closes := 0, 0;
    var i := 0;
    while i < |line|
      invariant i <= |line| && (i < |line| ==> ModeAt(line, i) == Code)
      invariant opens == CountCode(line, OPENERS, i) && closes == CountCode(line, CLOSERS, i)
    {
      var c := line[i];
      if c == '#' {
        CommentRuns(line, i + 1, |line|, OPENERS);
        CommentRuns(line, i + 1, |line|, CLOSERS);
        return;
      } else if c == '"' {
        i := i + 1;
        while i < |line| && line[i] != '"'
          invariant i <= |line| && ModeAt(line, i) == Quoted
          invariant opens == CountCode(line, OPENERS, i) && closes == CountCode(line, CLOSERS, i)
        {
          i := i + 1;
        }
        if i < |line| {
          i := i + 1;
        }
      } else if c in OPENERS {
        opens := opens + 1;
        i := i + 1;
      } else if c in CLOSERS {
        closes := closes + 1;
        i := i + 1;
      } else {
        i := i + 1;
      }
    }
  }

  // ---- what counts as a delimiter ----

  lemma {:induction false} InFront(a: string, b: string, k: nat, set1: set<char>)
    requires k <= |a|
    ensures ModeAt(a + b, k) == ModeAt(a, k) && CountCode(a + b, set1, k) == CountCode(a, set1, k)
  {
    if k > 0 {
      InFront(a, b, k - 1, set1);
      assert (a + b)[k - 1] == a[k - 1];
    }
  }

  lemma {:induction false} Behind(a: string, b: string, k: nat, set1: set<char>)
    requires k <= |b| && ModeAt(a, |a|) == Code
    ensures ModeAt(a + b, |a| + k) == ModeAt(b, k)
    ensures CountCode(a + b, set1, |a| + k) == CountCode(a, set1, |a|) + CountCode(b, set1, k)
  {
    if k == 0 {
      InFront(a, b, |a|, set1);
    } else {
      Behind(a, b, k - 1, set1);
      assert (a + b)[|a| + k - 1] == b[k - 1];
    }
  }

  lemma CountsAddUp(a: string, b: string)
    requires ModeAt(a, |a|) == Code
    ensures Opens(a + b) == Opens(a) + Opens(b) && Closes(a + b) == Closes(a) + Closes(b)
  {
    Behind(a, b, |b|, OPENERS);
    Behind(a, b, |b|, CLOSERS);
  }

  /** No quote and no comment. */
  predicate Plain(a: string) {
    '"' !in a && '#' !in a
  }

  lemma {:induction false} PlainIsCode(a: string, k: nat)
    requires Plain(a) && k <= |a|
    ensures ModeAt(a, k) == Code
  {
    if k > 0 {
      PlainIsCode(a, k - 1);
      assert a[k - 1] in a;
    }
  }

  lemma {:induction false} PlainCount(a: string, c: char, d: char, k: nat)
    requires Plain(a) && k <= |a| && c != d
    ensures CountCode(a, {c, d}, k) == multiset(a[..k])[c] + multiset(a[..k])[d]
  {
    if k > 0 {
      PlainCount(a, c, d, k - 1);
      PlainIsCode(a, k - 1);
      assert a[..k] == a[..k - 1] + [a[k - 1]];
    }
  }

  /** In plain text all braces and parentheses count. */
  lemma PlainCounts(a: string)
    requires Plain(a)
    ensures Opens(a) == multiset(a)['{'] + multiset(a)['('] && Closes(a) == multiset(a)['}'] + multiset(a)[')']
  {
    assert a[..|a|] == a;
    PlainCount(a, '{', '(', |a|);
    PlainCount(a, '}', ')', |a|);
  }

  lemma {:induction false} InsideQuotes(q: string, k: nat, set1: set<char>)
    requires '"' !in q && k <= |q| && '"' !in set1
    ensures ModeAt(['"'] + q, k + 1) == Quoted && CountCode(['"'] + q, set1, k + 1) == 0
  {
    var line: string := ['"'] + q;
    if k == 0 {
      assert ModeAt(line, 0) == Code && line[0] == '"' && CountCode(line, set1, 0) == 0;
    } else {
      InsideQuotes(q, k - 1, set1);
      assert line[k] == q[k - 1];
    }
  }

  /** A quotation counts for nothing, and neither does one that is not closed. */
  lemma QuotedDoesNotCount(a: string, q: string, b: string)
    requires Plain(a) && '"' !in q
    ensures Opens(a + (['"'] + q + ['"']) + b) == Opens(a) + Opens(b)
    ensures Closes(a + (['"'] + q + ['"']) + b) == Closes(a) + Closes(b)
    ensures Opens(a + (['"'] + q)) == Opens(a) && Closes(a + (['"'] + q)) == Closes(a)
  {
    var open: string, quoted := ['"'] + q, ['"'] + q + ['"'];
    PlainIsCode(a, |a|);
    forall set1 | set1 in {OPENERS, CLOSERS}
      ensures CountCode(open, set1, |open|) == 0 && CountCode(quoted, set1, |quoted|) == 0 && ModeAt(quoted, |quoted|) == Code
    {
      InsideQuotes(q, |q|, set1);
      InFront(open, ['"'], |open|, set1);
      assert quoted == open + ['"'] && quoted[|open|] == '"';
    }
    assert OPENERS in {OPENERS, CLOSERS} && CLOSERS in {OPENERS, CLOSERS};
    CountsAddUp(a, open);
    CountsAddUp(a, quoted);
    Behind(a, quoted, |quoted|, OPENERS);
    CountsAddUp(a + quoted, b);
  }

  /** And a comment for nothing up to the end of the line. */
  lemma CommentDoesNotCount(a: string, c: string)
    requires Plain(a)
    ensures Opens(a + (['#'] + c)) == Opens(a) && Closes(a + (['#'] + c)) == Closes(a)
  {
    var comment: string := ['#'] + c;
    PlainIsCode(a, |a|);
    assert ModeAt(comment, 0) == Code && ModeAt(comment, 1) == Comment;
    CommentRuns(comment, 1, |comment|, OPENERS);
    CommentRuns(comment, 1, |comment|, CLOSERS);
    CountsAddUp(a, comment);
  }

  // ---- what is kept, and how it is rendered ----

  function Trims(lines: seq<string>): seq<string> {
    seq(|lines|, i requires 0 <= i < |lines| => Trim(lines[i]))
  }

  /** Of the trimmed lines, the non-blank ones and one blank line for every run of blanks after one. */
  function Kept(trimmed: seq<string>): seq<string> {
    if trimmed == [] then []
    else
      var n := |trimmed| - 1;
      var before := Kept(trimmed[..n]);
      if trimmed[n] != "" then before + [trimmed[n]]
      else if before != [] && before[|before| - 1] != "" then before + [""]
      else before
  }

  /** The lines of the formatted text, before indentation. */
  function Entries(trimmed: seq<string>): seq<string> {
    var kept := Kept(trimmed);
    if kept != [] && kept[|kept| - 1] == "" then kept[..|kept| - 1] else kept
  }

  function Depth(lines: seq<string>): int {
    if lines == [] then 0
    else
      var n := |lines| - 1;
      Depth(lines[..n]) + Opens(lines[n]) - Closes(lines[n])
  }

  function IndentOf(depth: int, line: string): nat {
    if line != "" && line[0] in CLOSERS then Max(depth - 1, 0) else Max(depth, 0)
  }

  function Indented(lines: seq<string>, n: nat): string
    requires n < |lines|
  {
    if lines[n] == "" then "" else Spaces(4 * IndentOf(Depth(lines[..n]), lines[n])) + lines[n]
  }

  function Render(lines: seq<string>): string {
    if lines == [] then ""
    else
      var n := |lines| - 1;
      Render(lines[..n]) + Indented(lines, n) + "\n"
  }

  /** `format_source`, as a function of the text. */
  function Formatted(source: string): string {
    var entries := Entries(Trims(SplitLines(source)));
    if entries == [] then "\n" else Render(entries)
  }

  /** No blank line first, and no two in a row. */
  ghost predicate Collapsed(lines: seq<string>) {
    && (lines != [] ==> lines[0] != "")
    && forall i :: 0 < i < |lines| ==> lines[i - 1] != "" || lines[i] != ""
  }

  ghost predicate Clean(lines: seq<string>) {
    forall l | l in lines :: IsTrimmed(l) && NEWLINE !in l
  }

  lemma {:induction false} KeptIsCollapsed(trimmed: seq<string>)
    requires Clean(trimmed)
    ensures Collapsed(Kept(trimmed)) && Clean(Kept(trimmed))
  {
    if trimmed != [] {
      KeptIsCollapsed(trimmed[..|trimmed| - 1]);
    }
  }

  lemma TrimsAreClean(source: string)
    ensures Clean(Trims(SplitLines(source)))
  {
    var lines := SplitLines(source);
    PartsHaveNoNewline(source);
    forall l | l in Trims(lines) ensures IsTrimmed(l) && NEWLINE !in l {
      var i :| 0 <= i < |lines| && l == Trim(lines[i]);
      TrimTrims(lines[i]);
      assert lines[i] in SplitAt(source);
    }
  }

  lemma EntriesAreGood(trimmed: seq<string>)
    requires Clean(trimmed)
    ensures var es := Entries(trimmed);
      Collapsed(es) && Clean(es) && (es != [] ==> es[|es| - 1] != "")
  {
    KeptIsCollapsed(trimmed);
    var kept := Kept(trimmed);
    if kept != [] && kept[|kept| - 1] == "" && |kept| > 1 {
      assert kept[|kept| - 2] != "";
    }
  }

  lemma {:induction false} CollapsedIsKept(lines: seq<string>)
    requires Collapsed(lines)
    ensures Kept(lines) == lines
  {
    if lines != [] {
      var n := |lines| - 1;
      CollapsedIsKept(lines[..n]);
      assert lines == lines[..n] + [lines[n]];
    }
  }

  function NonBlank(lines: seq<string>): seq<string> {
    if lines == [] then []
    else NonBlank(lines[..|lines| - 1]) + if lines[|lines| - 1] != "" then [lines[|lines| - 1]] else []
  }

  lemma NonBlankOneMore(lines: seq<string>, line: string)
    ensures NonBlank(lines + [line]) == NonBlank(lines) + if line != "" then [line] else []
  {
    assert (lines + [line])[..|lines|] == lines;
  }

  lemma {:induction false} KeptKeepsNonBlank(trimmed: seq<string>)
    ensures NonBlank(Kept(trimmed)) == NonBlank(trimmed)
  {
    if trimmed != [] {
      var n := |trimmed| - 1;
      KeptKeepsNonBlank(trimmed[..n]);
      NonBlankOneMore(Kept(trimmed[..n]), trimmed[n]);
      NonBlankOneMore(Kept(trimmed[..n]), "");
    }
  }

  lemma EntriesKeepNonBlank(trimmed: seq<string>)
    ensures NonBlank(Entries(trimmed)) == NonBlank(trimmed)
  {
    KeptKeepsNonBlank(trimmed);
  }

  // ---- the rendered text, line by line ----

  function IndentedLines(lines: seq<string>): (out: seq<string>)
    ensures |out| == |lines|
  {
    seq(|lines|, n requires 0 <= n < |lines| => Indented(lines, n))
  }

  lemma {:induction false} JoinedOneMore(lines: seq<string>, line: string)
    ensures Joined(lines + [line]) == Joined(lines) + line + [NEWLINE]
  {
    if lines == [] {
      assert [] + [line] == [line] && [line][1..] == [];
      assert line + [NEWLINE] + "" == "" + line + [NEWLINE];
    } else {
      JoinedOneMore(lines[1..], line);
      assert (lines + [line])[1..] == lines[1..] + [line];
      var first, rest := lines[0] + [NEWLINE], Joined(lines[1..]);
      assert first + (rest + line + [NEWLINE]) == first + rest + line + [NEWLINE];
    }
  }

  lemma IndentedPrefix(lines: seq<string>, n: nat)
    requires n <= |lines|
    ensures IndentedLines(lines[..n]) == IndentedLines(lines)[..n]
  {
    forall k | 0 <= k < n ensures Indented(lines[..n], k) == Indented(lines, k) {
      assert lines[..n][..k] == lines[..k];
    }
  }

  lemma {:induction false} RenderIsJoined(lines: seq<string>)
    ensures Render(lines) == Joined(IndentedLines(lines))
  {
    if lines != [] {
      var n := |lines| - 1;
      RenderIsJoined(lines[..n]);
      IndentedPrefix(lines, n);
      hide Indented;
      assert IndentedLines(lines) == IndentedLines(lines[..n]) + [Indented(lines, n)];
      JoinedOneMore(IndentedLines(lines[..n]), Indented(lines, n));
    }
  }

  lemma IndentedTrims(lines: seq<string>, n: nat)
    requires Clean(lines) && n < |lines|
    ensures NEWLINE !in Indented(lines, n) && Trim(Indented(lines, n)) == lines[n]
  {
    assert lines[n] in lines;
    if lines[n] != "" {
      TrimIndented(4 * IndentOf(Depth(lines[..n]), lines[n]), lines[n]);
    }
  }

  /** Reading the rendered lines back and trimming them gives the entries again. */
  lemma RenderReadsBack(lines: seq<string>)
    requires Clean(lines)
    ensures Trims(SplitLines(Render(lines))) == lines
  {
    hide Indented, Trim, SplitLines, Render;
    RenderIsJoined(lines);
    forall n | 0 <= n < |lines| ensures NEWLINE !in Indented(lines, n) && Trim(Indented(lines, n)) == lines[n] {
      IndentedTrims(lines, n);
    }
    SplitUndoesJoin(IndentedLines(lines));
    assert SplitLines(Render(lines)) == IndentedLines(lines);
  }

  lemma NewlineReadsBack()
    ensures Trims(SplitLines("\n")) == [""]
  {
    assert "\n"[1..] == "";
    assert SplitAt("") == [""];
    assert SplitAt("\n") == ["", ""];
    assert SplitLines("\n") == [""];
  }

  predicate EndsOnce(text: string) {
    text != "" && text[|text| - 1] == NEWLINE && (|text| > 1 ==> text[|text| - 2] != NEWLINE)
  }

  lemma RenderEndsOnce(lines: seq<string>)
    requires Clean(lines) && lines != [] && lines[|lines| - 1] != ""
    ensures EndsOnce(Render(lines))
  {
    var n := |lines| - 1;
    assert lines[n] in lines;
    var text := Render(lines);
    var line := lines[n];
    assert text[|text| - 2] == line[|line| - 1];
    assert line[|line| - 1] in line;
  }

  // ---- the laws ----

  /** The lines of the formatted text, trimmed: the entries, or one blank line where there is none. */
  lemma FormattedLines(source: string)
    ensures var es := Entries(Trims(SplitLines(source)));
      Trims(SplitLines(Formatted(source))) == if es == [] then [""] else es
  {
    TrimsAreClean(source);
    EntriesAreGood(Trims(SplitLines(source)));
    RenderReadsBack(Entries(Trims(SplitLines(source))));
    NewlineReadsBack();
  }

  /** Formatting a formatted text changes nothing. */
  lemma FormattingIsIdempotent(source: string)
    ensures Formatted(Formatted(source)) == Formatted(source)
  {
    hide Render, SplitLines;
    var es := Entries(Trims(SplitLines(source)));
    TrimsAreClean(source);
    EntriesAreGood(Trims(SplitLines(source)));
    FormattedLines(source);
    if es == [] {
      assert [""][..0] == [];
      assert Kept([""]) == [];
    } else {
      CollapsedIsKept(es);
    }
  }

  /** The non-blank lines survive in order, trimmed; no two blank lines are left in a row; one newline ends the text. */
  lemma FormattingKeepsTheLines(source: string)
    ensures NonBlank(Trims(SplitLines(Formatted(source)))) == NonBlank(Trims(SplitLines(source)))
    ensures var lines := Trims(SplitLines(Formatted(source)));
      forall i :: 0 < i < |lines| ==> lines[i - 1] != "" || lines[i] != ""
    ensures EndsOnce(Formatted(source))
  {
    hide Render, SplitLines;
    var trimmed := Trims(SplitLines(source));
    TrimsAreClean(source);
    EntriesAreGood(trimmed);
    FormattedLines(source);
    EntriesKeepNonBlank(trimmed);
    var es := Entries(trimmed);
    if es == [] {
      assert NonBlank([]) == [];
      NonBlankOneMore([], "");
      assert [] + [""] == [""];
    } else {
      RenderEndsOnce(es);
    }
  }

  // ---- the indentation, read off the text ----

  /** How many blanks a line starts with. */
  function Leading(line: string): (n: nat)
    ensures n <= |line|
  {
    if line != "" && line[0] == ' ' then 1 + Leading(line[1..]) else 0
  }

  /** What follows them. */
  function Body(line: string): string {
    line[Leading(line)..]
  }

  /** One for a line that starts with a closing bracket. */
  function Closing(line: string): nat {
    if Body(line) != "" && Body(line)[0] in {'}', ')'} then 1 else 0
  }

  lemma {:induction false} LeadingSpaces(n: nat, s: string)
    requires s == "" || s[0] != ' '
    ensures Leading(Spaces(n) + s) == n && Body(Spaces(n) + s) == s
  {
    if n == 0 {
      assert Spaces(0) + s == s;
    } else {
      assert (Spaces(n) + s)[1..] == Spaces(n - 1) + s;
      LeadingSpaces(n - 1, s);
      assert (Spaces(n) + s)[n..] == s;
    }
  }

  lemma BlanksArePlain(n: nat)
    ensures Plain(Spaces(n)) && Opens(Spaces(n)) == 0 && Closes(Spaces(n)) == 0
  {
    assert forall c | c in Spaces(n) :: c == ' ';
    PlainCounts(Spaces(n));
  }

  /** Indentation changes no count. */
  lemma SameDelimiters(n: nat, s: string)
    ensures Opens(Spaces(n) + s) == Opens(s) && Closes(Spaces(n) + s) == Closes(s)
  {
    BlanksArePlain(n);
    PlainIsCode(Spaces(n), |Spaces(n)|);
    CountsAddUp(Spaces(n), s);
  }

  lemma IndentedLine(lines: seq<string>, n: nat)
    requires Clean(lines) && n < |lines|
    ensures var raw := Indented(lines, n);
      && Opens(raw) == Opens(lines[n]) && Closes(raw) == Closes(lines[n]) && (raw == "" <==> lines[n] == "")
      && Body(raw) == lines[n] && Leading(raw) == if raw == "" then 0 else 4 * IndentOf(Depth(lines[..n]), lines[n])
  {
    hide Depth, Opens, Closes;
    assert lines[n] in lines;
    if lines[n] != "" {
      var blanks := 4 * IndentOf(Depth(lines[..n]), lines[n]);
      LeadingSpaces(blanks, lines[n]);
      SameDelimiters(blanks, lines[n]);
    }
  }

  lemma {:induction false} DepthBehindBlanks(lines: seq<string>, n: nat)
    requires Clean(lines) && n <= |lines|
    ensures Depth(IndentedLines(lines)[..n]) == Depth(lines[..n])
  {
    hide Indented;
    if n > 0 {
      DepthBehindBlanks(lines, n - 1);
      IndentedLine(lines, n - 1);
      assert IndentedLines(lines)[..n][..n - 1] == IndentedLines(lines)[..n - 1] && lines[..n][..n - 1] == lines[..n - 1];
    }
  }

  lemma FormattedIsIndented(source: string) returns (es: seq<string>)
    ensures Clean(es) && es != [] && SplitLines(Formatted(source)) == IndentedLines(es)
  {
    hide Indented, SplitLines;
    var trimmed := Trims(SplitLines(source));
    TrimsAreClean(source);
    EntriesAreGood(trimmed);
    es := Entries(trimmed);
    if es == [] {
      es := [""];
      RenderIsJoined(es);
      BlankLine();
    } else {
      RenderIsJoined(es);
    }
    forall n | 0 <= n < |es| ensures NEWLINE !in Indented(es, n) {
      IndentedTrims(es, n);
    }
    SplitUndoesJoin(IndentedLines(es));
  }

  lemma BlankLine()
    ensures Render([""]) == "\n" && Clean([""])
  {
    assert [""][..0] == [] && "" + "" + "\n" == "\n";
  }

  /** The brackets opened less the brackets closed in the lines. */
  function Net(lines: seq<string>): int {
    if lines == [] then 0 else Opens(lines[0]) - Closes(lines[0]) + Net(lines[1..])
  }

  lemma {:induction false} NetIsDepth(lines: seq<string>)
    ensures Net(lines) == Depth(lines)
  {
    hide Opens, Closes;
    if lines != [] {
      NetIsDepth(lines[1..]);
      DepthFromTheFront(lines);
    }
  }

  lemma {:induction false} DepthFromTheFront(lines: seq<string>)
    requires lines != []
    ensures Depth(lines) == Opens(lines[0]) - Closes(lines[0]) + Depth(lines[1..])
  {
    hide Opens, Closes;
    var n := |lines| - 1;
    if n > 0 {
      DepthFromTheFront(lines[..n]);
      assert lines[..n][1..] == lines[1..][..n - 1];
    } else {
      assert lines[..0] == [] && lines[1..] == [];
    }
  }

  /** A line stands four blanks to the right for every bracket open before it, one bracket fewer if it starts by closing. */
  lemma LinesAreIndented(source: string, n: nat)
    requires n < |SplitLines(Formatted(source))|
    ensures var lines := SplitLines(Formatted(source));
      lines[n] != "" ==> Leading(lines[n]) == 4 * Max(Net(lines[..n]) - Closing(lines[n]), 0)
  {
    hide Formatted, SplitLines, Indented;
    var es := FormattedIsIndented(source);
    var lines := SplitLines(Formatted(source));
    IndentedLine(es, n);
    DepthBehindBlanks(es, n);
    NetIsDepth(lines[..n]);
  }

  /** Nowhere in the text is a bracket closed, at the front of a line or by its end, that is not open. */
  ghost predicate WellNested(lines: seq<string>) {
    forall n :: 0 <= n < |lines| ==> Closing(lines[n]) <= Net(lines[..n])
  }

  lemma {:induction false} NetSplit(a: seq<string>, b: seq<string>)
    ensures Net(a + b) == Net(a) + Net(b)
  {
    hide Opens, Closes;
    if a == [] {
      assert a + b == b;
    } else {
      NetSplit(a[1..], b);
      assert (a + b)[1..] == a[1..] + b;
    }
  }

  lemma {:induction false} NetOfBlanks(lines: seq<string>)
    requires forall l | l in lines :: l == ""
    ensures Net(lines) == 0
  {
    if lines != [] {
      assert lines[0] in lines;
      BlankHasNoDelimiters();
      assert forall l | l in lines[1..] :: l in lines;
      NetOfBlanks(lines[1..]);
    }
  }

  lemma NetBetween(lines: seq<string>, m: nat, n: nat)
    requires m < n < |lines| && forall k :: m < k < n ==> lines[k] == ""
    ensures Net(lines[..n]) == Net(lines[..m]) + Opens(lines[m]) - Closes(lines[m])
  {
    hide Opens, Closes;
    var rest := lines[m + 1..n];
    assert lines[..n] == lines[..m] + ([lines[m]] + rest);
    NetSplit(lines[..m], [lines[m]] + rest);
    assert ([lines[m]] + rest)[1..] == rest;
    forall l | l in rest ensures l == "" {
      var k :| 0 <= k < |rest| && rest[k] == l;
      assert l == lines[m + 1 + k];
    }
    NetOfBlanks(rest);
  }

  /** In a well-nested text the first line is flush, and each next line moves by what the one before it opens and closes. */
  lemma NextLineMoves(source: string, m: nat, n: nat)
    requires var lines := SplitLines(Formatted(source));
      && m < n < |lines| && WellNested(lines)
      && lines[m] != "" && lines[n] != "" && forall k :: m < k < n ==> lines[k] == ""
    ensures var lines := SplitLines(Formatted(source));
      && Leading(lines[n]) - Leading(lines[m]) ==
         4 * (Opens(lines[m]) - Closes(lines[m]) + Closing(lines[m]) - Closing(lines[n]))
      && (lines[0] != "" ==> Leading(lines[0]) == 0)
  {
    hide Formatted, SplitLines, Opens, Closes;
    var lines := SplitLines(Formatted(source));
    LinesAreIndented(source, m);
    LinesAreIndented(source, n);
    LinesAreIndented(source, 0);
    NetBetween(lines, m, n);
  }

  /** Line `m` leaves one bracket more open than it found beside the one it starts by closing, and line `n` is within it. */
  ghost predicate Within(lines: seq<string>, m: nat, n: nat)
    requires m < n < |lines|
  {
    Net(lines[..m]) - Closing(lines[m]) + 1 <= Net(lines[..n]) - Closing(lines[n])
  }

  /**
   In a well-nested text a line that starts by closing the bracket that line `m` left open stands in
   the column of line `m`, and all lines within the bracket stand deeper.
   */
  lemma ClosingLineStandsWithItsOpener(source: string, m: nat, n: nat, k: nat)
    requires var lines := SplitLines(Formatted(source));
      && m < k < |lines| && m < n < |lines| && WellNested(lines)
      && lines[m] != "" && lines[n] != "" && lines[k] != ""
      && Opens(lines[m]) - Closes(lines[m]) + Closing(lines[m]) == 1
      && Closing(lines[n]) == 1 && Net(lines[..n]) == Net(lines[..m + 1]) && Within(lines, m, k)
    ensures var lines := SplitLines(Formatted(source));
      Leading(lines[n]) == Leading(lines[m]) && Leading(lines[m]) + 4 <= Leading(lines[k])
  {
    hide Formatted, SplitLines, Opens, Closes;
    var lines := SplitLines(Formatted(source));
    LinesAreIndented(source, m);
    LinesAreIndented(source, n);
    LinesAreIndented(source, k);
    NetSplit(lines[..m], [lines[m]]);
    assert lines[..m + 1] == lines[..m] + [lines[m]] && [lines[m]][1..] == [];
  }

  // ---- the formatter ----

  lemma KeepOne(trimmed: seq<string>, i: nat)
    requires i < |trimmed|
    ensures var before := Kept(trimmed[..i]);
      Kept(trimmed[..i + 1]) ==
        if trimmed[i] != "" then before + [trimmed[i]]
        else if before != [] && before[|before| - 1] != "" then before + [""]
        else before
  {
    assert trimmed[..i + 1][..i] == trimmed[..i];
  }

  lemma RenderOne(lines: seq<string>, line: string)
    ensures Render(lines + [line]) ==
      Render(lines) + (if line == "" then "" else Spaces(4 * IndentOf(Depth(lines), line)) + line) + "\n"
    ensures Depth(lines + [line]) == Depth(lines) + Opens(line) - Closes(line)
  {
    assert (lines + [line])[..|lines|] == lines;
  }

  lemma RenderNothing(lines: seq<string>)
    ensures Render(lines) == "" <==> lines == []
  {
  }

  lemma {:induction false} LastKept(trimmed: seq<string>)
    ensures Kept(trimmed) != [] ==>
      (Kept(trimmed)[|Kept(trimmed)| - 1] == "" <==> trimmed != [] && trimmed[|trimmed| - 1] == "")
  {
    if trimmed != [] {
      LastKept(trimmed[..|trimmed| - 1]);
    }
  }

  /** The text of a line with its indentation, and the newline. */
  method PushLine(output: string, indent: int, trimmed: string) returns (output': string)
    requires trimmed != ""
    ensures output' == output + (Spaces(4 * IndentOf(indent, trimmed)) + trimmed) + "\n"
  {
    var thisIndent := if trimmed[0] == '}' || trimmed[0] == ')' then Max(indent - 1, 0) else Max(indent, 0);
    output' := output;
    for k := 0 to thisIndent
      invariant output' == output + Spaces(4 * k)
    {
      assert Spaces(4 * (k + 1)) == Spaces(4 * k) + "    ";
      output' := output' + "    ";
    }
    output' := output' + trimmed + "\n";
    assert output' == output + (Spaces(4 * thisIndent) + trimmed) + "\n";
  }

  /** The final clean-up of the line loop's output. */
  method EndOnce(output: string, ghost kept: seq<string>) returns (output': string)
    requires output == Render(kept) && Clean(kept) && Collapsed(kept)
    ensures var es := if kept != [] && kept[|kept| - 1] == "" then kept[..|kept| - 1] else kept;
      output' == if es == [] then "\n" else Render(es)
  {
    hide Indented;
    output' := output;
    ghost var es := if kept != [] && kept[|kept| - 1] == "" then kept[..|kept| - 1] else kept;
    if kept != es {
      assert kept == es + [""];
      RenderOne(es, "");
      assert Render(es) + "" + "\n" == Render(es) + "\n";
      assert es != [] && es[|es| - 1] != "";
    }
    if es != [] {
      RenderEndsOnce(es);
    }
    while |output'| >= 2 && output'[|output'| - 1] == NEWLINE && output'[|output'| - 2] == NEWLINE
      invariant output' == Render(es) || (es != [] && output' == Render(es) + "\n")
      decreases |output'|
    {
      output' := output'[..|output'| - 1];
    }
    if output' == "" || output'[|output'| - 1] != NEWLINE {
      output' := output' + "\n";
    }
  }

  /** What the line loop has done with the first `i` lines. */
  ghost predicate Upto(trims: seq<string>, i: nat, output: string, indent: int, prevBlank: bool)
    requires i <= |trims|
  {
    && output == Render(Kept(trims[..i])) && indent == Depth(Kept(trims[..i]))
    && prevBlank == (i > 0 && trims[i - 1] == "")
  }

  method FormatLine(output: string, indent: int, prevBlank: bool, trimmed: string, ghost trims: seq<string>, ghost i: nat)
    returns (output': string, indent': int, prevBlank': bool)
    requires i < |trims| && trimmed == trims[i] && Upto(trims, i, output, indent, prevBlank)
    ensures Upto(trims, i + 1, output', indent', prevBlank')
  {
    hide Kept, Render, Depth, Opens, Closes, IndentOf;
    ghost var kept := Kept(trims[..i]);
    output', indent' := output, indent;
    KeepOne(trims, i);
    LastKept(trims[..i]);
    RenderNothing(kept);
    RenderOne(kept, trimmed);
    prevBlank' := trimmed == "";
    if trimmed == "" {
      if !prevBlank && output != "" {
        assert output + "" + "\n" == output + "\n";
        output' := output + "\n";
        BlankHasNoDelimiters();
      }
    } else {
      var opens, closes := CountDelimiters(trimmed);
      output' := PushLine(output, indent, trimmed);
      indent' := indent + opens - closes;
    }
  }

  /** `format_source`. */
  method FormatSource(source: string) returns (output: string)
    ensures output == Formatted(source)
  {
    hide Kept, Render, Depth, SplitLines, Clean, Collapsed;
    var lines := SplitLines(source);
    ghost var trims := Trims(lines);
    output := "";
    var indent: int, prevBlank := 0, false;
    StartsEmpty(trims);
    for i := 0 to |lines|
      invariant Upto(trims, i, output, indent, prevBlank)
    {
      output, indent, prevBlank := FormatLine(output, indent, prevBlank, Trim(lines[i]), trims, i);
    }
    assert trims[..|lines|] == trims;
    TrimsAreClean(source);
    KeptIsCollapsed(trims);
    output := EndOnce(output, Kept(trims));
  }

  lemma StartsEmpty(trims: seq<string>)
    ensures Kept(trims[..0]) == [] && Render([]) == "" && Depth([]) == 0
  {
  }

  lemma BlankHasNoDelimiters()
    ensures Opens("") == 0 && Closes("") == 0
  {
  }
}
