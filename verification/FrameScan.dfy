/**
 The second reader of frame files: the offline scan that finds each frame's byte range and row
 count, and the choice of a byte prefix with a wanted number of rows. The scan is written
 independently of the streaming reader and is laxer about the length prefix; the lemmas say
 exactly where the two agree.
 */
module FrameScan {
  import opened Wrappers
  import opened FrameCodec
  import SourceFormat

  /** How many rows a payload decodes to, or `None` where decoding fails, as it does for no bytes at all. */
  type RowCounter = Bytes -> Option<nat>

  datatype FrameInfo = FrameInfo(offset: nat, len: nat, rows: nat)

  // ---- the length prefix, as `str::trim` and `parse::<usize>` take it ----

  /** The length in bytes of the whitespace character that `b` starts with, or 0. */
  function SpaceAhead(b: Bytes): (n: nat)
    ensures n <= |b|
  {
    if |b| >= 1 && (9 <= b[0] <= 13 || b[0] == SPACE) then 1
    else if |b| >= 2 && b[0] == 0xC2 && b[1] in {0x85, 0xA0} then 2
    else if |b| >= 3 && b[0] == 0xE1 && b[1] == 0x9A && b[2] == 0x80 then 3
    else if |b| >= 3 && b[0] == 0xE2 && b[1] == 0x80
            && (0x80 <= b[2] <= 0x8A || b[2] in {0xA8, 0xA9, 0xAF}) then 3
    else if |b| >= 3 && b[0] == 0xE2 && b[1] == 0x81 && b[2] == 0x9F then 3
    else if |b| >= 3 && b[0] == 0xE3 && b[1] == 0x80 && b[2] == 0x80 then 3
    else 0
  }

  /** The same for the character that `b` ends with. */
  function SpaceBehind(b: Bytes): (n: nat)
    ensures n <= |b|
  {
    if |b| >= 1 && SpaceAhead(b[|b| - 1..]) == 1 then 1
    else if |b| >= 2 && SpaceAhead(b[|b| - 2..]) == 2 then 2
    else if |b| >= 3 && SpaceAhead(b[|b| - 3..]) == 3 then 3
    else 0
  }

  /** The bytes start with the form of a white-space character, or there is nothing to take off. */
  lemma SpaceAheadExactly(b: Bytes, c: char)
    requires SourceFormat.IsSpace(c)
    ensures CharBytes(c) <= b <==> SpaceAhead(b) == |CharBytes(c)| && CharBytes(c) == b[..SpaceAhead(b)]
  {
  }

  lemma SpaceAheadIsOne(b: Bytes) returns (c: char)
    requires SpaceAhead(b) > 0
    ensures SourceFormat.IsSpace(c) && CharBytes(c) == b[..SpaceAhead(b)]
  {
    var n := SpaceAhead(b);
    var first: int, second: int, third: int :=
      b[0], if n >= 2 then b[1] - 0x80 else 0, if n == 3 then b[2] - 0x80 else 0;
    var code := if n == 1 then first
                else if n == 2 then (first - 0xC0) * 0x40 + second
                else (first - 0xE0) * 0x1000 + second * 0x40 + third;
    c := code as char;
  }

  lemma SpaceInTheEnd(b: Bytes, c: char)
    requires SourceFormat.IsSpace(c) && |CharBytes(c)| <= |b| && b[|b| - |CharBytes(c)|..] == CharBytes(c)
    ensures SpaceBehind(b) == |CharBytes(c)|
  {
    var n := |CharBytes(c)|;
    var end := b[|b| - n..];
    SpaceAheadExactly(end, c);
    assert SpaceAhead(end) == n;
    assert b[|b| - 1..] == end[n - 1..];
    if n >= 2 {
      assert end[n - 1..][0] == CharBytes(c)[n - 1] >= 0x80;
    }
    if n == 3 {
      assert b[|b| - 2..] == end[1..] && end[1..][0] == CharBytes(c)[1] < 0xC0;
    }
  }

  /** The same at the end. */
  lemma SpaceBehindExactly(b: Bytes, c: char)
    requires SourceFormat.IsSpace(c)
    ensures |CharBytes(c)| <= |b| && b[|b| - |CharBytes(c)|..] == CharBytes(c) <==>
            SpaceBehind(b) == |CharBytes(c)| && b[|b| - SpaceBehind(b)..] == CharBytes(c)
  {
    if |CharBytes(c)| <= |b| && b[|b| - |CharBytes(c)|..] == CharBytes(c) {
      SpaceInTheEnd(b, c);
    }
  }

  lemma SpaceBehindIsOne(b: Bytes) returns (c: char)
    requires SpaceBehind(b) > 0
    ensures SourceFormat.IsSpace(c) && CharBytes(c) == b[|b| - SpaceBehind(b)..]
  {
    c := SpaceAheadIsOne(b[|b| - SpaceBehind(b)..]);
  }

  function TrimStart(b: Bytes): Bytes {
    if SpaceAhead(b) == 0 then b else TrimStart(b[SpaceAhead(b)..])
  }

  function TrimEnd(b: Bytes): Bytes {
    if SpaceBehind(b) == 0 then b else TrimEnd(b[..|b| - SpaceBehind(b)])
  }

  /**
   The number a prefix stands for. What is left after trimming must be digits, after an optional
   plus sign, so a prefix that is not UTF-8 is refused here too.
   */
  function ParseLen(b: Bytes): Option<nat> {
    var t := TrimEnd(TrimStart(b));
    var ds := if t != [] && t[0] == PLUS then t[1..] else t;
    if ds != [] && AllDigits(ds) && Value(ds) <= USIZE_MAX then Some(Value(ds)) else None
  }

  // ---- the scan ----

  /** How much `read_until` a space takes: up to and with the space, or all there is. */
  function UpToSpace(b: Bytes): (n: nat)
    ensures n <= |b| && (b != [] ==> 0 < n)
    ensures forall i :: 0 <= i < n - 1 ==> b[i] != SPACE
    ensures n < |b| ==> b[n - 1] == SPACE
  {
    if b == [] then 0 else if b[0] == SPACE then 1 else 1 + UpToSpace(b[1..])
  }

  /** A frame as scanned: the bytes taken for its prefix, its payload and its row count. */
  datatype Piece = Piece(prefix: Bytes, payload: Bytes, rows: nat)

  function Size(p: Piece): nat {
    |p.prefix| + |p.payload|
  }

  function ScanOne(b: Bytes, rowsOf: RowCounter): (r: Option<Piece>)
    requires b != []
    ensures r.Some? ==> 0 < Size(r.value) <= |b| && b[..Size(r.value)] == r.value.prefix + r.value.payload
  {
    var n := UpToSpace(b);
    match ParseLen(b[..n - 1])
    case None => None
    case Some(len) =>
      if |b| < n + len then None
      else
        var payload := b[n..n + len];
        match rowsOf(payload)
        case None => None
        case Some(rows) =>
          assert b[..n + len] == b[..n] + payload;
          Some(Piece(b[..n], payload, rows))
  }

  function ScanAll(b: Bytes, rowsOf: RowCounter): Option<seq<Piece>> {
    if b == [] then Some([])
    else
      match ScanOne(b, rowsOf)
      case None => None
      case Some(p) =>
        match ScanAll(b[Size(p)..], rowsOf)
        case None => None
        case Some(rest) => Some([p] + rest)
  }

  /** The byte ranges of pieces that follow each other from `offset` on. */
  function Infos(pieces: seq<Piece>, offset: nat): seq<FrameInfo> {
    if pieces == [] then []
    else [FrameInfo(offset, Size(pieces[0]), pieces[0].rows)] + Infos(pieces[1..], offset + Size(pieces[0]))
  }

  method ReadUntilSpace(b: Bytes) returns (buf: Bytes)
    ensures buf == b[..UpToSpace(b)]
  {
    var n := 0;
    while n < |b|
      invariant n <= |b| && UpToSpace(b) == n + UpToSpace(b[n..])
    {
      n := n + 1;
      if b[n - 1] == SPACE {
        break;
      }
      assert b[n - 1..][1..] == b[n..];
    }
    assert b[|b|..] == [];
    return b[..n];
  }

  /** One round of `scan_frames`. */
  method ScanFrame(b: Bytes, rowsOf: RowCounter) returns (r: Option<Piece>)
    requires b != []
    ensures r == ScanOne(b, rowsOf)
  {
    hide ParseLen;
    var buf := ReadUntilSpace(b);
    assert buf[..|buf| - 1] == b[..|buf| - 1];
    var len := ParseLen(buf[..|buf| - 1]);
    if len == None || |b| < |buf| + len.value {
      return None;
    }
    var payload := b[|buf|..|buf| + len.value];
    var rows := rowsOf(payload);
    return if rows.Some? then Some(Piece(buf, payload, rows.value)) else None;
  }

  /** What remains to be found at `offset`, or `None` if an error lies ahead. */
  ghost function Ahead(file: Bytes, offset: nat, rowsOf: RowCounter): Option<seq<FrameInfo>>
    requires offset <= |file|
  {
    match ScanAll(file[offset..], rowsOf)
    case None => None
    case Some(pieces) => Some(Infos(pieces, offset))
  }

  lemma AheadStep(file: Bytes, offset: nat, rowsOf: RowCounter)
    requires offset < |file|
    ensures match ScanOne(file[offset..], rowsOf)
      case None => Ahead(file, offset, rowsOf) == None
      case Some(p) =>
        var rest := Ahead(file, offset + Size(p), rowsOf);
        Ahead(file, offset, rowsOf) ==
          if rest.Some? then Some([FrameInfo(offset, Size(p), p.rows)] + rest.value) else None
  {
    hide ScanOne;
    var b := file[offset..];
    match ScanOne(b, rowsOf)
    case None =>
    case Some(p) =>
      assert b[Size(p)..] == file[offset + Size(p)..];
      match ScanAll(b[Size(p)..], rowsOf)
      case None =>
      case Some(rest) => assert ([p] + rest)[1..] == rest;
  }

  /** `scan_frames`. */
  method ScanFrames(file: Bytes, rowsOf: RowCounter) returns (r: Option<seq<FrameInfo>>)
    ensures r.Some? <==> ScanAll(file, rowsOf).Some?
    ensures r.Some? ==> r.value == Infos(ScanAll(file, rowsOf).value, 0)
  {
    hide ScanOne;
    var frames: seq<FrameInfo> := [];
    var offset := 0;
    ghost var all := Ahead(file, 0, rowsOf);
    assert file[0..] == file;
    while offset < |file|
      invariant offset <= |file|
      invariant all.Some? <==> Ahead(file, offset, rowsOf).Some?
      invariant all.Some? ==> frames + Ahead(file, offset, rowsOf).value == all.value
      decreases |file| - offset
    {
      AheadStep(file, offset, rowsOf);
      var piece := ScanFrame(file[offset..], rowsOf);
      if piece == None {
        return None;
      }
      frames := frames + [FrameInfo(offset, Size(piece.value), piece.value.rows)];
      offset := offset + Size(piece.value);
    }
    assert file[offset..] == [];
    return Some(frames);
  }

  // ---- what the scan finds ----

  function Concat(pieces: seq<Piece>): Bytes {
    if pieces == [] then [] else pieces[0].prefix + pieces[0].payload + Concat(pieces[1..])
  }

  /** The frames found follow each other without gaps and cover the whole file. */
  lemma {:induction false} ScanCovers(b: Bytes, rowsOf: RowCounter)
    requires ScanAll(b, rowsOf).Some?
    ensures Concat(ScanAll(b, rowsOf).value) == b
  {
    hide ScanOne;
    if b != [] {
      var p := ScanOne(b, rowsOf).value;
      var rest := ScanAll(b[Size(p)..], rowsOf).value;
      ScanCovers(b[Size(p)..], rowsOf);
      assert ([p] + rest)[1..] == rest;
      assert b == b[..Size(p)] + b[Size(p)..];
    }
  }

  /** One to sixteen digits and a space: what the streaming reader takes for a prefix. */
  predicate Plain(prefix: Bytes) {
    var k := |prefix| - 1;
    1 <= k <= MAX_PREFIX_DIGITS && AllDigits(prefix[..k]) && prefix[k] == SPACE
  }

  lemma UnsignedDigits(ds: Bytes)
    requires ds != [] && AllDigits(ds) && Value(ds) <= USIZE_MAX
    ensures ParseLen(ds) == Some(Value(ds))
  {
    hide TrimStart, TrimEnd, Value;
    NotTrimmed(ds);
    assert IsDigit(ds[0]);
  }

  lemma DigitsAreNotTrimmed(ds: Bytes)
    requires ds != [] && AllDigits(ds) && |ds| <= MAX_PREFIX_DIGITS
    ensures ParseLen(ds) == Some(Value(ds))
  {
    hide ParseLen, Value, Pow10, AllDigits;
    ValueBelow(ds);
    PowMonotone(|ds|, MAX_PREFIX_DIGITS);
    SixteenDigitsFit();
    UnsignedDigits(ds);
  }

  lemma NotTrimmed(ds: Bytes)
    requires ds != [] && AllDigits(ds)
    ensures TrimEnd(TrimStart(ds)) == ds
  {
    assert SpaceAhead(ds) == 0;
    assert SpaceBehind(ds) == 0;
  }

  lemma SixteenDigitsFit()
    ensures Pow10(MAX_PREFIX_DIGITS) <= USIZE_MAX
  {
    assert Pow10(4) == 10_000 && Pow10(8) == 10_000 * Pow10(4);
    assert Pow10(12) == 10_000 * Pow10(8) && Pow10(16) == 10_000 * Pow10(12);
  }

  lemma {:induction false} PowMonotone(i: nat, j: nat)
    requires i <= j
    ensures Pow10(i) <= Pow10(j)
    decreases j
  {
    if i < j {
      PowMonotone(i, j - 1);
    }
  }

  /** On a frame with a plain prefix the two readers see the same payload; on any other prefix the streaming one stops. */
  lemma ReadersOnOneFrame(b: Bytes, rowsOf: RowCounter)
    requires b != [] && ScanOne(b, rowsOf).Some?
    ensures var p := ScanOne(b, rowsOf).value;
      ParseFrame(b) == if Plain(p.prefix) then Frame(p.payload, Size(p)) else Bad
  {
    hide ParseLen;
    var p, n := ScanOne(b, rowsOf).value, UpToSpace(b);
    var k := n - 1;
    if Plain(p.prefix) {
      assert b[..n][..k] == b[..k] && b[..n][k] == b[k];
      RunIs(b, k);
      DigitsAreNotTrimmed(b[..k]);
    } else {
      NotPlainIsBad(b);
    }
  }

  lemma NotPlainIsBad(b: Bytes)
    requires b != [] && !Plain(b[..UpToSpace(b)])
    ensures ParseFrame(b) == Bad
  {
    var run := DigitRun(b);
    if run < |b| && b[run] == SPACE {
      SpaceAfterDigits(b);
      assert b[..run + 1][..run] == b[..run];
    }
  }

  lemma SpaceAfterDigits(b: Bytes)
    requires DigitRun(b) < |b| && b[DigitRun(b)] == SPACE
    ensures UpToSpace(b) == DigitRun(b) + 1
  {
    var run, n := DigitRun(b), UpToSpace(b);
    assert forall i :: 0 <= i < run ==> b[..run][i] == b[i];
  }

  function Payloads(pieces: seq<Piece>): (r: seq<Bytes>)
    ensures |r| == |pieces| && forall i :: 0 <= i < |r| ==> r[i] == pieces[i].payload
  {
    if pieces == [] then [] else [pieces[0].payload] + Payloads(pieces[1..])
  }

  predicate AllPlain(pieces: seq<Piece>) {
    forall p | p in pieces :: Plain(p.prefix)
  }

  /**
   Of a file the scan accepts, the streaming reader accepts exactly those with plain prefixes
   throughout, and then the payloads are the same.
   */
  lemma {:induction false} ScannedFilesReadBack(b: Bytes, rowsOf: RowCounter)
    requires ScanAll(b, rowsOf).Some?
    ensures var pieces := ScanAll(b, rowsOf).value;
      ReadAll(b) == if AllPlain(pieces) then Some(Payloads(pieces)) else None
  {
    if b != [] {
      var p := ScanOne(b, rowsOf).value;
      var after := b[Size(p)..];
      var rest := ScanAll(after, rowsOf).value;
      ReadersOnOneFrame(b, rowsOf);
      ScannedFilesReadBack(after, rowsOf);
      assert ([p] + rest)[1..] == rest;
      assert AllPlain([p] + rest) <==> Plain(p.prefix) && AllPlain(rest) by {
        assert forall q :: q in [p] + rest <==> q == p || q in rest;
      }
    }
  }

  lemma ReadableFrameIsScanned(b: Bytes, rowsOf: RowCounter)
    requires ParseFrame(b).Frame? && rowsOf(ParseFrame(b).payload).Some?
    ensures b != [] && ScanOne(b, rowsOf).Some?
  {
    hide ParseLen;
    var k := DigitRun(b);
    SpaceAfterDigits(b);
    DigitsAreNotTrimmed(b[..k]);
  }

  /** And a file the streaming reader accepts is accepted by the scan, once its payloads decode. */
  lemma {:induction false} ReadableFilesAreScanned(b: Bytes, rowsOf: RowCounter)
    requires ReadAll(b).Some? && forall p | p in ReadAll(b).value :: rowsOf(p).Some?
    ensures ScanAll(b, rowsOf).Some?
  {
    if b != [] {
      var frame := ParseFrame(b);
      var rest := ReadAll(b[frame.used..]).value;
      assert ReadAll(b).value == [frame.payload] + rest;
      assert frame.payload in ReadAll(b).value;
      ReadableFrameIsScanned(b, rowsOf);
      ReadersOnOneFrame(b, rowsOf);
      assert forall p | p in rest :: p in ReadAll(b).value;
      ReadableFilesAreScanned(b[frame.used..], rowsOf);
    }
  }

  /** What `write_frame` produced, the scan splits at the frames that were written. */
  lemma WrittenFilesAreScanned(payloads: seq<Bytes>, rowsOf: RowCounter)
    requires forall p | p in payloads :: Readable(p) && rowsOf(p).Some?
    ensures ScanAll(EncodeAll(payloads), rowsOf).Some?
    ensures Payloads(ScanAll(EncodeAll(payloads), rowsOf).value) == payloads
  {
    hide ReadAll, ScanAll;
    RoundTrip(payloads);
    ReadableFilesAreScanned(EncodeAll(payloads), rowsOf);
    ScannedFilesReadBack(EncodeAll(payloads), rowsOf);
  }

  lemma SignedNotTrimmed(ds: Bytes)
    requires ds != [] && AllDigits(ds)
    ensures TrimEnd(TrimStart([PLUS] + ds)) == [PLUS] + ds
  {
    var t: Bytes := [PLUS] + ds;
    assert IsDigit(ds[|ds| - 1]) && t[|t| - 1] == ds[|ds| - 1];
    assert t[|t| - 2] == PLUS || IsDigit(t[|t| - 2]);
    assert |t| >= 3 ==> t[|t| - 3] == PLUS || IsDigit(t[|t| - 3]);
    assert SpaceAhead(t) == 0;
    assert SpaceBehind(t) == 0;
  }

  lemma SignedDigits(ds: Bytes)
    requires ds != [] && AllDigits(ds) && Value(ds) <= USIZE_MAX
    ensures ParseLen([PLUS] + ds) == Some(Value(ds))
  {
    hide TrimStart, TrimEnd, Value, AllDigits;
    SignedNotTrimmed(ds);
    assert ([PLUS] + ds)[1..] == ds;
  }

  lemma SignedLength(payload: Bytes)
    requires Readable(payload)
    ensures ParseLen([PLUS] + Digits(|payload|)) == Some(|payload|)
  {
    hide ParseLen, Digits, Value, AllDigits;
    ValueOfDigits(|payload|);
    SixteenDigitsFit();
    SignedDigits(Digits(|payload|));
  }

  /** Any prefix that ends in its only space and stands for the payload's length is scanned. */
  lemma ScannedAs(prefix: Bytes, payload: Bytes, rowsOf: RowCounter)
    requires prefix != [] && prefix[|prefix| - 1] == SPACE && forall i :: 0 <= i < |prefix| - 1 ==> prefix[i] != SPACE
    requires ParseLen(prefix[..|prefix| - 1]) == Some(|payload|) && rowsOf(payload).Some?
    ensures ScanOne(prefix + payload, rowsOf) == Some(Piece(prefix, payload, rowsOf(payload).value))
  {
    hide ParseLen;
    var b, n := prefix + payload, |prefix|;
    UpToSpaceIs(b, n - 1);
    assert b[..n - 1] == prefix[..n - 1] && b[..n] == prefix;
    assert b[n..n + |payload|] == payload;
  }

  lemma SignedFrame(payload: Bytes, rowsOf: RowCounter)
    requires Readable(payload) && rowsOf(payload).Some?
    ensures ScanOne([PLUS] + EncodeFrame(payload), rowsOf) ==
            Some(Piece([PLUS] + Digits(|payload|) + [SPACE], payload, rowsOf(payload).value))
  {
    var ds := Digits(|payload|);
    var prefix: Bytes := [PLUS] + ds + [SPACE];
    hide ParseLen, Digits, ScanOne, Pow10;
    SignedLength(payload);
    SignedPrefix(ds, payload);
    ScannedAs(prefix, payload, rowsOf);
  }

  lemma SignedPrefix(ds: Bytes, payload: Bytes)
    requires AllDigits(ds)
    ensures var prefix: Bytes := [PLUS] + ds + [SPACE];
      && prefix[..|prefix| - 1] == [PLUS] + ds
      && (forall i :: 0 <= i < |prefix| - 1 ==> prefix[i] != SPACE)
      && [PLUS] + (ds + [SPACE] + payload) == prefix + payload
  {
    var prefix: Bytes := [PLUS] + ds + [SPACE];
    forall i | 0 <= i < |prefix| - 1 ensures prefix[i] != SPACE {
      assert i > 0 ==> prefix[i] == ds[i - 1];
    }
  }

  /** The scan is laxer than the streaming reader: with a sign in front, a frame is scanned and not read. */
  lemma ScanTakesASign(payload: Bytes, rowsOf: RowCounter)
    requires Readable(payload) && rowsOf(payload).Some?
    ensures ScanAll(Ascii("+") + EncodeFrame(payload), rowsOf).Some?
    ensures Payloads(ScanAll(Ascii("+") + EncodeFrame(payload), rowsOf).value) == [payload]
    ensures ReadAll(Ascii("+") + EncodeFrame(payload)) == None
  {
    assert Ascii("+") == [PLUS];
    var file := [PLUS] + EncodeFrame(payload);
    SignedFrame(payload, rowsOf);
    var p := ScanOne(file, rowsOf).value;
    hide ScanOne, Digits;
    assert Size(p) == |file|;
    assert file[Size(p)..] == [];
    assert [p] + [] == [p] && [p][1..] == [];
    assert file[0] == PLUS && DigitRun(file) == 0;
  }

  lemma {:induction false} UpToSpaceIs(b: Bytes, k: nat)
    requires k < |b| && b[k] == SPACE && forall i :: 0 <= i < k ==> b[i] != SPACE
    ensures UpToSpace(b) == k + 1
  {
    if k > 0 {
      UpToSpaceIs(b[1..], k - 1);
    }
  }

  /** But a prefix without its space is scanned by neither: it would have to be a frame of no bytes. */
  lemma ScannedPrefixHasItsSpace(b: Bytes, rowsOf: RowCounter)
    requires b != [] && ScanOne(b, rowsOf).Some? && rowsOf([]) == None
    ensures var prefix := ScanOne(b, rowsOf).value.prefix; prefix != [] && prefix[|prefix| - 1] == SPACE
  {
    hide ParseLen;
    assert b[|b|..|b|] == [];
  }

  // ---- files that end inside a frame ----

  lemma {:induction false} LeadingDigit(n: nat)
    ensures Digits(n)[0] == ZERO <==> n == 0
  {
    if n >= 10 {
      LeadingDigit(n / 10);
    }
  }

  lemma {:induction false} ValueAtLeastFirst(ds: Bytes)
    requires AllDigits(ds) && ds != [] && ds[0] != ZERO
    ensures 1 <= Value(ds)
  {
    if |ds| > 1 {
      ValueAtLeastFirst(ds[..|ds| - 1]);
    }
  }

  /** What the scan makes of a prefix of plain digits. */
  lemma PlainLength(b: Bytes, k: nat)
    requires 1 <= k <= MAX_PREFIX_DIGITS && k <= |b| && AllDigits(b[..k])
    ensures ParseLen(b[..k]) == Some(Value(b[..k]))
  {
    DigitsAreNotTrimmed(b[..k]);
  }

  lemma NoNumber()
    ensures ParseLen([]) == None
  {
  }

  /** A frame cut inside its prefix: what is left asks for bytes that are not there, or is no number. */
  lemma CutPrefixNotScanned(payload: Bytes, k: nat, rowsOf: RowCounter)
    requires Readable(payload) && 0 < k <= |Digits(|payload|)|
    ensures ScanOne(EncodeFrame(payload)[..k], rowsOf) == None
  {
    var ds := Digits(|payload|);
    var b := EncodeFrame(payload)[..k];
    assert b == ds[..k];
    DigitCount(|payload|, MAX_PREFIX_DIGITS);
    assert forall i :: 0 <= i < k ==> b[i] != SPACE;
    NoSpaceTakesAll(b);
    if k == 1 {
      assert b[..0] == [];
      NoNumber();
    } else {
      LeadingDigit(|payload|);
      assert |payload| >= 10;
      assert b[..k - 1] == ds[..k - 1];
      assert ds[..k - 1][0] == ds[0];
      PlainLength(b, k - 1);
      ValueAtLeastFirst(b[..k - 1]);
    }
  }

  lemma {:induction false} NoSpaceTakesAll(b: Bytes)
    requires forall i :: 0 <= i < |b| ==> b[i] != SPACE
    ensures UpToSpace(b) == |b|
  {
    if b != [] {
      NoSpaceTakesAll(b[1..]);
    }
  }

  /** The scan refuses a frame that is cut short anywhere, as the streaming reader does. */
  lemma CutFrameNotScanned(payload: Bytes, k: nat, rowsOf: RowCounter)
    requires Readable(payload) && 0 < k < |EncodeFrame(payload)|
    ensures ScanOne(EncodeFrame(payload)[..k], rowsOf) == None
  {
    var ds := Digits(|payload|);
    if k <= |ds| {
      CutPrefixNotScanned(payload, k, rowsOf);
    } else {
      var b := EncodeFrame(payload)[..k];
      FrameLength(payload, b);
    }
  }

  lemma FrameLength(payload: Bytes, b: Bytes)
    requires Readable(payload) && Digits(|payload|) + [SPACE] <= b
    ensures UpToSpace(b) == |Digits(|payload|)| + 1
    ensures ParseLen(b[..|Digits(|payload|)|]) == Some(|payload|)
  {
    var ds := Digits(|payload|);
    var k := |ds|;
    assert b[..k] == ds && b[k] == SPACE;
    assert forall i :: 0 <= i < k ==> b[i] == ds[i];
    UpToSpaceIs(b, k);
    DigitCount(|payload|, MAX_PREFIX_DIGITS);
    PlainLength(b, k);
    ValueOfDigits(|payload|);
  }

  /** A whole frame in front is scanned as that frame, or not at all. */
  lemma WholeFrameFirst(payload: Bytes, rest: Bytes, rowsOf: RowCounter)
    requires Readable(payload)
    ensures var r := ScanOne(EncodeFrame(payload) + rest, rowsOf); r.Some? ==> Size(r.value) == |EncodeFrame(payload)|
  {
    hide ParseLen;
    FrameLength(payload, EncodeFrame(payload) + rest);
  }

  /** So a file that ends inside a frame is refused as a whole by the scan, too. */
  lemma {:induction false} CutFileIsNotScanned(payloads: seq<Bytes>, last: Bytes, k: nat, rowsOf: RowCounter)
    requires (forall p | p in payloads :: Readable(p)) && Readable(last) && 0 < k < |EncodeFrame(last)|
    ensures ScanAll(EncodeAll(payloads) + EncodeFrame(last)[..k], rowsOf) == None
  {
    hide ScanOne, EncodeFrame;
    var cut := EncodeFrame(last)[..k];
    if payloads == [] {
      assert EncodeAll(payloads) + cut == cut;
      CutFrameNotScanned(last, k, rowsOf);
    } else {
      var first, others := EncodeFrame(payloads[0]), payloads[1..];
      EncodeFirst(payloads, cut);
      WholeFrameFirst(payloads[0], EncodeAll(others) + cut, rowsOf);
      assert (first + (EncodeAll(others) + cut))[|first|..] == EncodeAll(others) + cut;
      CutFileIsNotScanned(others, last, k, rowsOf);
    }
  }

  // ---- a prefix with a wanted number of rows ----

  function Rows(frames: seq<FrameInfo>): nat {
    if frames == [] then 0 else Rows(frames[..|frames| - 1]) + frames[|frames| - 1].rows
  }

  /** Where the first `k` frames end. */
  function EndOf(frames: seq<FrameInfo>, k: nat): nat
    requires k <= |frames|
  {
    if k == 0 then 0 else frames[k - 1].offset + frames[k - 1].len
  }

  /** The first `k` frames are the shortest non-empty prefix with at least `wanted` rows, or all of them if none has. */
  ghost predicate Shortest(frames: seq<FrameInfo>, wanted: nat, k: nat) {
    && k <= |frames| && (frames != [] ==> 1 <= k)
    && (Rows(frames[..k]) >= wanted || k == |frames|)
    && forall j :: 1 <= j < k ==> Rows(frames[..j]) < wanted
  }

  /** `prefix_range_for_n`. */
  method PrefixRangeForN(frames: seq<FrameInfo>, wanted: nat) returns (end: nat, rows: nat)
    ensures exists k: nat :: Shortest(frames, wanted, k) && end == EndOf(frames, k) && rows == Rows(frames[..k])
  {
    rows, end := 0, 0;
    ghost var k: nat := 0;
    for i := 0 to |frames|
      invariant k == i && rows == Rows(frames[..i]) && end == EndOf(frames, i)
      invariant forall j :: 1 <= j <= i ==> Rows(frames[..j]) < wanted
    {
      assert frames[..i + 1][..i] == frames[..i];
      var next := rows + frames[i].rows;
      k := i + 1;
      if next >= wanted {
        end := frames[i].offset + frames[i].len;
        rows := next;
        break;
      }
      rows := next;
      end := frames[i].offset + frames[i].len;
    }
    if rows < wanted && frames != [] {
      var last := frames[|frames| - 1];
      end := last.offset + last.len;
    }
    assert Shortest(frames, wanted, k);
  }

  /** On a scanned file, the bytes up to the end of the first `k` frames are exactly those frames. */
  lemma {:induction false} PrefixIsWholeFrames(pieces: seq<Piece>, offset: nat, k: nat)
    requires k <= |pieces|
    ensures |Infos(pieces, offset)| == |pieces|
    ensures 0 < k ==> EndOf(Infos(pieces, offset), k) == offset + |Concat(pieces[..k])|
    ensures |Concat(pieces[..k])| <= |Concat(pieces)| && Concat(pieces)[..|Concat(pieces[..k])|] == Concat(pieces[..k])
  {
    if pieces != [] {
      var first, rest := pieces[0], pieces[1..];
      var infos := Infos(rest, offset + Size(first));
      assert Infos(pieces, offset)[1..] == infos;
      if k == 0 {
        PrefixIsWholeFrames(rest, offset + Size(first), 0);
        assert pieces[..0] == [];
      } else {
        PrefixIsWholeFrames(rest, offset + Size(first), k - 1);
        assert pieces[..k] == [first] + rest[..k - 1];
        assert pieces[..k][1..] == rest[..k - 1];
        assert k == 1 ==> Concat(rest[..0]) == [];
      }
    }
  }
}
