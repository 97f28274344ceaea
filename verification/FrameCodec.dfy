/**
 The frame file format: each frame is its payload's length in ASCII decimal, a space and the
 payload (octet counting, section 3.4.1 of RFC 6587), with the writer and the two readers.
 */
module FrameCodec {
  import opened Wrappers

  type Byte = b: int | 0 <= b < 256
  type Bytes = seq<Byte>

  const SPACE: Byte := 32
  const ZERO: Byte := 48
  const NINE: Byte := 57
  const PLUS: Byte := 43
  const MAX_PREFIX_DIGITS: nat := 16
  const USIZE_MAX: nat := 0xFFFF_FFFF_FFFF_FFFF

  predicate IsDigit(b: Byte) {
    ZERO <= b <= NINE
  }

  predicate AllDigits(ds: Bytes) {
    forall i :: 0 <= i < |ds| ==> IsDigit(ds[i])
  }

  function Digits(n: nat): (ds: Bytes)
    ensures 1 <= |ds| && AllDigits(ds)
  {
    if n < 10 then [ZERO + n] else Digits(n / 10) + [ZERO + n % 10]
  }

  function Value(ds: Bytes): nat
    requires AllDigits(ds)
  {
    if ds == [] then 0 else 10 * Value(ds[..|ds| - 1]) + (ds[|ds| - 1] - ZERO)
  }

  function Pow10(k: nat): nat {
    if k == 0 then 1 else 10 * Pow10(k - 1)
  }

  lemma {:induction false} ValueOfDigits(n: nat)
    ensures Value(Digits(n)) == n
  {
    if n >= 10 {
      ValueOfDigits(n / 10);
      assert Digits(n)[..|Digits(n)| - 1] == Digits(n / 10);
    }
  }

  lemma {:induction false} DigitCount(n: nat, k: nat)
    requires 1 <= k
    ensures |Digits(n)| <= k <==> n < Pow10(k)
    decreases k
  {
    if n < 10 {
      PowAtLeast(k);
    } else if k > 1 {
      DigitCount(n / 10, k - 1);
    }
  }

  lemma {:induction false} PowAtLeast(k: nat)
    requires 1 <= k
    ensures 10 <= Pow10(k)
  {
    if k > 1 {
      PowAtLeast(k - 1);
    }
  }

  lemma {:induction false} ValueBelow(ds: Bytes)
    requires AllDigits(ds)
    ensures Value(ds) < Pow10(|ds|)
  {
    if ds != [] {
      ValueBelow(ds[..|ds| - 1]);
    }
  }

  // ---- the writer ----

  /** `write_frame`: what it appends to the file. */
  function EncodeFrame(payload: Bytes): Bytes {
    Digits(|payload|) + [SPACE] + payload
  }

  function EncodeAll(payloads: seq<Bytes>): Bytes {
    if payloads == [] then [] else EncodeFrame(payloads[0]) + EncodeAll(payloads[1..])
  }

  /** The reader's limit on the length prefix. */
  predicate Readable(payload: Bytes) {
    |payload| < Pow10(MAX_PREFIX_DIGITS)
  }

  // ---- the streaming reader ----

  datatype Parsed = Frame(payload: Bytes, used: nat) | End | Bad

  function DigitRun(b: Bytes): (k: nat)
    ensures k <= |b| && AllDigits(b[..k]) && (k < |b| ==> !IsDigit(b[k]))
  {
    if b == [] || !IsDigit(b[0]) then 0
    else
      var k := DigitRun(b[1..]);
      assert b[..k + 1] == [b[0]] + b[1..][..k];
      k + 1
  }

  /** What the next frame of the remaining bytes is. */
  function ParseFrame(b: Bytes): (r: Parsed)
    ensures r.Frame? ==> 0 < r.used <= |b|
  {
    if b == [] then End
    else
      var k := DigitRun(b);
      if k == 0 || k > MAX_PREFIX_DIGITS || k == |b| || b[k] != SPACE then Bad
      else
        var len := Value(b[..k]);
        if |b| < k + 1 + len then Bad else Frame(b[k + 1..k + 1 + len], k + 1 + len)
  }

  /** Reading frames until the end of the file, or `None` at the first error. */
  function ReadAll(b: Bytes): Option<seq<Bytes>> {
    match ParseFrame(b)
    case End => Some([])
    case Bad => None
    case Frame(payload, used) =>
      match ReadAll(b[used..])
      case None => None
      case Some(rest) => Some([payload] + rest)
  }

  /** An open file being read from front to back. */
  class Reader {
    const data: Bytes
    var pos: nat

    ghost predicate Valid()
      reads this
    {
      pos <= |data|
    }

    ghost function Remaining(): Bytes
      requires Valid()
      reads this
    {
      data[pos..]
    }

    constructor (data: Bytes)
      ensures Valid() && this.data == data && Remaining() == data
    {
      this.data := data;
      pos := 0;
    }

    /** `read_exact`: all of `n` bytes or an unexpected end of file. */
    method ReadExact(n: nat) returns (r: Option<Bytes>)
      requires Valid()
      modifies this
      ensures Valid()
      ensures r.Some? <==> n <= |old(Remaining())|
      ensures r.Some? ==> r.value == old(Remaining())[..n] && Remaining() == old(Remaining())[n..]
      ensures r.None? ==> Remaining() == []
    {
      if |data| - pos < n {
        pos := |data|;
        return None;
      }
      r := Some(data[pos..pos + n]);
      pos := pos + n;
    }

    /** The loop of `read_frame`: digits up to a space, at most sixteen of them. */
    method ReadPrefix() returns (r: Prefix)
      requires Valid()
      modifies this
      ensures Valid()
      ensures r.NoMore? <==> old(Remaining()) == []
      ensures r.Len? <==> PrefixEnds(old(Remaining()))
      ensures r.Len? ==> r.digits == old(Remaining())[..DigitRun(old(Remaining()))]
      ensures r.Len? ==> Remaining() == old(Remaining())[DigitRun(old(Remaining())) + 1..]
    {
      ghost var b := Remaining();
      var lenBuf: Bytes := [];
      while true
        invariant Valid() && AllDigits(lenBuf) && |lenBuf| <= MAX_PREFIX_DIGITS
        invariant |lenBuf| <= |b| && lenBuf == b[..|lenBuf|] && Remaining() == b[|lenBuf|..]
        decreases |b| - |lenBuf|
      {
        var byte := ReadExact(1);
        if byte.None? {
          RunIs(b, |lenBuf|);
          return if lenBuf == [] then NoMore else BadPrefix;
        }
        var c := byte.value[0];
        assert c == b[|lenBuf|];
        if c == SPACE {
          RunIs(b, |lenBuf|);
          return Len(lenBuf);
        }
        if !IsDigit(c) {
          RunIs(b, |lenBuf|);
          return BadPrefix;
        }
        lenBuf := lenBuf + [c];
        if |lenBuf| > MAX_PREFIX_DIGITS {
          RunAtLeast(b, |lenBuf|);
          return BadPrefix;
        }
      }
    }

    /** `read_frame`. */
    method ReadFrame() returns (r: Parsed)
      requires Valid()
      modifies this
      ensures Valid()
      ensures r == ParseFrame(old(Remaining()))
      ensures r.Frame? ==> Remaining() == old(Remaining())[r.used..]
    {
      hide DigitRun, Value, AllDigits;
      ghost var b := Remaining();
      ghost var k := DigitRun(b);
      var prefix := ReadPrefix();
      match prefix
      case NoMore => return End;
      case BadPrefix => return Bad;
      case Len(digits) =>
        if digits == [] {
          return Bad;
        }
        var frameLen := Value(digits);
        assert |b[k + 1..]| == |b| - k - 1;
        var payload := ReadExact(frameLen);
        if payload.None? {
          return Bad;
        }
        assert b[k + 1..][..frameLen] == b[k + 1..k + 1 + frameLen];
        assert b[k + 1..][frameLen..] == b[k + 1 + frameLen..];
        return Frame(payload.value, |digits| + 1 + frameLen);
    }
  }

  datatype Prefix = NoMore | BadPrefix | Len(digits: Bytes)

  /** The leading digits are few enough and a space follows. */
  predicate PrefixEnds(b: Bytes) {
    var k := DigitRun(b);
    k <= MAX_PREFIX_DIGITS && k < |b| && b[k] == SPACE
  }

  lemma {:induction false} RunAtLeast(b: Bytes, k: nat)
    requires k <= |b| && AllDigits(b[..k])
    ensures k <= DigitRun(b)
  {
    if k > 0 {
      assert b[0] == b[..k][0];
      assert b[1..][..k - 1] == b[..k][1..];
      RunAtLeast(b[1..], k - 1);
    }
  }

  lemma {:induction false} RunAtMost(b: Bytes, k: nat)
    requires k < |b| && !IsDigit(b[k])
    ensures DigitRun(b) <= k
  {
    if k > 0 {
      RunAtMost(b[1..], k - 1);
    }
  }

  lemma RunIs(b: Bytes, k: nat)
    requires k <= |b| && AllDigits(b[..k]) && (k < |b| ==> !IsDigit(b[k]))
    ensures DigitRun(b) == k
  {
    RunAtLeast(b, k);
    if k < |b| {
      RunAtMost(b, k);
    }
  }

  // ---- text as bytes ----

  /** The UTF-8 form of a character (section 3 of RFC 3629). */
  function CharBytes(c: char): Bytes {
    var n := c as int;
    if n < 0x80 then [n]
    else if n < 0x800 then [0xC0 + n / 0x40, 0x80 + n % 0x40]
    else if n < 0x1_0000 then [0xE0 + n / 0x1000, 0x80 + n / 0x40 % 0x40, 0x80 + n % 0x40]
    else [0xF0 + n / 0x4_0000, 0x80 + n / 0x1000 % 0x40, 0x80 + n / 0x40 % 0x40, 0x80 + n % 0x40]
  }

  function Encoded(text: string): Bytes {
    if text == "" then [] else CharBytes(text[0]) + Encoded(text[1..])
  }

  // ---- the format, spelled out ----

  function Code(c: char): Byte
    requires c < '\U{80}'
  {
    c as int
  }

  function Ascii(text: string): Bytes
    requires forall i :: 0 <= i < |text| ==> text[i] < '\U{80}'
  {
    seq(|text|, i requires 0 <= i < |text| => Code(text[i]))
  }

  /** Frames as they stand in a file. */
  lemma FramesSpelledOut()
    ensures EncodeFrame([]) == Ascii("0 ")
    ensures EncodeFrame(Ascii("ten bytes!")) == Ascii("10 ten bytes!")
  {
    assert |Ascii("ten bytes!")| == 10;
    assert Digits(0) == [48] && Digits(1) == [49];
    assert Digits(10) == Digits(1) + [48];
    assert Ascii("0 ") == [48, 32];
    assert Ascii("10 ten bytes!") == [49, 48, 32] + Ascii("ten bytes!");
  }

  lemma AfterThePrefix(ds: Bytes, rest: Bytes)
    requires AllDigits(ds)
    ensures var b := ds + Ascii(" ") + rest;
      && |b| == |ds| + 1 + |rest| && b[..|ds|] == ds && b[|ds|] == SPACE && DigitRun(b) == |ds|
      && forall len :: 0 <= len <= |rest| ==> b[|ds| + 1..|ds| + 1 + len] == rest[..len]
  {
    hide DigitRun;
    var b := ds + Ascii(" ") + rest;
    assert Ascii(" ") == [SPACE];
    assert b[..|ds|] == ds && b[|ds|] == SPACE;
    RunIs(b, |ds|);
  }

  /** Digits and a space are a prefix exactly if there are at most sixteen digits, and a frame if its bytes follow. */
  lemma PrefixExactly(ds: Bytes, rest: Bytes)
    requires ds != [] && AllDigits(ds)
    ensures ParseFrame(ds + Ascii(" ") + rest) ==
      if |ds| <= 16 && Value(ds) <= |rest| then Frame(rest[..Value(ds)], |ds| + 1 + Value(ds)) else Bad
  {
    hide Value, DigitRun, AllDigits, Ascii;
    AfterThePrefix(ds, rest);
  }

  /** Nothing else that is not a digit ends a prefix. */
  lemma OnlyASpaceEndsAPrefix(ds: Bytes, c: Byte, rest: Bytes)
    requires AllDigits(ds) && !IsDigit(c) && (ds == [] || [c] != Ascii(" "))
    ensures ParseFrame(ds + [c] + rest) == Bad
  {
    hide Value, DigitRun;
    var b := ds + [c] + rest;
    assert b[..|ds|] == ds && b[|ds|] == c;
    RunIs(b, |ds|);
    assert Ascii(" ") == [32];
  }

  // ---- writing and reading back ----

  lemma FrameReadsBack(payload: Bytes, rest: Bytes)
    requires Readable(payload)
    ensures ParseFrame(EncodeFrame(payload) + rest) == Frame(payload, |EncodeFrame(payload)|)
  {
    hide Digits, Value, AllDigits, DigitRun;
    var ds := Digits(|payload|);
    var b := EncodeFrame(payload) + rest;
    var k := |ds|;
    DigitCount(|payload|, MAX_PREFIX_DIGITS);
    assert b[..k] == ds && b[k] == SPACE;
    RunIs(b, k);
    ValueOfDigits(|payload|);
    assert b[k + 1..k + 1 + |payload|] == payload;
  }

  function Then(first: seq<Bytes>, rest: Option<seq<Bytes>>): Option<seq<Bytes>> {
    if rest.Some? then Some(first + rest.value) else None
  }

  lemma ReadOneMore(payload: Bytes, after: Bytes)
    requires Readable(payload)
    ensures ReadAll(EncodeFrame(payload) + after) == Then([payload], ReadAll(after))
  {
    var frame := EncodeFrame(payload);
    FrameReadsBack(payload, after);
    assert (frame + after)[|frame|..] == after;
  }

  lemma ThenThen(first: seq<Bytes>, second: seq<Bytes>, rest: Option<seq<Bytes>>)
    ensures Then(first, Then(second, rest)) == Then(first + second, rest)
    ensures Then([], rest) == rest
  {
    if rest.Some? {
      assert first + (second + rest.value) == first + second + rest.value;
      assert [] + rest.value == rest.value;
    }
  }

  lemma EncodeFirst(payloads: seq<Bytes>, rest: Bytes)
    requires payloads != []
    ensures EncodeAll(payloads) + rest == EncodeFrame(payloads[0]) + (EncodeAll(payloads[1..]) + rest)
  {
  }

  /** Reading what was written, followed by anything, gives the payloads and then what follows. */
  lemma {:induction false} ReadAfterWrite(payloads: seq<Bytes>, rest: Bytes)
    requires forall p | p in payloads :: Readable(p)
    ensures ReadAll(EncodeAll(payloads) + rest) == Then(payloads, ReadAll(rest))
  {
    if payloads == [] {
      assert EncodeAll(payloads) + rest == rest;
      ThenThen([], [], ReadAll(rest));
    } else {
      var first, others := payloads[0], payloads[1..];
      EncodeFirst(payloads, rest);
      ReadOneMore(first, EncodeAll(others) + rest);
      ReadAfterWrite(others, rest);
      ThenThen([first], others, ReadAll(rest));
      assert [first] + others == payloads;
    }
  }

  lemma RoundTrip(payloads: seq<Bytes>)
    requires forall p | p in payloads :: Readable(p)
    ensures ReadAll(EncodeAll(payloads)) == Some(payloads)
  {
    ReadAfterWrite(payloads, []);
    assert EncodeAll(payloads) + [] == EncodeAll(payloads);
    assert payloads + [] == payloads;
  }

  /** A frame cut short is an error, never a clean end and never a shorter frame. */
  lemma CutFrameIsBad(payload: Bytes, k: nat)
    requires Readable(payload) && 0 < k < |EncodeFrame(payload)|
    ensures ParseFrame(EncodeFrame(payload)[..k]) == Bad
  {
    var ds := Digits(|payload|);
    var b := EncodeFrame(payload)[..k];
    if k <= |ds| {
      assert b == ds[..k];
      assert b[..k] == b;
      RunIs(b, k);
    } else {
      assert b[..|ds|] == ds && b[|ds|] == SPACE;
      RunIs(b, |ds|);
      ValueOfDigits(|payload|);
    }
  }

  /** So a file that ends inside a frame is refused as a whole. */
  lemma CutFileIsRefused(payloads: seq<Bytes>, last: Bytes, k: nat)
    requires (forall p | p in payloads :: Readable(p)) && Readable(last) && 0 < k < |EncodeFrame(last)|
    ensures ReadAll(EncodeAll(payloads) + EncodeFrame(last)[..k]) == None
  {
    CutFrameIsBad(last, k);
    ReadAfterWrite(payloads, EncodeFrame(last)[..k]);
  }
}
