/**
 `shard_frames`: read a frame file, split every listed frame by key, batch up the parts per
 shard and write them out under the stream's own tag.
 */
module ShardFrames {
  import opened Wrappers
  import opened FrameCodec
  import opened KeySharding

  // ---- payloads ----

  /** The Arrow library, as a pair of functions. */
  datatype Arrow = Arrow(encode: (Tag, Batch) -> Bytes, decode: Bytes -> Option<(Tag, Batch)>)

  /** Decoding undoes encoding, and the tag stands where `frame_tag` looks for it. */
  ghost predicate Lawful(arrow: Arrow) {
    && (forall tag, b :: IsTag(tag) && Regular(b) ==> arrow.decode(arrow.encode(tag, b)) == Some((tag, b)))
    && (forall p :: arrow.decode(p).Some? ==>
          FrameTag(p) == Some(arrow.decode(p).value.0) && Regular(arrow.decode(p).value.1))
  }

  const TAG_LIMIT: nat := 0x1_0000_0000

  /** How many bytes the character at the front of `b` takes in UTF-8, 0 if there is none: section 4 of RFC 3629. */
  function CharLength(b: Bytes): (n: nat)
    ensures n <= |b|
  {
    if |b| >= 1 && b[0] < 0x80 then 1
    else if |b| >= 2 && 0xC2 <= b[0] <= 0xDF && Follows(b[1]) then 2
    else if |b| >= 3 && 0xE0 <= b[0] <= 0xEF && Follows(b[1]) && Follows(b[2])
            && (b[0] == 0xE0 ==> 0xA0 <= b[1]) && (b[0] == 0xED ==> b[1] <= 0x9F) then 3
    else if |b| >= 4 && 0xF0 <= b[0] <= 0xF4 && Follows(b[1]) && Follows(b[2]) && Follows(b[3])
            && (b[0] == 0xF0 ==> 0x90 <= b[1]) && (b[0] == 0xF4 ==> b[1] <= 0x8F) then 4
    else 0
  }

  predicate Follows(c: Byte) {
    0x80 <= c <= 0xBF
  }

  predicate IsUtf8(b: Bytes) {
    b == [] || (CharLength(b) > 0 && IsUtf8(b[CharLength(b)..]))
  }

  lemma Quotient(n: int, q: int, r: int, m: int)
    requires 0 < m && 0 <= r < m && n == q * m + r
    ensures n / m == q && n % m == r
  {
    var x := n / m - q;
    assert x * m == r - n % m;
    assert x >= 1 ==> x * m >= m;
    assert x <= -1 ==> x * m <= -m;
  }

  lemma TwoBytes(b0: Byte, b1: Byte) returns (c: char)
    requires 0xC2 <= b0 <= 0xDF && Follows(b1)
    ensures CharBytes(c) == [b0, b1]
  {
    var n := (b0 as int - 0xC0) * 0x40 + (b1 as int - 0x80);
    Quotient(n, b0 as int - 0xC0, b1 as int - 0x80, 0x40);
    c := n as char;
  }

  lemma ThreeBytes(b0: Byte, b1: Byte, b2: Byte) returns (c: char)
    requires 0xE0 <= b0 <= 0xEF && Follows(b1) && Follows(b2)
    requires (b0 == 0xE0 ==> 0xA0 <= b1) && (b0 == 0xED ==> b1 <= 0x9F)
    ensures CharBytes(c) == [b0, b1, b2]
  {
    var q, r, t := b0 as int - 0xE0, b1 as int - 0x80, b2 as int - 0x80;
    var n := (q * 0x40 + r) * 0x40 + t;
    Quotient(n, q * 0x40 + r, t, 0x40);
    Quotient(n / 0x40, q, r, 0x40);
    Quotient(n, q, r * 0x40 + t, 0x1000);
    c := n as char;
  }

  lemma FourBytes(b0: Byte, b1: Byte, b2: Byte, b3: Byte) returns (c: char)
    requires 0xF0 <= b0 <= 0xF4 && Follows(b1) && Follows(b2) && Follows(b3)
    requires (b0 == 0xF0 ==> 0x90 <= b1) && (b0 == 0xF4 ==> b1 <= 0x8F)
    ensures CharBytes(c) == [b0, b1, b2, b3]
  {
    var q, r, t, u := b0 as int - 0xF0, b1 as int - 0x80, b2 as int - 0x80, b3 as int - 0x80;
    var n := ((q * 0x40 + r) * 0x40 + t) * 0x40 + u;
    Quotient(n, (q * 0x40 + r) * 0x40 + t, u, 0x40);
    Quotient(n / 0x40, q * 0x40 + r, t, 0x40);
    Quotient(n, q * 0x40 + r, t * 0x40 + u, 0x1000);
    Quotient(n / 0x1000, q, r, 0x40);
    Quotient(n, q, r * 0x1000 + t * 0x40 + u, 0x4_0000);
    c := n as char;
  }

  lemma CharAhead(b: Bytes) returns (c: char)
    requires CharLength(b) > 0
    ensures CharBytes(c) == b[..CharLength(b)]
  {
    hide CharBytes;
    match CharLength(b)
    case 1 =>
      c := b[0] as char;
      OneByte(b[0]);
    case 2 => c := TwoBytes(b[0], b[1]);
    case 3 => c := ThreeBytes(b[0], b[1], b[2]);
    case _ => c := FourBytes(b[0], b[1], b[2], b[3]);
  }

  lemma OneByte(b0: Byte)
    requires b0 < 0x80
    ensures CharBytes(b0 as char) == [b0]
  {
  }

  lemma CharLengthOf(c: char, rest: Bytes)
    ensures CharLength(CharBytes(c) + rest) == |CharBytes(c)| > 0
  {
    var b, n := CharBytes(c) + rest, c as int;
    assert forall k :: 0 <= k < |CharBytes(c)| ==> b[k] == CharBytes(c)[k];
  }

  /** The bytes are UTF-8 exactly if they are the form of some text. */
  lemma Utf8Exactly(b: Bytes)
    ensures IsUtf8(b) <==> exists text :: Encoded(text) == b
  {
    if IsUtf8(b) {
      var text := TextOf(b);
    }
    if text :| Encoded(text) == b {
      EncodedIsUtf8(text);
    }
  }

  lemma OneMoreChar(b: Bytes, n: nat, c: char, rest: string)
    requires n <= |b| && CharBytes(c) == b[..n] && Encoded(rest) == b[n..]
    ensures Encoded([c] + rest) == b
  {
    assert ([c] + rest)[1..] == rest;
    assert b == b[..n] + b[n..];
  }

  lemma {:induction false} TextOf(b: Bytes) returns (text: string)
    requires IsUtf8(b)
    ensures Encoded(text) == b
  {
    hide CharBytes, CharLength;
    if b == [] {
      text := "";
    } else {
      var n := CharLength(b);
      var c := CharAhead(b);
      var rest := TextOf(b[n..]);
      OneMoreChar(b, n, c, rest);
      text := [c] + rest;
    }
  }

  lemma {:induction false} EncodedIsUtf8(text: string)
    ensures IsUtf8(Encoded(text))
  {
    if text != "" {
      CharLengthOf(text[0], Encoded(text[1..]));
      EncodedIsUtf8(text[1..]);
      assert Encoded(text)[|CharBytes(text[0])|..] == Encoded(text[1..]);
    }
  }

  predicate IsTag(tag: Tag) {
    |tag| < TAG_LIMIT && IsUtf8(tag)
  }

  /** `frame_tag`: four big-endian length bytes, then the tag, which must be UTF-8. */
  function FrameTag(payload: Bytes): (tag: Option<Tag>)
    ensures tag.Some? ==> 4 + |tag.value| <= |payload| && IsTag(tag.value)
  {
    if |payload| < 4 then None
    else
      var len: nat := ((payload[0] as int * 256 + payload[1] as int) * 256 + payload[2] as int) * 256 + payload[3] as int;
      if |payload| < 4 + len || !IsUtf8(payload[4..4 + len]) then None else Some(payload[4..4 + len])
  }

  function Be32(n: nat): Bytes
    requires n < TAG_LIMIT
  {
    [n / 256 / 256 / 256, n / 256 / 256 % 256, n / 256 % 256, n % 256]
  }

  lemma LastByte(n: nat, q: nat, r: Byte)
    ensures n == q * 256 + r <==> n / 256 == q && n % 256 == r
  {
  }

  lemma LengthBytes(b0: Byte, b1: Byte, b2: Byte, b3: Byte, n: nat)
    requires n < TAG_LIMIT
    ensures ((b0 as int * 256 + b1 as int) * 256 + b2 as int) * 256 + b3 as int == n <==> [b0, b1, b2, b3] == Be32(n)
  {
    var two: nat := b0 as int * 256 + b1 as int;
    LastByte(n, two * 256 + b2 as int, b3);
    LastByte(n / 256, two, b2);
    LastByte(n / 256 / 256, b0 as int, b1);
    var bs, be := [b0, b1, b2, b3], Be32(n);
    assert bs == be <==> bs[0] == be[0] && bs[1] == be[1] && bs[2] == be[2] && bs[3] == be[3];
  }

  /** A payload has a tag exactly when it starts with the tag's length and the tag. */
  lemma TagExactly(payload: Bytes, tag: Tag)
    ensures FrameTag(payload) == Some(tag) <==> IsTag(tag) && Be32(|tag|) + tag <= payload
  {
    hide IsUtf8;
    if |payload| >= 4 && |tag| < TAG_LIMIT {
      LengthBytes(payload[0], payload[1], payload[2], payload[3], |tag|);
      var start := payload[..4];
      assert start == [payload[0], payload[1], payload[2], payload[3]];
      hide Be32;
      if Be32(|tag|) + tag <= payload {
        assert (Be32(|tag|) + tag)[..4] == Be32(|tag|);
        assert payload[..4 + |tag|] == Be32(|tag|) + tag;
        assert payload[4..4 + |tag|] == tag;
      }
      if FrameTag(payload) == Some(tag) {
        assert payload[..4 + |tag|] == Be32(|tag|) + tag;
      }
    }
  }

  type Keys = map<Tag, Field>

  /** The key field of a frame's stream, where the stream is listed. */
  function ListedField(payload: Bytes, keys: Keys): Option<Field> {
    var tag := FrameTag(payload);
    if tag.Some? && tag.value in keys then Some(keys[tag.value]) else None
  }

  // ---- what a list of frames carries ----

  function RowsIn(arrow: Arrow, payload: Bytes, tag: Tag): seq<Row> {
    match arrow.decode(payload)
    case None => []
    case Some((t, b)) => if t == tag then b.rows else []
  }

  /** The rows under `tag` in a list of frames, in order. */
  function RowsOf(arrow: Arrow, payloads: seq<Bytes>, tag: Tag): seq<Row> {
    if payloads == [] then []
    else RowsOf(arrow, payloads[..|payloads| - 1], tag) + RowsIn(arrow, payloads[|payloads| - 1], tag)
  }

  /** The frames of streams that are not listed, in order. */
  function Raw(keys: Keys, payloads: seq<Bytes>): seq<Bytes> {
    if payloads == [] then []
    else
      var last := payloads[|payloads| - 1];
      Raw(keys, payloads[..|payloads| - 1]) + (if ListedField(last, keys) == None then [last] else [])
  }

  /** The rows that one input frame sends to shard `i` under `tag`. */
  ghost function Incoming(arrow: Arrow, keys: Keys, shards: nat, payload: Bytes, i: nat, tag: Tag): seq<Row>
    requires 0 < shards
  {
    var field := ListedField(payload, keys);
    match arrow.decode(payload)
    case None => []
    case Some((t, b)) =>
      if field.Some? && t == tag && Regular(b) && field.value in b.columns then PartOf(b, field.value, shards, i) else []
  }

  /** The rows that a list of input frames sends to shard `i` under `tag`. */
  ghost function AllIncoming(arrow: Arrow, keys: Keys, shards: nat, payloads: seq<Bytes>, i: nat, tag: Tag): seq<Row>
    requires 0 < shards
  {
    if payloads == [] then []
    else
      var n := |payloads| - 1;
      AllIncoming(arrow, keys, shards, payloads[..n], i, tag) + Incoming(arrow, keys, shards, payloads[n], i, tag)
  }

  /** Every listed frame written has some rows, and fewer than `limit`. */
  ghost predicate FramesBelow(arrow: Arrow, keys: Keys, payloads: seq<Bytes>, limit: nat) {
    forall p | p in payloads && ListedField(p, keys).Some? ::
      arrow.decode(p).Some? && 0 < |arrow.decode(p).value.1.rows| < limit
  }

  function RowCount(arrow: Arrow, payload: Bytes): nat {
    match arrow.decode(payload)
    case None => 0
    case Some((_, b)) => |b.rows|
  }

  /** The most rows of any frame in the list. */
  function Largest(arrow: Arrow, payloads: seq<Bytes>): nat {
    if payloads == [] then 0
    else
      var n := |payloads| - 1;
      var before, rows := Largest(arrow, payloads[..n]), RowCount(arrow, payloads[n]);
      if rows > before then rows else before
  }

  /** `b` can be split by its stream's key. */
  predicate Splittable(arrow: Arrow, keys: Keys, payload: Bytes) {
    var field := ListedField(payload, keys);
    field.Some? ==> arrow.decode(payload).Some? && field.value in arrow.decode(payload).value.1.columns
  }

  predicate AllSplittable(arrow: Arrow, keys: Keys, payloads: seq<Bytes>) {
    forall p | p in payloads :: Splittable(arrow, keys, p)
  }

  type Shape = (set<Field>, int)

  /** Each listed frame has the schema that `shape` gives to its stream. */
  ghost predicate OneSchema(arrow: Arrow, keys: Keys, payloads: seq<Bytes>, shape: Tag -> Shape) {
    forall p | p in payloads && ListedField(p, keys).Some? && arrow.decode(p).Some? ::
      var (tag, b) := arrow.decode(p).value;
      shape(tag) == (b.columns, b.schema)
  }

  // ---- the accumulator of one shard ----

  datatype Pending = Pending(tag: Tag, columns: set<Field>, schema: int, batches: seq<Batch>, rows: nat)

  function Merged(batches: seq<Batch>): seq<Row> {
    if batches == [] then [] else Merged(batches[..|batches| - 1]) + batches[|batches| - 1].rows
  }

  /** `concat_batches`: the batches must have the schema the accumulator was opened with. */
  function Concat(p: Pending): Option<Batch> {
    if forall b | b in p.batches :: b.columns == p.columns && b.schema == p.schema
    then Some(Batch(p.columns, p.schema, Merged(p.batches)))
    else None
  }

  ghost predicate PendingOk(p: Pending, keys: Keys, limit: nat) {
    && p.tag in keys && IsTag(p.tag) && p.rows == |Merged(p.batches)| && p.rows < limit
    && (forall b | b in p.batches :: Regular(b) && b.rows != [])
  }

  function PendingRows(p: Option<Pending>, tag: Tag): seq<Row> {
    if p.Some? && p.value.tag == tag then Merged(p.value.batches) else []
  }

  lemma {:induction false} MergedRegular(batches: seq<Batch>, columns: set<Field>)
    requires forall b | b in batches :: Regular(b) && b.rows != [] && b.columns == columns
    ensures forall r | r in Merged(batches) :: columns <= r.Keys
    ensures batches != [] ==> Merged(batches) != []
  {
    if batches != [] {
      MergedRegular(batches[..|batches| - 1], columns);
    }
  }

  lemma {:induction false} EncodeOneMore(payloads: seq<Bytes>, p: Bytes)
    ensures EncodeAll(payloads + [p]) == EncodeAll(payloads) + EncodeFrame(p)
  {
    if payloads == [] {
      assert payloads + [p] == [p];
      assert [p][1..] == [];
    } else {
      assert (payloads + [p])[1..] == payloads[1..] + [p];
      EncodeOneMore(payloads[1..], p);
    }
  }

  lemma WrittenOneMore(arrow: Arrow, keys: Keys, payloads: seq<Bytes>, p: Bytes)
    ensures forall tag :: RowsOf(arrow, payloads + [p], tag) == RowsOf(arrow, payloads, tag) + RowsIn(arrow, p, tag)
    ensures Raw(keys, payloads + [p]) == Raw(keys, payloads) + if ListedField(p, keys) == None then [p] else []
  {
    assert (payloads + [p])[..|payloads|] == payloads;
  }

  lemma {:induction false} PartBounds(b: Batch, field: Field, shards: nat, i: nat, k: nat)
    requires 0 < shards && k <= |b.rows| && forall r | r in b.rows :: field in r
    ensures |Part(b, field, shards, i, k)| <= k
    ensures forall r | r in Part(b, field, shards, i, k) :: r in b.rows
  {
    hide RowShard;
    if k > 0 {
      PartBounds(b, field, shards, i, k - 1);
    }
  }

  // ---- how full the frames are ----

  /** A listed frame's stream and number of rows. */
  function Carries(arrow: Arrow, keys: Keys, payload: Bytes): Option<(Tag, nat)> {
    if ListedField(payload, keys).Some? && arrow.decode(payload).Some?
    then Some((arrow.decode(payload).value.0, |arrow.decode(payload).value.1.rows|))
    else None
  }

  /** What the last listed frame carries. */
  function LastListed(arrow: Arrow, keys: Keys, payloads: seq<Bytes>): Option<(Tag, nat)> {
    if payloads == [] then None
    else
      var n := |payloads| - 1;
      var last := Carries(arrow, keys, payloads[n]);
      if last.Some? then last else LastListed(arrow, keys, payloads[..n])
  }

  /** Another frame of the same stream comes next only behind a full one. */
  predicate Behind(last: Option<(Tag, nat)>, tag: Tag) {
    last.Some? && last.value.0 == tag ==> last.value.1 >= TARGET_ROWS
  }

  predicate AllFull(arrow: Arrow, keys: Keys, payloads: seq<Bytes>) {
    payloads == [] ||
    var n := |payloads| - 1;
    var last := Carries(arrow, keys, payloads[n]);
    && AllFull(arrow, keys, payloads[..n])
    && (last.Some? ==> Behind(LastListed(arrow, keys, payloads[..n]), last.value.0))
  }

  /** The accumulator's rows can become the next frame. */
  ghost predicate CanFollow(arrow: Arrow, keys: Keys, written: seq<Bytes>, pending: Option<Pending>) {
    && AllFull(arrow, keys, written)
    && match pending
       case None => LastListed(arrow, keys, written) == None
       case Some(p) => Behind(LastListed(arrow, keys, written), p.tag)
  }

  /** Between two frames: and an accumulator is empty only when its last frame was full. */
  ghost predicate Coalesced(arrow: Arrow, keys: Keys, written: seq<Bytes>, pending: Option<Pending>) {
    && CanFollow(arrow, keys, written, pending)
    && (pending.Some? && pending.value.batches == [] ==>
          LastListed(arrow, keys, written).Some? && LastListed(arrow, keys, written).value.0 == pending.value.tag)
  }

  lemma FullOneMore(arrow: Arrow, keys: Keys, written: seq<Bytes>, q: Bytes)
    ensures Carries(arrow, keys, q) == None ==>
      AllFull(arrow, keys, written + [q]) == AllFull(arrow, keys, written)
      && LastListed(arrow, keys, written + [q]) == LastListed(arrow, keys, written)
    ensures Carries(arrow, keys, q).Some? ==>
      LastListed(arrow, keys, written + [q]) == Carries(arrow, keys, q)
    ensures Carries(arrow, keys, q).Some? ==>
      AllFull(arrow, keys, written + [q]) ==
      (AllFull(arrow, keys, written) && Behind(LastListed(arrow, keys, written), Carries(arrow, keys, q).value.0))
  {
    hide Carries, Behind;
    assert (written + [q])[..|written|] == written;
  }

  /** So of two listed frames of one stream with no listed frame between them, the first has 100000 rows or more. */
  lemma {:induction false} FramesAreFull(arrow: Arrow, keys: Keys, written: seq<Bytes>, j: nat, k: nat)
    requires AllFull(arrow, keys, written) && j < k < |written|
    requires Carries(arrow, keys, written[j]).Some? && Carries(arrow, keys, written[k]).Some?
    requires Carries(arrow, keys, written[j]).value.0 == Carries(arrow, keys, written[k]).value.0
    requires forall m :: j < m < k ==> Carries(arrow, keys, written[m]) == None
    ensures Carries(arrow, keys, written[j]).value.1 >= 100_000
  {
    var n := |written| - 1;
    if k < n {
      FramesAreFull(arrow, keys, written[..n], j, k);
    } else {
      LastListedIs(arrow, keys, written[..n], j);
    }
  }

  lemma {:induction false} LastListedIs(arrow: Arrow, keys: Keys, written: seq<Bytes>, j: nat)
    requires j < |written| && Carries(arrow, keys, written[j]).Some?
    requires forall m :: j < m < |written| ==> Carries(arrow, keys, written[m]) == None
    ensures LastListed(arrow, keys, written) == Carries(arrow, keys, written[j])
  {
    hide Carries;
    var n := |written| - 1;
    if j < n {
      LastListedIs(arrow, keys, written[..n], j);
    }
  }

  // ---- the state of one shard between two frames ----

  /** The rows under `tag` that a shard has been given: written, then still pending. */
  function Held(arrow: Arrow, written: seq<Bytes>, pending: Option<Pending>, tag: Tag): seq<Row> {
    RowsOf(arrow, written, tag) + PendingRows(pending, tag)
  }

  /** Shard `i` has exactly its share of the frames `taken`: `written` is what its file holds. */
  ghost predicate HasItsShare(arrow: Arrow, keys: Keys, shards: nat, taken: seq<Bytes>, i: nat, written: seq<Bytes>,
                              pending: Option<Pending>)
    requires 0 < shards
  {
    && (forall tag | tag in keys :: Held(arrow, written, pending, tag) == AllIncoming(arrow, keys, shards, taken, i, tag))
    && Raw(keys, written) == (if i == 0 then Raw(keys, taken) else [])
  }

  ghost predicate Shaped(p: Pending, shape: Tag -> Shape) {
    && shape(p.tag) == (p.columns, p.schema)
    && forall b | b in p.batches :: b.columns == p.columns && b.schema == p.schema
  }

  ghost predicate ShardOk(arrow: Arrow, keys: Keys, taken: seq<Bytes>, file: Bytes, written: seq<Bytes>,
                          pending: Option<Pending>, limit: nat, shape: Tag -> Shape)
  {
    && file == EncodeAll(written)
    && (pending.Some? ==> PendingOk(pending.value, keys, limit))
    && FramesBelow(arrow, keys, written, TARGET_ROWS + Largest(arrow, taken))
    && (OneSchema(arrow, keys, taken, shape) && pending.Some? ==> Shaped(pending.value, shape))
    && Coalesced(arrow, keys, written, pending)
  }

  // ---- writing out an accumulator ----

  lemma FlushLemma(arrow: Arrow, keys: Keys, written: seq<Bytes>, p: Pending, limit: nat)
    requires Lawful(arrow) && PendingOk(p, keys, limit) && FramesBelow(arrow, keys, written, limit)
    requires p.batches != [] && Concat(p).Some?
    ensures var q := arrow.encode(p.tag, Concat(p).value);
      && EncodeAll(written + [q]) == EncodeAll(written) + EncodeFrame(q)
      && FramesBelow(arrow, keys, written + [q], limit)
      && Raw(keys, written + [q]) == Raw(keys, written)
      && (forall tag :: RowsOf(arrow, written + [q], tag) == Held(arrow, written, Some(p), tag))
      && Carries(arrow, keys, q) == Some((p.tag, p.rows))
  {
    var merged := Concat(p).value;
    var q := arrow.encode(p.tag, merged);
    MergedRegular(p.batches, p.columns);
    assert Regular(merged);
    assert arrow.decode(q) == Some((p.tag, merged));
    EncodeOneMore(written, q);
    WrittenOneMore(arrow, keys, written, q);
  }

  /** `flush_pending`: the batches become one frame under the accumulator's own tag. */
  method FlushPending(arrow: Arrow, file: Bytes, p: Pending, ghost keys: Keys, ghost written: seq<Bytes>, ghost limit: nat)
    returns (ok: bool, file': Bytes, p': Pending, ghost written': seq<Bytes>)
    requires Lawful(arrow) && PendingOk(p, keys, limit)
    requires file == EncodeAll(written) && FramesBelow(arrow, keys, written, limit)
    ensures ok <==> p.batches == [] || Concat(p).Some?
    ensures ok ==> p' == p.(batches := [], rows := 0)
    ensures ok ==> file' == EncodeAll(written') && FramesBelow(arrow, keys, written', limit)
    ensures ok ==> Raw(keys, written') == Raw(keys, written)
    ensures ok ==> forall tag :: RowsOf(arrow, written', tag) == Held(arrow, written, Some(p), tag)
    ensures ok && p.batches == [] ==> written' == written
    ensures ok && p.batches != [] && CanFollow(arrow, keys, written, Some(p)) ==>
      AllFull(arrow, keys, written') && LastListed(arrow, keys, written') == Some((p.tag, p.rows))
  {
    file', p', written' := file, p, written;
    if p.batches == [] {
      return true, file, p, written;
    }
    var merged := Concat(p);
    if merged == None {
      return false, file, p, written;
    }
    FlushLemma(arrow, keys, written, p, limit);
    FullOneMore(arrow, keys, written, arrow.encode(p.tag, merged.value));
    hide AllFull, LastListed, Carries;
    var payload := arrow.encode(p.tag, merged.value);
    file' := file + EncodeFrame(payload);
    p' := p.(batches := [], rows := 0);
    written' := written + [payload];
    ok := true;
  }

  // ---- one more input frame ----

  lemma TakeOneMore(arrow: Arrow, keys: Keys, shards: nat, taken: seq<Bytes>, payload: Bytes)
    requires 0 < shards
    ensures forall i, t :: AllIncoming(arrow, keys, shards, taken + [payload], i, t) ==
                      AllIncoming(arrow, keys, shards, taken, i, t) + Incoming(arrow, keys, shards, payload, i, t)
    ensures Raw(keys, taken + [payload]) ==
      Raw(keys, taken) + if ListedField(payload, keys) == None then [payload] else []
    ensures Largest(arrow, taken) <= Largest(arrow, taken + [payload])
    ensures RowCount(arrow, payload) <= Largest(arrow, taken + [payload])
    ensures forall shape :: OneSchema(arrow, keys, taken + [payload], shape) ==> OneSchema(arrow, keys, taken, shape)
  {
    assert (taken + [payload])[..|taken|] == taken;
  }

  /** The rows of shard `i` after its share of one listed frame is added under its tag. */
  ghost predicate Grown(arrow: Arrow, keys: Keys, before: seq<Bytes>, p: Option<Pending>, after: seq<Bytes>,
                        p': Option<Pending>, tag: Tag, more: seq<Row>)
  {
    && Raw(keys, after) == Raw(keys, before)
    && forall t | t in keys ::
      Held(arrow, after, p', t) == Held(arrow, before, p, t) + if t == tag then more else []
  }

  /** The accumulator for `tag`: the present one, or a new one once the other stream's is flushed. */
  method Open(arrow: Arrow, file: Bytes, pending: Option<Pending>, tag: Tag, columns: set<Field>, schema: int,
              ghost keys: Keys, ghost written: seq<Bytes>, ghost limit: nat)
    returns (ok: bool, file': Bytes, p: Pending, ghost written': seq<Bytes>)
    requires Lawful(arrow) && TARGET_ROWS <= limit && tag in keys && IsTag(tag)
    requires pending.Some? ==> PendingOk(pending.value, keys, TARGET_ROWS)
    requires file == EncodeAll(written) && FramesBelow(arrow, keys, written, limit)
    requires Coalesced(arrow, keys, written, pending)
    ensures ok ==> file' == EncodeAll(written') && FramesBelow(arrow, keys, written', limit)
    ensures ok ==> CanFollow(arrow, keys, written', Some(p))
    ensures ok ==> PendingOk(p, keys, TARGET_ROWS) && p.tag == tag
    ensures ok ==> pending == Some(p) || p == Pending(tag, columns, schema, [], 0)
    ensures ok ==> Grown(arrow, keys, written, pending, written', Some(p), tag, [])
    ensures pending == None || pending.value.tag == tag || Concat(pending.value).Some? ==> ok
  {
    ok, file', written' := true, file, written;
    if pending == None || pending.value.tag != tag {
      p := Pending(tag, columns, schema, [], 0);
      if pending.Some? {
        var old';
        ok, file', old', written' := FlushPending(arrow, file, pending.value, keys, written, limit);
      }
    } else {
      p := pending.value;
    }
  }

  function Pushed(p: Pending, sub: Batch): Pending {
    p.(batches := p.batches + [sub], rows := p.rows + |sub.rows|)
  }

  lemma MergedOneMore(batches: seq<Batch>, sub: Batch)
    ensures Merged(batches + [sub]) == Merged(batches) + sub.rows
  {
    assert (batches + [sub])[..|batches|] == batches;
  }

  lemma Assoc<X>(s: seq<X>, t: seq<X>, u: seq<X>)
    ensures s + (t + u) == s + t + u
  {
  }

  lemma HeldPush(arrow: Arrow, mid: seq<Bytes>, p: Pending, sub: Batch, t: Tag)
    ensures Merged(p.batches + [sub]) == Merged(p.batches) + sub.rows
    ensures Held(arrow, mid, Some(Pushed(p, sub)), t) == Held(arrow, mid, Some(p), t) + if t == p.tag then sub.rows else []
  {
    hide RowsOf, Merged;
    MergedOneMore(p.batches, sub);
    if t == p.tag {
      Assoc(RowsOf(arrow, mid, t), Merged(p.batches), sub.rows);
    } else {
      assert Held(arrow, mid, Some(p), t) + [] == Held(arrow, mid, Some(p), t);
    }
  }

  lemma PushGrown(arrow: Arrow, keys: Keys, before: seq<Bytes>, pending: Option<Pending>, mid: seq<Bytes>, p: Pending,
                  sub: Batch)
    requires Grown(arrow, keys, before, pending, mid, Some(p), p.tag, [])
    ensures Grown(arrow, keys, before, pending, mid, Some(Pushed(p, sub)), p.tag, sub.rows)
  {
    hide RowsOf, Raw, Held, Merged;
    forall t | t in keys
      ensures Held(arrow, mid, Some(Pushed(p, sub)), t) ==
              Held(arrow, before, pending, t) + if t == p.tag then sub.rows else []
    {
      HeldPush(arrow, mid, p, sub, t);
      assert Held(arrow, before, pending, t) + [] == Held(arrow, before, pending, t);
    }
  }

  lemma FlushedGrown(arrow: Arrow, keys: Keys, before: seq<Bytes>, p: Option<Pending>, mid: seq<Bytes>, q: Pending,
                     after: seq<Bytes>, q': Pending, tag: Tag, more: seq<Row>)
    requires Grown(arrow, keys, before, p, mid, Some(q), tag, more)
    requires Raw(keys, after) == Raw(keys, mid) && q'.batches == []
    requires forall t :: RowsOf(arrow, after, t) == Held(arrow, mid, Some(q), t)
    ensures Grown(arrow, keys, before, p, after, Some(q'), tag, more)
  {
  }

  /** Append to the accumulator, and flush it once it has enough rows. */
  method Push(arrow: Arrow, file: Bytes, p: Pending, sub: Batch, ghost keys: Keys, ghost before: seq<Bytes>,
              ghost pending: Option<Pending>, ghost written: seq<Bytes>, ghost limit: nat, ghost shape: Tag -> Shape)
    returns (ok: bool, file': Bytes, p': Pending, ghost written': seq<Bytes>)
    requires Lawful(arrow) && Regular(sub) && sub.rows != [] && TARGET_ROWS + |sub.rows| <= limit
    requires PendingOk(p, keys, TARGET_ROWS) && Grown(arrow, keys, before, pending, written, Some(p), p.tag, [])
    requires file == EncodeAll(written) && FramesBelow(arrow, keys, written, limit)
    requires CanFollow(arrow, keys, written, Some(p))
    ensures ok ==> file' == EncodeAll(written') && FramesBelow(arrow, keys, written', limit)
    ensures ok ==> PendingOk(p', keys, TARGET_ROWS) && Coalesced(arrow, keys, written', Some(p'))
    ensures ok ==> Grown(arrow, keys, before, pending, written', Some(p'), p.tag, sub.rows)
    ensures Shaped(p, shape) && shape(p.tag) == (sub.columns, sub.schema) ==> ok && Shaped(p', shape)
  {
    hide RowsOf, Raw, FramesBelow, EncodeAll, Grown, Lawful, Held, Merged, AllFull, LastListed;
    p' := Pushed(p, sub);
    ok, file', written' := true, file, written;
    ghost var q := p';
    PushGrown(arrow, keys, before, pending, written, p, sub);
    HeldPush(arrow, written, p, sub, p.tag);
    assert Merged([]) == [] by { NothingMerged(); }
    if p'.rows >= TARGET_ROWS {
      ok, file', p', written' := FlushPending(arrow, file, p', keys, written, limit);
      if ok {
        FlushedGrown(arrow, keys, before, pending, written, q, written', p', p.tag, sub.rows);
      }
    }
  }

  lemma NothingMerged()
    ensures Merged([]) == []
  {
  }

  /** One shard's turn in the inner loop: its rows of the frame join its accumulator. */
  method AddSub(arrow: Arrow, file: Bytes, pending: Option<Pending>, tag: Tag, sub: Batch,
                ghost keys: Keys, ghost written: seq<Bytes>, ghost limit: nat, ghost shape: Tag -> Shape)
    returns (ok: bool, file': Bytes, p': Pending, ghost written': seq<Bytes>)
    requires Lawful(arrow) && tag in keys && IsTag(tag)
    requires Regular(sub) && sub.rows != [] && TARGET_ROWS + |sub.rows| <= limit
    requires pending.Some? ==> PendingOk(pending.value, keys, TARGET_ROWS)
    requires file == EncodeAll(written) && FramesBelow(arrow, keys, written, limit)
    requires Coalesced(arrow, keys, written, pending)
    ensures ok ==> file' == EncodeAll(written') && FramesBelow(arrow, keys, written', limit)
    ensures ok ==> PendingOk(p', keys, TARGET_ROWS) && Coalesced(arrow, keys, written', Some(p'))
    ensures ok ==> Grown(arrow, keys, written, pending, written', Some(p'), tag, sub.rows)
    ensures (pending.Some? ==> Shaped(pending.value, shape)) && shape(tag) == (sub.columns, sub.schema) ==>
              ok && Shaped(p', shape)
  {
    hide RowsOf, Raw, FramesBelow, EncodeAll, Grown, Coalesced, CanFollow;
    var p;
    ok, file', p, written' := Open(arrow, file, pending, tag, sub.columns, sub.schema, keys, written, limit);
    p' := p;
    if ok {
      ok, file', p', written' := Push(arrow, file', p, sub, keys, written, pending, written', limit, shape);
    }
  }

  // ---- all the shards ----

  ghost predicate ShardDone(arrow: Arrow, keys: Keys, shards: nat, taken: seq<Bytes>, i: nat, file: Bytes,
                            written: seq<Bytes>, pending: Option<Pending>, shape: Tag -> Shape)
    requires 0 < shards
  {
    && ShardOk(arrow, keys, taken, file, written, pending, TARGET_ROWS, shape)
    && HasItsShare(arrow, keys, shards, taken, i, written, pending)
  }

  ghost predicate Sized(shards: nat, files: seq<Bytes>, writtens: seq<seq<Bytes>>, pendings: seq<Option<Pending>>) {
    |files| == shards && |writtens| == shards && |pendings| == shards
  }

  /** Every shard has its share of the frames `taken`. */
  ghost predicate AllDone(arrow: Arrow, keys: Keys, shards: nat, taken: seq<Bytes>, files: seq<Bytes>,
                          writtens: seq<seq<Bytes>>, pendings: seq<Option<Pending>>, shape: Tag -> Shape)
    requires 0 < shards
  {
    && Sized(shards, files, writtens, pendings)
    && forall i :: 0 <= i < shards ==>
      ShardDone(arrow, keys, shards, taken, i, files[i], writtens[i], pendings[i], shape)
  }

  /** What a payload and its decoding have to be for the listed branch. */
  ghost predicate Listed(arrow: Arrow, keys: Keys, payload: Bytes, tag: Tag, b: Batch, field: Field) {
    Lawful(arrow) && arrow.decode(payload) == Some((tag, b)) && ListedField(payload, keys) == Some(field)
    && field in b.columns
  }

  lemma ListedFacts(arrow: Arrow, keys: Keys, shards: nat, payload: Bytes, tag: Tag, b: Batch, field: Field, i: nat)
    requires 0 < shards && Listed(arrow, keys, payload, tag, b, field)
    ensures tag in keys && IsTag(tag) && Regular(b) && RowCount(arrow, payload) == |b.rows|
    ensures |PartOf(b, field, shards, i)| <= |b.rows|
    ensures forall r | r in PartOf(b, field, shards, i) :: b.columns <= r.Keys
    ensures forall t :: Incoming(arrow, keys, shards, payload, i, t) == if t == tag then PartOf(b, field, shards, i) else []
  {
    hide Part;
    assert Regular(b) && FrameTag(payload) == Some(tag);
    PartBounds(b, field, shards, i, |b.rows|);
  }

  lemma ListedStep(arrow: Arrow, keys: Keys, shards: nat, taken: seq<Bytes>, payload: Bytes, tag: Tag, b: Batch,
                   field: Field, i: nat, written: seq<Bytes>, pending: Option<Pending>, written': seq<Bytes>,
                   pending': Option<Pending>)
    requires 0 < shards && Listed(arrow, keys, payload, tag, b, field)
    requires HasItsShare(arrow, keys, shards, taken, i, written, pending)
    requires Grown(arrow, keys, written, pending, written', pending', tag, PartOf(b, field, shards, i))
    ensures HasItsShare(arrow, keys, shards, taken + [payload], i, written', pending')
  {
    hide PartOf, AllIncoming, Incoming, Raw, Held, Lawful;
    ListedFacts(arrow, keys, shards, payload, tag, b, field, i);
    TakeOneMore(arrow, keys, shards, taken, payload);
  }

  /** The inner loop over one frame's parts. */
  method AddParts(arrow: Arrow, shards: nat, tag: Tag, b: Batch, subs: seq<Option<Batch>>, files: seq<Bytes>,
                  pendings: seq<Option<Pending>>, ghost keys: Keys, ghost field: Field, ghost taken: seq<Bytes>,
                  ghost payload: Bytes, ghost writtens: seq<seq<Bytes>>, ghost shape: Tag -> Shape)
    returns (ok: bool, files': seq<Bytes>, pendings': seq<Option<Pending>>, ghost writtens': seq<seq<Bytes>>)
    requires 0 < shards && Listed(arrow, keys, payload, tag, b, field) && Regular(b) && |subs| == shards
    requires forall i :: 0 <= i < shards ==> subs[i] == SubBatch(b, field, shards, i)
    requires AllDone(arrow, keys, shards, taken, files, writtens, pendings, shape)
    ensures ok ==> AllDone(arrow, keys, shards, taken + [payload], files', writtens', pendings', shape)
    ensures OneSchema(arrow, keys, taken + [payload], shape) ==> ok
  {
    hide ShardDone, Listed, SubBatch, OneSchema, Regular;
    files', pendings', writtens', ok := files, pendings, writtens, true;
    ghost var taken' := taken + [payload];
    for i := 0 to shards
      invariant Sized(shards, files', writtens', pendings')
      invariant forall j :: 0 <= j < i ==>
        ShardDone(arrow, keys, shards, taken', j, files'[j], writtens'[j], pendings'[j], shape)
      invariant forall j :: i <= j < shards ==>
        files'[j] == files[j] && writtens'[j] == writtens[j] && pendings'[j] == pendings[j]
    {
      var file', pending'; ghost var written';
      ok, file', pending', written' := Turn(arrow, shards, tag, b, subs[i], files[i], pendings[i], keys, field, taken,
        payload, i, writtens[i], shape);
      if !ok {
        return;
      }
      files', pendings', writtens' := files'[i := file'], pendings'[i := pending'], writtens'[i := written'];
    }
  }

  /** Shard `i`'s turn: nothing to do where the frame has no row for it. */
  method Turn(arrow: Arrow, shards: nat, tag: Tag, b: Batch, sub: Option<Batch>, file: Bytes, pending: Option<Pending>,
              ghost keys: Keys, ghost field: Field, ghost taken: seq<Bytes>, ghost payload: Bytes, ghost i: nat,
              ghost written: seq<Bytes>, ghost shape: Tag -> Shape)
    returns (ok: bool, file': Bytes, pending': Option<Pending>, ghost written': seq<Bytes>)
    requires 0 < shards && Listed(arrow, keys, payload, tag, b, field) && Regular(b)
    requires sub == SubBatch(b, field, shards, i)
    requires ShardDone(arrow, keys, shards, taken, i, file, written, pending, shape)
    ensures ok ==> ShardDone(arrow, keys, shards, taken + [payload], i, file', written', pending', shape)
    ensures OneSchema(arrow, keys, taken + [payload], shape) ==> ok
  {
    hide PartOf, AllIncoming, Incoming, Raw, Held, EncodeAll, Largest, Merged, Grown, ListedField, RowCount, Coalesced;
    ok, file', pending', written' := true, file, pending, written;
    ghost var taken' := taken + [payload];
    ghost var limit := TARGET_ROWS + Largest(arrow, taken');
    ListedFacts(arrow, keys, shards, payload, tag, b, field, i);
    TakeOneMore(arrow, keys, shards, taken, payload);
    assert payload in taken';
    if sub.Some? {
      var p;
      ok, file', p, written' := AddSub(arrow, file, pending, tag, sub.value, keys, written, limit, shape);
      pending' := Some(p);
    } else {
      GrownByNothing(arrow, keys, written, pending, tag);
    }
    if ok {
      ListedStep(arrow, keys, shards, taken, payload, tag, b, field, i, written, pending, written', pending');
    }
  }

  lemma GrownByNothing(arrow: Arrow, keys: Keys, written: seq<Bytes>, pending: Option<Pending>, tag: Tag)
    ensures Grown(arrow, keys, written, pending, written, pending, tag, [])
  {
    hide Held;
    forall t ensures Held(arrow, written, pending, t) + [] == Held(arrow, written, pending, t) {
    }
  }

  lemma FramesStayBelow(arrow: Arrow, keys: Keys, written: seq<Bytes>, p: Bytes, limit: nat, limit': nat)
    requires FramesBelow(arrow, keys, written, limit) && limit <= limit' && ListedField(p, keys) == None
    ensures FramesBelow(arrow, keys, written, limit') && FramesBelow(arrow, keys, written + [p], limit')
  {
    hide ListedField;
  }

  lemma RawOk(arrow: Arrow, keys: Keys, taken: seq<Bytes>, payload: Bytes, file: Bytes, written: seq<Bytes>,
              pending: Option<Pending>, shape: Tag -> Shape)
    requires ListedField(payload, keys) == None
    requires ShardOk(arrow, keys, taken, file, written, pending, TARGET_ROWS, shape)
    ensures ShardOk(arrow, keys, taken + [payload], file, written, pending, TARGET_ROWS, shape)
    ensures ShardOk(arrow, keys, taken + [payload], file + EncodeFrame(payload), written + [payload], pending,
                    TARGET_ROWS, shape)
  {
    hide FramesBelow, Largest, EncodeAll, EncodeFrame, OneSchema, PendingOk, Shaped, Incoming, RowCount;
    assert Carries(arrow, keys, payload) == None;
    hide ListedField, Carries, AllFull, LastListed, Behind;
    FullOneMore(arrow, keys, written, payload);
    TakeOneMore(arrow, keys, 1, taken, payload);
    EncodeOneMore(written, payload);
    FramesStayBelow(arrow, keys, written, payload, TARGET_ROWS + Largest(arrow, taken),
                    TARGET_ROWS + Largest(arrow, taken + [payload]));
  }

  lemma UnlistedBringsNothing(arrow: Arrow, keys: Keys, shards: nat, payload: Bytes, i: nat, tag: Tag)
    requires 0 < shards && Lawful(arrow) && ListedField(payload, keys) == None && tag in keys
    ensures RowsIn(arrow, payload, tag) == [] && Incoming(arrow, keys, shards, payload, i, tag) == []
  {
  }

  /** An unlisted frame goes to shard 0 as it is. */
  lemma RawStep(arrow: Arrow, keys: Keys, shards: nat, taken: seq<Bytes>, payload: Bytes, i: nat, file: Bytes,
                written: seq<Bytes>, pending: Option<Pending>, shape: Tag -> Shape)
    requires 0 < shards && Lawful(arrow) && ListedField(payload, keys) == None
    requires ShardDone(arrow, keys, shards, taken, i, file, written, pending, shape)
    ensures i == 0 ==> ShardDone(arrow, keys, shards, taken + [payload], i, file + EncodeFrame(payload),
                                 written + [payload], pending, shape)
    ensures i != 0 ==> ShardDone(arrow, keys, shards, taken + [payload], i, file, written, pending, shape)
  {
    hide Lawful, ListedField, EncodeFrame, ShardOk, HasItsShare, RowsIn, Incoming;
    RawOk(arrow, keys, taken, payload, file, written, pending, shape);
    forall tag | tag in keys
      ensures RowsIn(arrow, payload, tag) == [] && Incoming(arrow, keys, shards, payload, i, tag) == []
    {
      UnlistedBringsNothing(arrow, keys, shards, payload, i, tag);
    }
    RawHolds(arrow, keys, shards, taken, payload, i, written, pending);
  }

  lemma RawHolds(arrow: Arrow, keys: Keys, shards: nat, taken: seq<Bytes>, payload: Bytes, i: nat, written: seq<Bytes>,
                 pending: Option<Pending>)
    requires 0 < shards && ListedField(payload, keys) == None
    requires HasItsShare(arrow, keys, shards, taken, i, written, pending)
    requires forall tag | tag in keys ::
      RowsIn(arrow, payload, tag) == [] && Incoming(arrow, keys, shards, payload, i, tag) == []
    ensures i == 0 ==> HasItsShare(arrow, keys, shards, taken + [payload], i, written + [payload], pending)
    ensures i != 0 ==> HasItsShare(arrow, keys, shards, taken + [payload], i, written, pending)
  {
    hide RowsIn, Incoming, PendingRows, RowsOf, Raw, AllIncoming;
    TakeOneMore(arrow, keys, shards, taken, payload);
    WrittenOneMore(arrow, keys, written, payload);
  }

  // ---- the final flush ----

  /** A finished shard file: the listed streams' shares in order, and for shard 0 the other frames. */
  ghost predicate Finished(arrow: Arrow, keys: Keys, shards: nat, ps: seq<Bytes>, i: nat, file: Bytes,
                           written: seq<Bytes>)
    requires 0 < shards
  {
    && file == EncodeAll(written)
    && (forall tag | tag in keys :: RowsOf(arrow, written, tag) == AllIncoming(arrow, keys, shards, ps, i, tag))
    && Raw(keys, written) == (if i == 0 then Raw(keys, ps) else [])
    && FramesBelow(arrow, keys, written, TARGET_ROWS + Largest(arrow, ps)) && AllFull(arrow, keys, written)
  }

  /** No listed frame is empty, and none has more than one input frame's rows beyond a full one. */
  lemma FrameSizes(arrow: Arrow, keys: Keys, shards: nat, ps: seq<Bytes>, i: nat, file: Bytes, written: seq<Bytes>, k: nat)
    requires 0 < shards && Finished(arrow, keys, shards, ps, i, file, written)
    requires k < |written| && Carries(arrow, keys, written[k]).Some?
    ensures 1 <= Carries(arrow, keys, written[k]).value.1 < 100_000 + Largest(arrow, ps)
  {
    hide AllFull, RowsOf, AllIncoming, Raw, EncodeAll, Largest;
    assert written[k] in written;
  }

  method Finish(arrow: Arrow, file: Bytes, pending: Option<Pending>, ghost keys: Keys, ghost shards: nat,
                ghost ps: seq<Bytes>, ghost i: nat, ghost written: seq<Bytes>, ghost shape: Tag -> Shape)
    returns (ok: bool, file': Bytes, ghost written': seq<Bytes>)
    requires 0 < shards && Lawful(arrow)
    requires ShardDone(arrow, keys, shards, ps, i, file, written, pending, shape)
    ensures ok ==> Finished(arrow, keys, shards, ps, i, file', written')
    ensures OneSchema(arrow, keys, ps, shape) ==> ok
  {
    hide RowsOf, Raw, FramesBelow, EncodeAll, AllIncoming, OneSchema, Largest, Merged;
    ok, file', written' := true, file, written;
    if pending.Some? {
      var p';
      ok, file', p', written' :=
        FlushPending(arrow, file, pending.value, keys, written, TARGET_ROWS + Largest(arrow, ps));
    }
  }

  method FinishAll(arrow: Arrow, shards: nat, files: seq<Bytes>, pendings: seq<Option<Pending>>, ghost keys: Keys,
                   ghost ps: seq<Bytes>, ghost writtens: seq<seq<Bytes>>, ghost shape: Tag -> Shape)
    returns (ok: bool, files': seq<Bytes>, ghost writtens': seq<seq<Bytes>>)
    requires 0 < shards && Lawful(arrow)
    requires AllDone(arrow, keys, shards, ps, files, writtens, pendings, shape)
    ensures ok ==> |files'| == shards && |writtens'| == shards
    ensures ok ==> forall i :: 0 <= i < shards ==> Finished(arrow, keys, shards, ps, i, files'[i], writtens'[i])
    ensures OneSchema(arrow, keys, ps, shape) ==> ok
  {
    hide ShardDone, Finished, OneSchema, Lawful;
    files', writtens', ok := files, writtens, true;
    for i := 0 to shards
      invariant |files'| == shards && |writtens'| == shards
      invariant forall j :: 0 <= j < i ==> Finished(arrow, keys, shards, ps, j, files'[j], writtens'[j])
      invariant forall j :: i <= j < shards ==> files'[j] == files[j] && writtens'[j] == writtens[j]
    {
      var file'; ghost var written';
      ok, file', written' := Finish(arrow, files[i], pendings[i], keys, shards, ps, i, writtens[i], shape);
      if !ok {
        return;
      }
      files', writtens' := files'[i := file'], writtens'[i := written'];
    }
  }

  // ---- the whole run ----

  /** One frame of the input. */
  method Route(arrow: Arrow, keys: Keys, shards: nat, payload: Bytes, files: seq<Bytes>, pendings: seq<Option<Pending>>,
               ghost taken: seq<Bytes>, ghost writtens: seq<seq<Bytes>>, ghost shape: Tag -> Shape)
    returns (ok: bool, files': seq<Bytes>, pendings': seq<Option<Pending>>, ghost writtens': seq<seq<Bytes>>)
    requires 0 < shards && Lawful(arrow)
    requires AllDone(arrow, keys, shards, taken, files, writtens, pendings, shape)
    ensures ok ==> AllDone(arrow, keys, shards, taken + [payload], files', writtens', pendings', shape)
    ensures ok ==> Splittable(arrow, keys, payload)
    ensures Splittable(arrow, keys, payload) && OneSchema(arrow, keys, taken + [payload], shape) ==> ok
  {
    hide ShardDone, OneSchema;
    files', pendings', writtens', ok := files, pendings, writtens, false;
    var field := ListedField(payload, keys);
    if field.Some? {
      var frame := arrow.decode(payload);
      if frame == None {
        return;
      }
      var (tag, b) := frame.value;
      var subs := ShardBatch(b, field.value, shards);
      if subs == None {
        return;
      }
      ok, files', pendings', writtens' :=
        AddParts(arrow, shards, tag, b, subs.value, files, pendings, keys, field.value, taken, payload, writtens, shape);
    } else {
      forall i | 0 <= i < shards
        ensures i == 0 ==> ShardDone(arrow, keys, shards, taken + [payload], i, files[i] + EncodeFrame(payload),
                                     writtens[i] + [payload], pendings[i], shape)
        ensures i != 0 ==> ShardDone(arrow, keys, shards, taken + [payload], i, files[i], writtens[i], pendings[i], shape)
      {
        RawStep(arrow, keys, shards, taken, payload, i, files[i], writtens[i], pendings[i], shape);
      }
      files' := files[0 := files[0] + EncodeFrame(payload)];
      writtens' := writtens[0 := writtens[0] + [payload]];
      ok := true;
    }
  }

  lemma NothingTaken(arrow: Arrow, keys: Keys, shards: nat, shape: Tag -> Shape)
    requires 0 < shards
    ensures AllDone(arrow, keys, shards, [], seq(shards, _ => []), seq(shards, _ => []), seq(shards, _ => None), shape)
  {
  }

  /** `shard_frames`, on the bytes of the input and of the shard files. */
  method ShardFile(arrow: Arrow, keys: Keys, shardsAsked: nat, input: Bytes, ghost shape: Tag -> Shape)
    returns (ok: bool, files: seq<Bytes>, ghost writtens: seq<seq<Bytes>>)
    requires Lawful(arrow)
    ensures ok ==> ReadAll(input).Some? && |files| == |writtens| == AtLeastOne(shardsAsked)
    ensures ok ==> forall i :: 0 <= i < |files| ==>
      Finished(arrow, keys, AtLeastOne(shardsAsked), ReadAll(input).value, i, files[i], writtens[i])
    ensures ok ==> AllSplittable(arrow, keys, ReadAll(input).value)
    ensures ReadAll(input).Some? && AllSplittable(arrow, keys, ReadAll(input).value) ==>
              OneSchema(arrow, keys, ReadAll(input).value, shape) ==> ok
  {
    hide ParseFrame, Splittable, ShardDone, Finished;
    var shards := AtLeastOne(shardsAsked);
    files, writtens := seq(shards, _ => []), seq(shards, _ => []);
    var pendings: seq<Option<Pending>> := seq(shards, _ => None);
    NothingTaken(arrow, keys, shards, shape);
    var reader := new Reader(input);
    ghost var taken: seq<Bytes> := [];
    ThenThen([], [], ReadAll(input));
    while true
      invariant reader.Valid() && fresh(reader)
      invariant ReadAll(input) == Then(taken, ReadAll(reader.Remaining()))
      invariant AllDone(arrow, keys, shards, taken, files, writtens, pendings, shape)
      invariant AllSplittable(arrow, keys, taken)
      decreases |reader.Remaining()|
    {
      ghost var before := reader.Remaining();
      var next := reader.ReadFrame();
      if next.Bad? {
        return false, files, writtens;
      }
      if next.End? {
        break;
      }
      ThenThen(taken, [next.payload], ReadAll(reader.Remaining()));
      ok, files, pendings, writtens := Route(arrow, keys, shards, next.payload, files, pendings, taken, writtens, shape);
      taken := taken + [next.payload];
      if !ok {
        return;
      }
    }
    assert taken + [] == taken;
    ok, files, writtens := FinishAll(arrow, shards, files, pendings, keys, taken, writtens, shape);
  }

  function AtLeastOne(n: nat): nat {
    if n < 1 then 1 else n
  }

  // ---- what the shares amount to ----

  /** The rows that all shards below `n` get under `tag`, taken together. */
  ghost function AllShares(arrow: Arrow, keys: Keys, shards: nat, ps: seq<Bytes>, tag: Tag, n: nat): multiset<Row>
    requires 0 < shards
  {
    if n == 0 then multiset{}
    else AllShares(arrow, keys, shards, ps, tag, n - 1) + multiset(AllIncoming(arrow, keys, shards, ps, n - 1, tag))
  }

  lemma OneFrame(arrow: Arrow, keys: Keys, shards: nat, p: Bytes, i: nat, tag: Tag)
    requires 0 < shards
    ensures AllIncoming(arrow, keys, shards, [p], i, tag) == Incoming(arrow, keys, shards, p, i, tag)
    ensures AllIncoming(arrow, keys, shards, [], i, tag) == []
  {
    hide Incoming;
    assert [p][..0] == [];
  }

  lemma {:induction false} SharesOneMore(arrow: Arrow, keys: Keys, shards: nat, ps: seq<Bytes>, p: Bytes, tag: Tag, n: nat)
    requires 0 < shards
    ensures AllShares(arrow, keys, shards, ps + [p], tag, n) ==
            AllShares(arrow, keys, shards, ps, tag, n) + AllShares(arrow, keys, shards, [p], tag, n)
  {
    hide Incoming, AllIncoming;
    if n > 0 {
      hide AllShares;
      ShareStep(arrow, keys, shards, ps + [p], tag, n);
      ShareStep(arrow, keys, shards, ps, tag, n);
      ShareStep(arrow, keys, shards, [p], tag, n);
      SharesOneMore(arrow, keys, shards, ps, p, tag, n - 1);
      OneFrame(arrow, keys, shards, p, n - 1, tag);
      MoreIncoming(arrow, keys, shards, ps, p, n - 1, tag);
      AddTogether(AllShares(arrow, keys, shards, ps, tag, n - 1), AllIncoming(arrow, keys, shards, ps, n - 1, tag),
                  AllShares(arrow, keys, shards, [p], tag, n - 1), Incoming(arrow, keys, shards, p, n - 1, tag));
    }
  }

  lemma ShareStep(arrow: Arrow, keys: Keys, shards: nat, ps: seq<Bytes>, tag: Tag, n: nat)
    requires 0 < shards && 0 < n
    ensures AllShares(arrow, keys, shards, ps, tag, n) ==
      AllShares(arrow, keys, shards, ps, tag, n - 1) + multiset(AllIncoming(arrow, keys, shards, ps, n - 1, tag))
  {
  }

  lemma AddTogether<X>(all: multiset<X>, before: seq<X>, one: multiset<X>, now: seq<X>)
    ensures all + one + multiset(before + now) == (all + multiset(before)) + (one + multiset(now))
  {
    assert multiset(before + now) == multiset(before) + multiset(now);
  }

  lemma MoreIncoming(arrow: Arrow, keys: Keys, shards: nat, ps: seq<Bytes>, p: Bytes, i: nat, tag: Tag)
    requires 0 < shards
    ensures AllIncoming(arrow, keys, shards, ps + [p], i, tag) ==
            AllIncoming(arrow, keys, shards, ps, i, tag) + Incoming(arrow, keys, shards, p, i, tag)
  {
    hide Incoming;
    assert (ps + [p])[..|ps|] == ps;
  }

  lemma {:induction false} NothingShared(arrow: Arrow, keys: Keys, shards: nat, tag: Tag, n: nat)
    requires 0 < shards
    ensures AllShares(arrow, keys, shards, [], tag, n) == multiset{}
  {
    if n > 0 {
      NothingShared(arrow, keys, shards, tag, n - 1);
    }
  }

  /** A listed frame's rows, under its own tag, are its batch's parts; under another tag it sends nothing. */
  lemma {:induction false} SharesOfOne(arrow: Arrow, keys: Keys, shards: nat, p: Bytes, t: Tag, b: Batch, field: Field,
                                       tag: Tag, n: nat)
    requires 0 < shards && Listed(arrow, keys, p, t, b, field) && Regular(b)
    ensures AllShares(arrow, keys, shards, [p], tag, n) ==
            if t == tag then PartsTogether(b, field, shards, n, |b.rows|) else multiset{}
  {
    hide Incoming, AllIncoming, Listed, Part;
    if n > 0 {
      SharesOfOne(arrow, keys, shards, p, t, b, field, tag, n - 1);
      OneFrame(arrow, keys, shards, p, n - 1, tag);
      ListedFacts(arrow, keys, shards, p, t, b, field, n - 1);
    }
  }

  lemma {:induction false} SharesOfUnlisted(arrow: Arrow, keys: Keys, shards: nat, p: Bytes, tag: Tag, n: nat)
    requires 0 < shards && ListedField(p, keys) == None
    ensures AllShares(arrow, keys, shards, [p], tag, n) == multiset{}
  {
    hide ListedField, AllIncoming, PartOf;
    if n > 0 {
      SharesOfUnlisted(arrow, keys, shards, p, tag, n - 1);
      OneFrame(arrow, keys, shards, p, n - 1, tag);
    }
  }

  /** The rows one frame brings under a listed tag are exactly what it sends to all shards together. */
  lemma FrameIsShared(arrow: Arrow, keys: Keys, shards: nat, p: Bytes, tag: Tag)
    requires 0 < shards && Lawful(arrow) && tag in keys && Splittable(arrow, keys, p)
    ensures AllShares(arrow, keys, shards, [p], tag, shards) == multiset(RowsIn(arrow, p, tag))
  {
    hide Part, PartsTogether, AllShares, AllIncoming;
    var field := ListedField(p, keys);
    if field == None {
      SharesOfUnlisted(arrow, keys, shards, p, tag, shards);
    } else {
      var (t, b) := arrow.decode(p).value;
      SharesOfOne(arrow, keys, shards, p, t, b, field.value, tag, shards);
      PartsAreTheBatch(b, field.value, shards, |b.rows|);
      assert b.rows[..|b.rows|] == b.rows;
    }
  }

  /** Nothing is lost, duplicated or retagged: the shards' rows under a listed tag are the input's. */
  lemma {:induction false} SharesAreTheInput(arrow: Arrow, keys: Keys, shards: nat, ps: seq<Bytes>, tag: Tag)
    requires 0 < shards && Lawful(arrow) && tag in keys && AllSplittable(arrow, keys, ps)
    ensures AllShares(arrow, keys, shards, ps, tag, shards) == multiset(RowsOf(arrow, ps, tag))
  {
    hide AllShares, RowsIn, Splittable, Lawful;
    if ps == [] {
      NothingShared(arrow, keys, shards, tag, shards);
    } else {
      var n := |ps| - 1;
      assert ps == ps[..n] + [ps[n]];
      SharesAreTheInput(arrow, keys, shards, ps[..n], tag);
      SharesOneMore(arrow, keys, shards, ps[..n], ps[n], tag, shards);
      FrameIsShared(arrow, keys, shards, ps[n], tag);
    }
  }

  /** Key closure: rows of one stream with equal keys of a hashed type are in one shard, whichever frames they came in. */
  lemma KeyClosure(arrow: Arrow, keys: Keys, shards: nat, ps: seq<Bytes>, tag: Tag, i: nat, j: nat, r: Row, q: Row)
    requires 0 < shards && Lawful(arrow) && tag in keys
    requires r in AllIncoming(arrow, keys, shards, ps, i, tag) && q in AllIncoming(arrow, keys, shards, ps, j, tag)
    ensures keys[tag] in r && keys[tag] in q
    ensures r[keys[tag]] == q[keys[tag]] && !r[keys[tag]].OtherCell? ==> i == j
  {
    hide AllIncoming;
    RowFollowsItsKey(arrow, keys, shards, ps, tag, i, r);
    RowFollowsItsKey(arrow, keys, shards, ps, tag, j, q);
  }

  lemma {:induction false} RowFollowsItsKey(arrow: Arrow, keys: Keys, shards: nat, ps: seq<Bytes>, tag: Tag, i: nat, r: Row)
    requires 0 < shards && Lawful(arrow) && tag in keys
    requires r in AllIncoming(arrow, keys, shards, ps, i, tag)
    ensures keys[tag] in r
    ensures !r[keys[tag]].OtherCell? ==> RowShard(r[keys[tag]], 0, shards) == i
  {
    hide RowShard;
    var n := |ps| - 1;
    if r in AllIncoming(arrow, keys, shards, ps[..n], i, tag) {
      RowFollowsItsKey(arrow, keys, shards, ps[..n], tag, i, r);
    } else {
      assert r in Incoming(arrow, keys, shards, ps[n], i, tag);
      var (t, b) := arrow.decode(ps[n]).value;
      var field := ListedField(ps[n], keys).value;
      assert Listed(arrow, keys, ps[n], t, b, field) && t == tag;
      ListedFacts(arrow, keys, shards, ps[n], t, b, field, i);
      PartFollowsTheKey(b, field, shards, i, |b.rows|, r);
    }
  }
}
