/**
 A pair of functions that meets the laws asked of the Arrow library: every batch has bytes of its
 own, written in a plain prefix code, and a payload is decoded by the batch it is the encoding of.
 */
module ArrowCodes {
  import opened Wrappers
  import opened FrameCodec
  import opened KeySharding
  import opened ShardFrames

  // ---- prefix codes ----

  /** From a code word and whatever follows it, both can be told. */
  ghost predicate PrefixCode<T(!new)>(code: T -> Bytes) {
    forall x, y, r, t :: code(x) + r == code(y) + t ==> x == y && r == t
  }

  function Unary(n: nat): Bytes {
    if n == 0 then [0] else [1] + Unary(n - 1)
  }

  lemma {:induction false} UnaryTells(x: nat, y: nat, r: Bytes, t: Bytes)
    requires Unary(x) + r == Unary(y) + t
    ensures x == y && r == t
  {
    assert (Unary(x) + r)[0] == Unary(x)[0] && (Unary(y) + t)[0] == Unary(y)[0];
    assert (Unary(x) + r)[1..] == Unary(x)[1..] + r && (Unary(y) + t)[1..] == Unary(y)[1..] + t;
    if x > 0 && y > 0 {
      UnaryTells(x - 1, y - 1, r, t);
    } else {
      assert [] + r == r && [] + t == t;
    }
  }

  lemma FirstTells(a: Byte, b: Byte, r: Bytes, t: Bytes)
    requires [a] + r == [b] + t
    ensures a == b && r == t
  {
    assert ([a] + r)[0] == a && ([b] + t)[0] == b && ([a] + r)[1..] == r && ([b] + t)[1..] == t;
  }

  lemma After(head: Bytes, tail: Bytes, rest: Bytes)
    ensures head + tail + rest == head + (tail + rest)
  {
  }

  function Sign(n: int): Byte {
    if n < 0 then 1 else 0
  }

  function Magnitude(n: int): nat {
    if n < 0 then -n else n
  }

  function IntCode(n: int): Bytes {
    [Sign(n)] + Unary(Magnitude(n))
  }

  lemma IntTells(x: int, y: int, r: Bytes, t: Bytes)
    requires IntCode(x) + r == IntCode(y) + t
    ensures x == y && r == t
  {
    hide Unary;
    After([Sign(x)], Unary(Magnitude(x)), r);
    After([Sign(y)], Unary(Magnitude(y)), t);
    FirstTells(Sign(x), Sign(y), Unary(Magnitude(x)) + r, Unary(Magnitude(y)) + t);
    UnaryTells(Magnitude(x), Magnitude(y), r, t);
  }

  function Items<T>(code: T -> Bytes, s: seq<T>): Bytes {
    if s == [] then [] else code(s[0]) + Items(code, s[1..])
  }

  function SeqCode<T>(code: T -> Bytes, s: seq<T>): Bytes {
    Unary(|s|) + Items(code, s)
  }

  lemma {:induction false} ItemsTell<T(!new)>(code: T -> Bytes, x: seq<T>, y: seq<T>, r: Bytes, t: Bytes)
    requires PrefixCode(code) && |x| == |y| && Items(code, x) + r == Items(code, y) + t
    ensures x == y && r == t
  {
    if x == [] {
      assert [] + r == r && [] + t == t;
    } else {
      After(code(x[0]), Items(code, x[1..]), r);
      After(code(y[0]), Items(code, y[1..]), t);
      ItemsTell(code, x[1..], y[1..], r, t);
      assert x == [x[0]] + x[1..] && y == [y[0]] + y[1..];
    }
  }

  lemma SeqTells<T(!new)>(code: T -> Bytes, x: seq<T>, y: seq<T>, r: Bytes, t: Bytes)
    requires PrefixCode(code) && SeqCode(code, x) + r == SeqCode(code, y) + t
    ensures x == y && r == t
  {
    After(Unary(|x|), Items(code, x), r);
    After(Unary(|y|), Items(code, y), t);
    UnaryTells(|x|, |y|, Items(code, x) + r, Items(code, y) + t);
    ItemsTell(code, x, y, r, t);
  }

  // ---- the parts of a batch ----

  function ByteCode(): Byte -> Bytes {
    (b: Byte) => [b]
  }

  lemma ByteIsPrefix()
    ensures PrefixCode(ByteCode())
  {
    forall x: Byte, y: Byte, r: Bytes, t: Bytes | ByteCode()(x) + r == ByteCode()(y) + t ensures x == y && r == t {
      FirstTells(x, y, r, t);
    }
  }

  function CharCode(): char -> Bytes {
    (c: char) => Unary(c as int)
  }

  lemma CharIsPrefix()
    ensures PrefixCode(CharCode())
  {
    forall x: char, y: char, r: Bytes, t: Bytes | CharCode()(x) + r == CharCode()(y) + t ensures x == y && r == t {
      UnaryTells(x as int, y as int, r, t);
    }
  }

  function FieldCode(): Field -> Bytes {
    (f: Field) => SeqCode(CharCode(), f)
  }

  lemma FieldIsPrefix()
    ensures PrefixCode(FieldCode())
  {
    CharIsPrefix();
    forall x: Field, y: Field, r: Bytes, t: Bytes | FieldCode()(x) + r == FieldCode()(y) + t ensures x == y && r == t {
      SeqTells(CharCode(), x, y, r, t);
    }
  }

  function CellBody(c: Cell): Bytes {
    match c
    case Int64(i) => IntCode(i)
    case Int32(i) => IntCode(i)
    case Utf8(text) => SeqCode(ByteCode(), text)
    case LargeUtf8(text) => SeqCode(ByteCode(), text)
    case OtherCell(x) => IntCode(x)
  }

  function CellKind(c: Cell): Byte {
    match c
    case Int64(_) => 0
    case Int32(_) => 1
    case Utf8(_) => 2
    case LargeUtf8(_) => 3
    case OtherCell(_) => 4
  }

  function CellCode(c: Cell): Bytes {
    [CellKind(c)] + CellBody(c)
  }

  lemma CellTells(x: Cell, y: Cell, r: Bytes, t: Bytes)
    requires CellCode(x) + r == CellCode(y) + t
    ensures x == y && r == t
  {
    hide IntCode, SeqCode;
    After([CellKind(x)], CellBody(x), r);
    After([CellKind(y)], CellBody(y), t);
    FirstTells(CellKind(x), CellKind(y), CellBody(x) + r, CellBody(y) + t);
    ByteIsPrefix();
    match (x, y)
    case (Int64(i), Int64(j)) => IntTells(i, j, r, t);
    case (Int32(i), Int32(j)) => IntTells(i, j, r, t);
    case (Utf8(i), Utf8(j)) => SeqTells(ByteCode(), i, j, r, t);
    case (LargeUtf8(i), LargeUtf8(j)) => SeqTells(ByteCode(), i, j, r, t);
    case (OtherCell(i), OtherCell(j)) => IntTells(i, j, r, t);
    case _ =>
  }

  type Named = (Field, Cell)

  function NamedCode(): Named -> Bytes {
    (e: Named) => FieldCode()(e.0) + CellCode(e.1)
  }

  lemma NamedIsPrefix()
    ensures PrefixCode(NamedCode())
  {
    hide FieldCode, CellCode;
    FieldIsPrefix();
    forall x: Named, y: Named, r: Bytes, t: Bytes | NamedCode()(x) + r == NamedCode()(y) + t ensures x == y && r == t {
      After(FieldCode()(x.0), CellCode(x.1), r);
      After(FieldCode()(y.0), CellCode(y.1), t);
      assert x.0 == y.0 && CellCode(x.1) + r == CellCode(y.1) + t;
      CellTells(x.1, y.1, r, t);
    }
  }

  // ---- sets and maps in some fixed order ----

  ghost function Listed<T(!new)>(s: set<T>): (l: seq<T>)
    ensures forall x :: x in l <==> x in s
    decreases s
  {
    if s == {} then [] else
      var x :| x in s;
      [x] + Listed(s - {x})
  }

  lemma ListedTells<T(!new)>(s: set<T>, t: set<T>)
    requires Listed(s) == Listed(t)
    ensures s == t
  {
    forall x ensures x in s <==> x in t {
      assert x in Listed(s) <==> x in Listed(t);
    }
  }

  ghost function NamedCells(row: Row): set<Named> {
    set f | f in row :: (f, row[f])
  }

  lemma NamedCellsTell(x: Row, y: Row)
    requires NamedCells(x) == NamedCells(y)
    ensures x == y
  {
    forall f | f in x ensures f in y && y[f] == x[f] {
      assert (f, x[f]) in NamedCells(y);
    }
    forall f | f in y ensures f in x {
      assert (f, y[f]) in NamedCells(x);
    }
  }

  ghost function RowCode(): Row -> Bytes {
    (row: Row) => SeqCode(NamedCode(), Listed(NamedCells(row)))
  }

  lemma RowIsPrefix()
    ensures PrefixCode(RowCode())
  {
    hide SeqCode, NamedCode, Listed, NamedCells;
    NamedIsPrefix();
    forall x: Row, y: Row, r: Bytes, t: Bytes | RowCode()(x) + r == RowCode()(y) + t ensures x == y && r == t {
      SeqTells(NamedCode(), Listed(NamedCells(x)), Listed(NamedCells(y)), r, t);
      ListedTells(NamedCells(x), NamedCells(y));
      NamedCellsTell(x, y);
    }
  }

  ghost function BatchCode(b: Batch): Bytes {
    SeqCode(FieldCode(), Listed(b.columns)) + (IntCode(b.schema) + SeqCode(RowCode(), b.rows))
  }

  lemma BatchTells(x: Batch, y: Batch)
    requires BatchCode(x) == BatchCode(y)
    ensures x == y
  {
    hide SeqCode, IntCode, FieldCode, RowCode, Listed;
    var restX, restY := SeqCode(RowCode(), x.rows), SeqCode(RowCode(), y.rows);
    FieldIsPrefix();
    SeqTells(FieldCode(), Listed(x.columns), Listed(y.columns), IntCode(x.schema) + restX, IntCode(y.schema) + restY);
    ListedTells(x.columns, y.columns);
    IntTells(x.schema, y.schema, restX, restY);
    RowIsPrefix();
    assert restX + [] == restX && restY + [] == restY;
    SeqTells(RowCode(), x.rows, y.rows, [], []);
  }

  // ---- the pair ----

  ghost function Encoded(tag: Tag, b: Batch): Bytes {
    if IsTag(tag) then Be32(|tag|) + tag + BatchCode(b) else []
  }

  ghost predicate Encodes(p: Bytes, tag: Tag, b: Batch) {
    IsTag(tag) && Regular(b) && Encoded(tag, b) == p
  }

  ghost function Decoded(p: Bytes): (r: Option<(Tag, Batch)>)
    ensures r.Some? ==> Encodes(p, r.value.0, r.value.1)
    ensures r.None? ==> forall tag, b :: !Encodes(p, tag, b)
  {
    if exists tag, b :: Encodes(p, tag, b) then
      var tag, b :| Encodes(p, tag, b);
      Some((tag, b))
    else None
  }

  lemma EncodedTells(p: Bytes, tag: Tag, b: Batch, tag': Tag, b': Batch)
    requires Encodes(p, tag, b) && Encodes(p, tag', b')
    ensures FrameTag(p) == Some(tag) && tag == tag' && b == b'
  {
    hide IsUtf8, BatchCode, Be32;
    assert Be32(|tag|) + tag <= p && Be32(|tag'|) + tag' <= p;
    TagExactly(p, tag);
    TagExactly(p, tag');
    var head := Be32(|tag|) + tag;
    assert p[|head|..] == BatchCode(b) && p[|head|..] == BatchCode(b');
    BatchTells(b, b');
  }

  /** So the laws can be met. */
  lemma LawfulArrowExists()
    ensures exists arrow :: Lawful(arrow)
  {
    hide IsTag, Regular, Encoded, FrameTag;
    var arrow := Arrow((tag, b) => Encoded(tag, b), p => Decoded(p));
    forall tag, b | IsTag(tag) && Regular(b) ensures arrow.decode(arrow.encode(tag, b)) == Some((tag, b)) {
      var p := Encoded(tag, b);
      assert Encodes(p, tag, b);
      var back := Decoded(p).value;
      EncodedTells(p, tag, b, back.0, back.1);
    }
    forall p | arrow.decode(p).Some?
      ensures FrameTag(p) == Some(arrow.decode(p).value.0) && Regular(arrow.decode(p).value.1)
    {
      var back := Decoded(p).value;
      EncodedTells(p, back.0, back.1, back.0, back.1);
    }
    assert Lawful(arrow);
  }
}
