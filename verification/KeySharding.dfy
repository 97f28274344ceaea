/**
 Splitting one batch by key: every row goes to the shard that its key's hash says.
 */
module KeySharding {
  import opened Wrappers
  import opened FrameCodec

  type Tag = Bytes
  type Field = string

  const TARGET_ROWS: nat := 100_000

  // ---- rows and keys ----

  /** A cell of a key column: the four hashed types, and any other type. */
  datatype Cell = Int64(i: int) | Int32(i: int) | Utf8(text: Bytes) | LargeUtf8(text: Bytes) | OtherCell(x: int)

  type Row = map<Field, Cell>

  datatype Batch = Batch(columns: set<Field>, schema: int, rows: seq<Row>)

  /** Every row has the batch's columns. */
  ghost predicate Regular(b: Batch) {
    forall r | r in b.rows :: b.columns <= r.Keys
  }

  function LeBytes(u: nat, count: nat): Bytes {
    if count == 0 then [] else [u % 256] + LeBytes(u / 256, count - 1)
  }

  /** The bit pattern of a signed value in `bits` bits. */
  function Unsigned(v: int, bits: nat): nat
    requires bits == 0x1_0000_0000 || bits == 0x1_0000_0000_0000_0000
  {
    v % bits
  }

  function KeyBytes(cell: Cell, row: nat): Bytes {
    match cell
    case Int64(v) => LeBytes(Unsigned(v, 0x1_0000_0000_0000_0000), 8)
    case Int32(v) => LeBytes(Unsigned(v, 0x1_0000_0000), 4)
    case Utf8(text) => text
    case LargeUtf8(text) => text
    case OtherCell(_) => LeBytes(row % 0x1_0000_0000_0000_0000, 8)
  }

  const WORD: nat := 0x1_0000_0000_0000_0000
  const FNV_OFFSET: nat := 0xcbf2_9ce4_8422_2325
  const FNV_PRIME: nat := 0x0000_0100_0000_01b3

  /** Exclusive or of the low `bits` bits. */
  function Xor(a: nat, b: nat, bits: nat): nat {
    if bits == 0 then 0 else (a + b) % 2 + 2 * Xor(a / 2, b / 2, bits - 1)
  }

  /** The state with a byte mixed into its low end. */
  function Mixed(h: nat, b: Byte): nat {
    h / 256 * 256 + Xor(h % 256, b, 8)
  }

  /** The mixed state times the prime, wrapping around. */
  function FnvStep(h: nat, b: Byte): (h': nat)
    ensures h' < WORD
  {
    Mixed(h, b) * FNV_PRIME % WORD
  }

  /** The hash of a byte string, the last byte mixed in last. */
  function FnvState(bytes: Bytes): (h: nat)
    ensures h < WORD
  {
    if bytes == [] then FNV_OFFSET else FnvStep(FnvState(bytes[..|bytes| - 1]), bytes[|bytes| - 1])
  }

  /** `fnv1a`: the accumulator loop. */
  method Fnv1a(bytes: Bytes) returns (h: nat)
    ensures h == FnvState(bytes)
  {
    h := FNV_OFFSET;
    for i := 0 to |bytes|
      invariant h == FnvState(bytes[..i])
    {
      assert bytes[..i + 1][..i] == bytes[..i];
      h := FnvStep(h, bytes[i]);
    }
    assert bytes[..|bytes|] == bytes;
  }

  /** `row_shard`: the shard of the row at position `row` of its batch. */
  function RowShard(cell: Cell, row: nat, shards: nat): (i: nat)
    requires 0 < shards
    ensures i < shards
  {
    FnvState(KeyBytes(cell, row)) % shards
  }

  method ShardOfRow(cell: Cell, row: nat, shards: nat) returns (i: nat)
    requires 0 < shards
    ensures i == RowShard(cell, row, shards)
  {
    var h := Fnv1a(KeyBytes(cell, row));
    i := h % shards;
  }

  // ---- what the hash tells apart ----

  function Pow2(k: nat): nat {
    if k == 0 then 1 else 2 * Pow2(k - 1)
  }

  lemma XorBits(a: nat, b: nat, bits: nat)
    requires 0 < bits
    ensures Xor(a, b, bits) % 2 == (a + b) % 2
    ensures Xor(a, b, bits) / 2 == Xor(a / 2, b / 2, bits - 1)
  {
  }

  lemma HalvesOrParities(a: nat, c: nat)
    ensures a == c <==> a % 2 == c % 2 && a / 2 == c / 2
  {
  }

  lemma ParityOfSum(a: nat, b: nat, c: nat, d: nat)
    requires (a % 2 == c % 2) != (b % 2 == d % 2)
    ensures (a + b) % 2 != (c + d) % 2
  {
  }

  /** Changing exactly one of the operands changes the exclusive or. */
  lemma {:induction false} XorTellsApart(a: nat, b: nat, c: nat, d: nat, bits: nat)
    requires a < Pow2(bits) && b < Pow2(bits) && c < Pow2(bits) && d < Pow2(bits)
    requires (a == c) != (b == d)
    ensures Xor(a, b, bits) != Xor(c, d, bits)
  {
    hide Xor;
    if bits > 0 {
      XorBits(a, b, bits);
      XorBits(c, d, bits);
      HalvesOrParities(a, c);
      HalvesOrParities(b, d);
      if (a % 2 == c % 2) != (b % 2 == d % 2) {
        ParityOfSum(a, b, c, d);
      } else if a % 2 == c % 2 {
        XorTellsApart(a / 2, b / 2, c / 2, d / 2, bits - 1);
      }
    }
  }

  lemma {:induction false} XorFits(a: nat, b: nat, bits: nat)
    ensures Xor(a, b, bits) < Pow2(bits)
  {
    if bits > 0 {
      XorFits(a / 2, b / 2, bits - 1);
    }
  }

  lemma Pow2Of8()
    ensures Pow2(8) == 256
  {
    assert Pow2(4) == 16 && Pow2(6) == 4 * Pow2(4) && Pow2(8) == 4 * Pow2(6);
  }

  lemma JoinedParts(p: nat, r: nat)
    requires r < 256
    ensures (p * 256 + r) / 256 == p && (p * 256 + r) % 256 == r
  {
  }

  lemma MixedParts(h: nat, b: Byte)
    ensures Mixed(h, b) / 256 == h / 256 && Mixed(h, b) % 256 == Xor(h % 256, b, 8)
    ensures h < WORD ==> Mixed(h, b) < WORD
  {
    Pow2Of8();
    XorFits(h % 256, b, 8);
    hide Xor, Pow2;
    var p, r := h / 256, Xor(h % 256, b, 8);
    JoinedParts(p, r);
    assert h < WORD ==> p <= WORD / 256 - 1;
  }

  lemma SamePartsSame(x: nat, y: nat)
    requires x / 256 == y / 256 && x % 256 == y % 256
    ensures x == y
  {
  }

  lemma MixedTellsApart(h: nat, b: Byte, g: nat, c: Byte)
    requires (h == g) != (b == c)
    ensures Mixed(h, b) != Mixed(g, c)
  {
    MixedParts(h, b);
    MixedParts(g, c);
    Pow2Of8();
    hide Xor, Mixed, Pow2;
    if h / 256 == g / 256 {
      if h % 256 == g % 256 {
        SamePartsSame(h, g);
      }
      XorTellsApart(h % 256, b, g % 256, c, 8);
    }
  }

  /** The prime is odd, so it has an inverse modulo 2^64. */
  const FNV_INVERSE: nat := 0xce96_5057_aff6_957b

  lemma Cancels(d: int, p: int, inverse: int, m: int, k: int, q: int)
    requires p * inverse == 1 + m * k && d * p == m * q
    ensures d == m * (q * inverse - d * k)
  {
    assert d * (p * inverse) == d * p * inverse;
    assert d * (1 + m * k) == d + m * (d * k);
    assert m * q * inverse == m * (q * inverse);
  }

  lemma MultiplesAreLarge(m: int, z: int)
    requires 0 < m && z != 0
    ensures m * z >= m || m * z <= -m
  {
    if z > 0 {
      assert m * z >= m * 1;
    } else {
      assert m * z <= m * -1;
    }
  }

  lemma OnlyZeroIsSmall(d: int, m: int, z: int)
    requires d == m * z && -m < d < m
    ensures d == 0
  {
    if z != 0 {
      MultiplesAreLarge(m, z);
    }
  }

  lemma SameRemainder(x: int, y: int, m: int) returns (q: int)
    requires 0 < m && x % m == y % m
    ensures x - y == m * q
  {
    q := x / m - y / m;
    assert x == m * (x / m) + x % m && y == m * (y / m) + y % m;
  }

  lemma MultiplyTellsApart(x: nat, y: nat)
    requires x < WORD && y < WORD && x * FNV_PRIME % WORD == y * FNV_PRIME % WORD
    ensures x == y
  {
    var q := SameRemainder(x * FNV_PRIME, y * FNV_PRIME, WORD);
    var k := FNV_PRIME * FNV_INVERSE / WORD;
    Cancels(x - y, FNV_PRIME, FNV_INVERSE, WORD, k, q);
    OnlyZeroIsSmall(x - y, WORD, q * FNV_INVERSE - (x - y) * k);
  }

  /** A step loses nothing: from one state, different bytes lead to different states, and so does one byte from two. */
  lemma StepTellsApart(h: nat, b: Byte, g: nat, c: Byte)
    requires h < WORD && g < WORD && (h == g) != (b == c)
    ensures FnvStep(h, b) != FnvStep(g, c)
  {
    MixedTellsApart(h, b, g, c);
    MixedParts(h, b);
    MixedParts(g, c);
    hide Mixed, Xor;
    if FnvStep(h, b) == FnvStep(g, c) {
      MultiplyTellsApart(Mixed(h, b), Mixed(g, c));
    }
  }

  /** The two strings differ in the byte at `k` and nowhere else. */
  ghost predicate OneByteApart(s: Bytes, t: Bytes, k: nat) {
    |s| == |t| && k < |s| && s[k] != t[k] && forall i :: 0 <= i < |s| && i != k ==> s[i] == t[i]
  }

  /** Strings that differ in a single byte never collide. */
  lemma {:induction false} OneByteChangesTheHash(s: Bytes, t: Bytes, k: nat)
    requires OneByteApart(s, t, k)
    ensures FnvState(s) != FnvState(t)
    decreases |s|
  {
    hide FnvStep;
    var n := |s| - 1;
    if k == n {
      assert s[..n] == t[..n];
    } else {
      assert OneByteApart(s[..n], t[..n], k);
      OneByteChangesTheHash(s[..n], t[..n], k);
    }
    StepTellsApart(FnvState(s[..n]), s[n], FnvState(t[..n]), t[n]);
  }

  lemma EvenDifference(r: int, x: int, z: int)
    requires r == x + 2 * z
    ensures r % 2 == x % 2
  {
  }

  lemma OddTimes(x: int, j: int, h: int, q: int, r: int)
    requires x * (2 * j + 1) == 2 * h * q + r
    ensures r % 2 == x % 2
  {
    assert x * (2 * j + 1) == 2 * (x * j) + x;
    assert 2 * h * q == 2 * (h * q);
    EvenDifference(r, x, x * j - h * q);
  }

  /** Multiplying by the odd prime, modulo an even word, keeps the lowest bit. */
  lemma ProductParity(x: nat)
    ensures x * FNV_PRIME % WORD % 2 == x % 2
  {
    var q, r := x * FNV_PRIME / WORD, x * FNV_PRIME % WORD;
    OddTimes(x, FNV_PRIME / 2, WORD / 2, q, r);
  }

  lemma MixedParity(h: nat, b: Byte)
    ensures Mixed(h, b) % 2 == (h + b) % 2
  {
    XorBits(h % 256, b, 8);
    var p, x := h / 256, Xor(h % 256, b, 8);
    hide Xor;
    EvenDifference(Mixed(h, b), x, p * 128);
    EvenDifference(h + b, h % 256 + b, p * 128);
  }

  /** The lowest bit of the state is the parity of the bytes. */
  lemma StepParity(h: nat, b: Byte)
    ensures FnvStep(h, b) % 2 == (h + b) % 2
  {
    ProductParity(Mixed(h, b));
    MixedParity(h, b);
    hide Mixed;
  }

  function Sum(bytes: Bytes): nat {
    if bytes == [] then 0 else Sum(bytes[..|bytes| - 1]) + bytes[|bytes| - 1]
  }

  /** The last bit of the hash is the last bit of the sum of the bytes, turned over. */
  lemma {:induction false} HashParity(bytes: Bytes)
    ensures FnvState(bytes) % 2 == (1 + Sum(bytes)) % 2
  {
    hide FnvStep;
    if bytes != [] {
      var n := |bytes| - 1;
      HashParity(bytes[..n]);
      StepParity(FnvState(bytes[..n]), bytes[n]);
    }
  }

  lemma {:induction false} OneByteInTheSum(s: Bytes, t: Bytes, k: nat)
    requires OneByteApart(s, t, k)
    ensures Sum(s) + t[k] == Sum(t) + s[k]
    decreases |s|
  {
    var n := |s| - 1;
    if k == n {
      assert s[..n] == t[..n];
    } else {
      assert OneByteApart(s[..n], t[..n], k);
      OneByteInTheSum(s[..n], t[..n], k);
    }
  }

  /** So one byte whose last bit differs changes the last bit of the hash. */
  lemma OddByteChangesTheParity(s: Bytes, t: Bytes, k: nat)
    requires OneByteApart(s, t, k) && (s[k] as int + t[k] as int) % 2 == 1
    ensures FnvState(s) % 2 != FnvState(t) % 2
  {
    hide FnvState, Sum;
    HashParity(s);
    HashParity(t);
    OneByteInTheSum(s, t, k);
    ParitiesDiffer(Sum(s), Sum(t), s[k], t[k]);
  }

  lemma ParitiesDiffer(x: nat, y: nat, b: nat, c: nat)
    requires x + c == y + b && (b + c) % 2 == 1
    ensures (1 + x) % 2 != (1 + y) % 2
  {
  }

  // ---- splitting one batch ----

  /** The rows among the first `k` of a batch that belong to shard `i`, in order. */
  function Part(b: Batch, field: Field, shards: nat, i: nat, k: nat): seq<Row>
    requires 0 < shards && k <= |b.rows|
    requires forall r | r in b.rows :: field in r
  {
    if k == 0 then []
    else
      var last := b.rows[k - 1];
      Part(b, field, shards, i, k - 1) + (if RowShard(last[field], k - 1, shards) == i then [last] else [])
  }

  /** All of a batch's rows for shard `i`. */
  function PartOf(b: Batch, field: Field, shards: nat, i: nat): seq<Row>
    requires 0 < shards && forall r | r in b.rows :: field in r
  {
    Part(b, field, shards, i, |b.rows|)
  }

  function Filter(rows: seq<Row>, mask: seq<bool>): seq<Row>
    requires |mask| == |rows|
  {
    if rows == [] then []
    else
      var n := |rows| - 1;
      Filter(rows[..n], mask[..n]) + (if mask[n] then [rows[n]] else [])
  }

  ghost predicate MaskOf(b: Batch, field: Field, shards: nat, i: nat, mask: seq<bool>)
    requires 0 < shards && forall r | r in b.rows :: field in r
  {
    |mask| == |b.rows|
    && forall r :: 0 <= r < |mask| ==> mask[r] == (RowShard(b.rows[r][field], r, shards) == i)
  }

  lemma {:induction false} FilterIsPart(b: Batch, field: Field, shards: nat, i: nat, mask: seq<bool>, k: nat)
    requires 0 < shards && (forall r | r in b.rows :: field in r) && MaskOf(b, field, shards, i, mask)
    requires k <= |b.rows|
    ensures Filter(b.rows[..k], mask[..k]) == Part(b, field, shards, i, k)
  {
    hide RowShard;
    if k > 0 {
      assert b.rows[..k][..k - 1] == b.rows[..k - 1] && mask[..k][..k - 1] == mask[..k - 1];
      FilterIsPart(b, field, shards, i, mask, k - 1);
    }
  }

  lemma {:induction false} SomeMasked(rows: seq<Row>, mask: seq<bool>)
    requires |mask| == |rows|
    ensures Filter(rows, mask) == [] <==> forall r :: 0 <= r < |mask| ==> !mask[r]
  {
    if rows != [] {
      SomeMasked(rows[..|rows| - 1], mask[..|rows| - 1]);
    }
  }

  /** What `shard_batch` returns for shard `i`: nothing where no row belongs to it. */
  ghost function SubBatch(b: Batch, field: Field, shards: nat, i: nat): Option<Batch>
    requires 0 < shards && forall r | r in b.rows :: field in r
  {
    var rows := PartOf(b, field, shards, i);
    if rows == [] then None else Some(Batch(b.columns, b.schema, rows))
  }

  /** One mask per shard, filled row by row. */
  method FillMasks(b: Batch, field: Field, shards: nat) returns (masks: seq<seq<bool>>)
    requires 0 < shards && forall r | r in b.rows :: field in r
    ensures |masks| == shards
    ensures forall i :: 0 <= i < shards ==> MaskOf(b, field, shards, i, masks[i])
  {
    var rows := |b.rows|;
    hide RowShard;
    masks := seq(shards, _ => seq(rows, _ => false));
    for row := 0 to rows
      invariant |masks| == shards && forall i :: 0 <= i < shards ==> |masks[i]| == rows
      invariant forall i, q :: 0 <= i < shards && 0 <= q < rows ==>
        masks[i][q] == (q < row && RowShard(b.rows[q][field], q, shards) == i)
    {
      var target := ShardOfRow(b.rows[row][field], row, shards);
      masks := masks[target := masks[target][row := true]];
    }
  }

  /** `shard_batch`: a missing key column is an error. */
  method ShardBatch(b: Batch, field: Field, shards: nat) returns (r: Option<seq<Option<Batch>>>)
    requires 0 < shards && Regular(b)
    ensures r.Some? <==> field in b.columns
    ensures r.Some? ==> |r.value| == shards
    ensures r.Some? ==> forall i :: 0 <= i < shards ==> r.value[i] == SubBatch(b, field, shards, i)
  {
    if field !in b.columns {
      return None;
    }
    if b.rows == [] {
      return Some(seq(shards, _ => None));
    }
    hide PartOf, MaskOf, RowShard;
    var masks := FillMasks(b, field, shards);
    var out: seq<Option<Batch>> := [];
    for i := 0 to shards
      invariant |out| == i
      invariant forall j :: 0 <= j < i ==> out[j] == SubBatch(b, field, shards, j)
    {
      var sub := FilterBatch(b, field, shards, i, masks[i]);
      out := out + [sub];
    }
    return Some(out);
  }

  method FilterBatch(b: Batch, ghost field: Field, ghost shards: nat, ghost i: nat, mask: seq<bool>)
    returns (sub: Option<Batch>)
    requires 0 < shards && (forall r | r in b.rows :: field in r) && MaskOf(b, field, shards, i, mask)
    ensures sub == SubBatch(b, field, shards, i)
  {
    hide RowShard, Part, Filter;
    FilterIsPart(b, field, shards, i, mask, |b.rows|);
    assert b.rows[..|b.rows|] == b.rows && mask[..|mask|] == mask;
    SomeMasked(b.rows, mask);
    if forall q :: 0 <= q < |mask| ==> !mask[q] {
      return None;
    }
    return Some(Batch(b.columns, b.schema, Filter(b.rows, mask)));
  }

  // ---- the parts of a batch ----

  /** The rows among the first `k` in the parts of the shards below `n`, taken together. */
  ghost function PartsTogether(b: Batch, field: Field, shards: nat, n: nat, k: nat): multiset<Row>
    requires 0 < shards && k <= |b.rows| && forall r | r in b.rows :: field in r
  {
    if n == 0 then multiset{}
    else PartsTogether(b, field, shards, n - 1, k) + multiset(Part(b, field, shards, n - 1, k))
  }

  lemma PartOneMore(b: Batch, field: Field, shards: nat, i: nat, k: nat)
    requires 0 < shards && 0 < k <= |b.rows| && forall r | r in b.rows :: field in r
    ensures multiset(Part(b, field, shards, i, k)) == multiset(Part(b, field, shards, i, k - 1)) +
      if RowShard(b.rows[k - 1][field], k - 1, shards) == i then multiset{b.rows[k - 1]} else multiset{}
  {
    hide RowShard;
  }

  lemma {:induction false} OneMoreRow(b: Batch, field: Field, shards: nat, n: nat, k: nat)
    requires 0 < shards && 0 < k <= |b.rows| && forall r | r in b.rows :: field in r
    ensures PartsTogether(b, field, shards, n, k) == PartsTogether(b, field, shards, n, k - 1) +
      if RowShard(b.rows[k - 1][field], k - 1, shards) < n then multiset{b.rows[k - 1]} else multiset{}
  {
    hide RowShard, Part;
    if n > 0 {
      OneMoreRow(b, field, shards, n - 1, k);
      PartOneMore(b, field, shards, n - 1, k);
    }
  }

  lemma {:induction false} NoRows(b: Batch, field: Field, shards: nat, n: nat)
    requires 0 < shards && forall r | r in b.rows :: field in r
    ensures PartsTogether(b, field, shards, n, 0) == multiset{}
  {
    if n > 0 {
      NoRows(b, field, shards, n - 1);
    }
  }

  /** The shards' parts together are the batch: no row is lost and none is sent twice. */
  lemma {:induction false} PartsAreTheBatch(b: Batch, field: Field, shards: nat, k: nat)
    requires 0 < shards && k <= |b.rows| && forall r | r in b.rows :: field in r
    ensures PartsTogether(b, field, shards, shards, k) == multiset(b.rows[..k])
  {
    hide RowShard, Part, PartsTogether;
    if k == 0 {
      NoRows(b, field, shards, shards);
    } else {
      PartsAreTheBatch(b, field, shards, k - 1);
      OneMoreRow(b, field, shards, shards, k);
      assert b.rows[..k] == b.rows[..k - 1] + [b.rows[k - 1]];
    }
  }

  /** The number that little-endian bytes stand for. */
  function LeValue(bytes: Bytes): nat {
    if bytes == [] then 0 else bytes[0] + 256 * LeValue(bytes[1..])
  }

  lemma {:induction false} LeReadsBack(u: nat, count: nat, limit: nat)
    requires limit == Power256(count) && u < limit
    ensures |LeBytes(u, count)| == count && LeValue(LeBytes(u, count)) == u
    decreases count
  {
    if count > 0 {
      LeReadsBack(u / 256, count - 1, Power256(count - 1));
      assert LeBytes(u, count)[1..] == LeBytes(u / 256, count - 1);
    }
  }

  function Power256(k: nat): nat {
    if k == 0 then 1 else 256 * Power256(k - 1)
  }

  lemma PowersOf256()
    ensures Power256(4) == 0x1_0000_0000 && Power256(8) == WORD
  {
    assert Power256(2) == 0x1_0000 && Power256(6) == 0x1_0000_0000 * Power256(2);
  }

  /** The signed number of a bit pattern. */
  function AsSigned(u: nat, bits: nat): int {
    if u < bits / 2 then u else u - bits
  }

  ghost predicate IsInt(v: int, bits: nat) {
    -(bits / 2) <= v < bits / 2
  }

  /** What is hashed is the key: the number in eight or four bytes, or the text as it is. */
  lemma KeyBytesReadBack(cell: Cell, row: nat)
    ensures var bytes := KeyBytes(cell, row);
      match cell
      case Int64(v) => |bytes| == 8 && (IsInt(v, WORD) ==> AsSigned(LeValue(bytes), WORD) == v)
      case Int32(v) => |bytes| == 4 && (IsInt(v, 0x1_0000_0000) ==> AsSigned(LeValue(bytes), 0x1_0000_0000) == v)
      case Utf8(text) => bytes == text
      case LargeUtf8(text) => bytes == text
      case OtherCell(_) => |bytes| == 8 && (row < WORD ==> LeValue(bytes) == row)
  {
    hide LeBytes, LeValue, Power256;
    PowersOf256();
    match cell
    case Int64(v) => LeReadsBack(v % WORD, 8, WORD);
    case Int32(v) => LeReadsBack(v % 0x1_0000_0000, 4, 0x1_0000_0000);
    case OtherCell(_) => LeReadsBack(row % WORD, 8, WORD);
    case _ =>
  }

  /** With two shards the parity of the key's bytes decides. */
  lemma TwoShards(cell: Cell, row: nat)
    ensures RowShard(cell, row, 2) == (1 + Sum(KeyBytes(cell, row))) % 2
  {
    HashParity(KeyBytes(cell, row));
  }

  /** Texts that differ in one byte, and there in its last bit, part. */
  lemma TextsPart(s: Bytes, t: Bytes, k: nat, row: nat, row': nat)
    requires OneByteApart(s, t, k) && (s[k] as int + t[k] as int) % 2 == 1
    ensures RowShard(Utf8(s), row, 2) != RowShard(Utf8(t), row', 2)
    ensures RowShard(LargeUtf8(s), row, 2) != RowShard(LargeUtf8(t), row', 2)
  {
    OddByteChangesTheParity(s, t, k);
  }

  lemma LowByteApart(u: nat, v: nat, count: nat)
    requires u / 256 == v / 256 && u != v && 0 < count
    ensures OneByteApart(LeBytes(u, count), LeBytes(v, count), 0)
    ensures LeBytes(u, count)[0] == u % 256 && LeBytes(v, count)[0] == v % 256
  {
    var tail := LeBytes(u / 256, count - 1);
    assert LeBytes(u, count) == [u % 256] + tail && LeBytes(v, count) == [v % 256] + tail;
  }

  /** And so do numbers that differ in their last byte only, and there in the last bit, one and the next for example. */
  lemma NumbersPart(v: int, w: int, row: nat, row': nat)
    requires v / 256 == w / 256 && (v - w) % 2 == 1
    ensures IsInt(v, WORD) && IsInt(w, WORD) ==> RowShard(Int64(v), row, 2) != RowShard(Int64(w), row', 2)
    ensures IsInt(v, 0x1_0000_0000) && IsInt(w, 0x1_0000_0000) ==>
      RowShard(Int32(v), row, 2) != RowShard(Int32(w), row', 2)
  {
    hide LeBytes, FnvState;
    if IsInt(v, WORD) && IsInt(w, WORD) {
      NumbersPartIn(v, w, WORD, 8);
    }
    if IsInt(v, 0x1_0000_0000) && IsInt(w, 0x1_0000_0000) {
      NumbersPartIn(v, w, 0x1_0000_0000, 4);
    }
  }

  /** Wrapping a number to its bits keeps what is said of its last byte. */
  lemma WrappedLowByte(v: int, bits: nat)
    requires (bits == WORD || bits == 0x1_0000_0000) && IsInt(v, bits)
    ensures v % bits / 256 == (if v < 0 then v / 256 + bits / 256 else v / 256) && v % bits % 256 == v % 256
    ensures v % bits == if v < 0 then v + bits else v
  {
  }

  lemma NumbersPartIn(v: int, w: int, bits: nat, count: nat)
    requires bits == WORD || bits == 0x1_0000_0000
    requires IsInt(v, bits) && IsInt(w, bits) && v / 256 == w / 256 && (v - w) % 2 == 1 && 0 < count
    ensures FnvState(LeBytes(v % bits, count)) % 2 != FnvState(LeBytes(w % bits, count)) % 2
  {
    hide LeBytes, FnvState, OneByteApart, IsInt;
    WrappedLowByte(v, bits);
    WrappedLowByte(w, bits);
    SameSign(v, w);
    var x, y := v % bits, w % bits;
    LowByteApart(x, y, count);
    assert x % 256 == v % 256 && y % 256 == w % 256;
    OddDifference(v, w);
    OddByteChangesTheParity(LeBytes(x, count), LeBytes(y, count), 0);
  }

  lemma SameSign(v: int, w: int)
    requires v / 256 == w / 256
    ensures v < 0 <==> w < 0
  {
  }

  lemma OddDifference(v: int, w: int)
    requires v / 256 == w / 256 && (v - w) % 2 == 1
    ensures v != w && (v % 256 + w % 256) % 2 == 1
  {
    assert v - w == v % 256 - w % 256;
  }

  lemma StepIs(front: nat, low: Byte, b: Byte, mixed: Byte, h': nat)
    requires Xor(low, b, 8) == mixed && (front * 256 + mixed) * FNV_PRIME % WORD == h'
    ensures FnvStep(front * 256 + low, b) == h'
  {
    assert (front * 256 + low) / 256 == front && (front * 256 + low) % 256 == low;
    hide Xor;
  }

  lemma OneByte(b: Byte)
    ensures FnvState([b]) == FnvStep(FNV_OFFSET, b)
  {
    assert [b][..0] == [];
  }

  lemma TwoBytes(b: Byte, c: Byte)
    ensures FnvState([b, c]) == FnvStep(FnvState([b]), c)
  {
    assert [b, c][..1] == [b];
  }

  lemma XorBit(a: nat, b: nat, bits: nat)
    requires 0 < bits
    ensures Xor(a, b, bits) == (a + b) % 2 + 2 * Xor(a / 2, b / 2, bits - 1)
    ensures bits == 1 ==> Xor(a, b, bits) == (a + b) % 2
  {
  }

  /** The bytes needed below, bit by bit from the highest. */
  lemma XorOfA()
    ensures Xor(0x25, 0x61, 8) == 0x44
  {
    hide Xor;
    XorBit(0, 0, 1);
    XorBit(0, 1, 2);
    XorBit(1, 3, 3);
    XorBit(2, 6, 4);
    XorBit(4, 12, 5);
    XorBit(9, 24, 6);
    XorBit(18, 48, 7);
    XorBit(37, 97, 8);
  }

  lemma XorOfF()
    ensures Xor(0x25, 0x66, 8) == 0x43
  {
    hide Xor;
    XorBit(0, 0, 1);
    XorBit(0, 1, 2);
    XorBit(1, 3, 3);
    XorBit(2, 6, 4);
    XorBit(4, 12, 5);
    XorBit(9, 25, 6);
    XorBit(18, 51, 7);
    XorBit(37, 102, 8);
  }

  lemma XorOfO()
    ensures Xor(0xd9, 0x6f, 8) == 0xb6
  {
    hide Xor;
    XorBit(1, 0, 1);
    XorBit(3, 1, 2);
    XorBit(6, 3, 3);
    XorBit(13, 6, 4);
    XorBit(27, 13, 5);
    XorBit(54, 27, 6);
    XorBit(108, 55, 7);
    XorBit(217, 111, 8);
  }

  lemma HashOfA()
    ensures FnvStep(FNV_OFFSET, 0x61) == 0xaf63_dc4c_8601_ec8c
  {
    hide FnvStep, Xor;
    XorOfA();
    StepIs(0xcb_f29c_e484_2223, 0x25, 0x61, 0x44, 0xaf63_dc4c_8601_ec8c);
  }

  lemma HashOfFo()
    ensures FnvStep(FnvStep(FNV_OFFSET, 0x66), 0x6f) == 0x0898_5907_b541_d342
  {
    hide FnvStep, Xor;
    XorOfF();
    XorOfO();
    StepIs(0xcb_f29c_e484_2223, 0x25, 0x66, 0x43, 0xaf63_db4c_8601_ead9);
    StepIs(0xaf_63db_4c86_01ea, 0xd9, 0x6f, 0xb6, 0x0898_5907_b541_d342);
  }

  lemma NoByte()
    ensures FnvState([]) == FNV_OFFSET
  {
  }

  /** The published values of 64-bit FNV-1a for no byte and for one, and the value for two. */
  lemma PublishedValues()
    ensures FnvState([]) == 0xcbf2_9ce4_8422_2325
    ensures FnvState([0x61]) == 0xaf63_dc4c_8601_ec8c
    ensures FnvState([0x66, 0x6f]) == 0x0898_5907_b541_d342
    ensures RowShard(Utf8([0x61]), 0, 1000) == 996
  {
    hide FnvStep, FnvState;
    NoByte();
    OneByte(0x61);
    HashOfA();
    OneByte(0x66);
    TwoBytes(0x66, 0x6f);
    HashOfFo();
  }

  lemma SameTail(v: nat, count: nat)
    requires v < 256
    ensures |LeBytes(v, count)| == count
    ensures forall i :: 0 < i < count ==> LeBytes(v, count)[i] == 0
    ensures 0 < count ==> LeBytes(v, count)[0] == v
  {
    if count > 0 {
      SameTail(0, count - 1);
    }
  }

  /** Where a row goes depends on its key alone exactly for a key of a hashed type. */
  lemma KeyAloneDecides(cell: Cell)
    ensures (forall row: nat, shards: nat | 0 < shards :: RowShard(cell, row, shards) == RowShard(cell, 0, shards)) <==>
            !cell.OtherCell?
  {
    if cell.OtherCell? {
      SameTail(0, 8);
      SameTail(1, 8);
      OddByteChangesTheParity(LeBytes(0, 8), LeBytes(1, 8), 0);
      assert RowShard(cell, 1, 2) != RowShard(cell, 0, 2);
    } else {
      forall row: nat, shards: nat | 0 < shards ensures RowShard(cell, row, shards) == RowShard(cell, 0, shards) {
        PositionDoesNotMatter(cell, row, shards);
      }
    }
  }

  lemma PositionDoesNotMatter(cell: Cell, k: nat, shards: nat)
    requires 0 < shards && !cell.OtherCell?
    ensures RowShard(cell, k, shards) == RowShard(cell, 0, shards)
  {
  }

  /** A row with a key of a hashed type goes where its key says, wherever in the batch it stands. */
  lemma {:induction false} PartFollowsTheKey(b: Batch, field: Field, shards: nat, i: nat, k: nat, r: Row)
    requires 0 < shards && k <= |b.rows| && forall q | q in b.rows :: field in q
    requires r in Part(b, field, shards, i, k)
    ensures r in b.rows && (!r[field].OtherCell? ==> RowShard(r[field], 0, shards) == i)
  {
    hide RowShard;
    if b.rows[k - 1] == r && RowShard(r[field], k - 1, shards) == i {
      if !r[field].OtherCell? {
        PositionDoesNotMatter(r[field], k - 1, shards);
      }
    } else {
      PartFollowsTheKey(b, field, shards, i, k - 1, r);
    }
  }
}
