/** The heterogeneous layout of one file: virtual, SSD and STRATA blocks, and the flat view they denote. */
module Layout {
  import opened Media

  // Products and quotients below are written with 4096 (PAGE) and 32768 (BLOCK) themselves.
  const PAGE: nat := 4096
  const BLOCK: nat := 32768
  const PAGES: nat := 8
  const TABLE_ENTRIES: nat := 64
  const MAX_SEGMENTS: nat := 12

  /** A PMEM or SSD location that is not there. */
  const MISSING: int := -1

  /** A buffer-metadata record: the segment count, then (start, length) pairs. */
  type Table = seq<int>

  datatype Block =
    | Virtual(pages: seq<int>)
    | Ssd(base: int)
    | Strata(base: int, pages: seq<int>, metas: seq<int>)

  /** A file as the journal knows it. */
  datatype File = File(size: nat, blocks: seq<Block>, tables: map<int, Table>)

  // ---- segment tables ----

  function EmptyTable(): (t: Table)
    ensures |t| == TABLE_ENTRIES && t[0] == 0
  {
    seq(TABLE_ENTRIES, i => 0)
  }

  function Start(t: Table, k: nat): int
    requires |t| == TABLE_ENTRIES && k < MAX_SEGMENTS
  {
    t[1 + 2 * k]
  }

  function Length(t: Table, k: nat): int
    requires |t| == TABLE_ENTRIES && k < MAX_SEGMENTS
  {
    t[2 + 2 * k]
  }

  predicate SegmentOk(start: int, length: int) {
    0 <= start <= PAGE && 0 <= length <= PAGE - start
  }

  predicate TableOk(t: Table) {
    && |t| == TABLE_ENTRIES
    && 0 <= t[0] <= MAX_SEGMENTS
    && forall k :: 0 <= k < t[0] ==> SegmentOk(Start(t, k), Length(t, k))
  }

  predicate SegmentCovers(t: Table, k: nat, i: int)
    requires |t| == TABLE_ENTRIES && k < MAX_SEGMENTS
  {
    Start(t, k) <= i < Start(t, k) + Length(t, k)
  }

  /** Byte `i` of the page lives in PMEM rather than on the SSD. */
  predicate Covered(t: Table, i: int)
    requires TableOk(t)
  {
    exists k :: 0 <= k < t[0] && SegmentCovers(t, k, i)
  }

  /** One more segment at the end of a table that has room. */
  function AddSegment(t: Table, start: int, length: int): (t': Table)
    requires TableOk(t) && t[0] < MAX_SEGMENTS && SegmentOk(start, length)
    ensures TableOk(t') && t'[0] == t[0] + 1
    ensures Start(t', t[0]) == start && Length(t', t[0]) == length
    ensures forall k :: 0 <= k < t[0] ==> Start(t', k) == Start(t, k) && Length(t', k) == Length(t, k)
  {
    var n := t[0];
    var t' := t[0 := n + 1][1 + 2 * n := start][2 + 2 * n := length];
    assert forall k :: 0 <= k < n ==> Start(t', k) == Start(t, k) && Length(t', k) == Length(t, k);
    t'
  }

  lemma AddSegmentCovers(t: Table, start: int, length: int, i: int)
    requires TableOk(t) && t[0] < MAX_SEGMENTS && SegmentOk(start, length)
    ensures Covered(AddSegment(t, start, length), i) <==> Covered(t, i) || start <= i < start + length
  {
    var t' := AddSegment(t, start, length);
    assert forall k :: 0 <= k < t[0] ==> SegmentCovers(t', k, i) == SegmentCovers(t, k, i);
    assert SegmentCovers(t', t[0], i) <==> start <= i < start + length;
  }

  // ---- blocks ----

  predicate HasBase(b: Block) {
    b.Ssd? || b.Strata?
  }

  /** The PMEM page behind page slot `p`, or MISSING. */
  function PageAt(b: Block, p: nat): int {
    if (b.Virtual? || b.Strata?) && p < |b.pages| then b.pages[p] else MISSING
  }

  function MetaAt(b: Block, p: nat): int {
    if b.Strata? && p < |b.metas| then b.metas[p] else MISSING
  }

  predicate BlockShape(b: Block, tables: map<int, Table>) {
    && (b.Virtual? || b.Strata? ==> |b.pages| == PAGES)
    && (b.Strata? ==> |b.metas| == PAGES)
    && (b.Strata? ==> forall p :: 0 <= p < PAGES ==>
          && (PageAt(b, p) >= 0 <==> MetaAt(b, p) >= 0)
          && (MetaAt(b, p) >= 0 ==> MetaAt(b, p) in tables && TableOk(tables[MetaAt(b, p)])))
  }

  predicate BlockOk(b: Block, tables: map<int, Table>, ssdSize: nat, pmemSize: nat) {
    && BlockShape(b, tables)
    && (HasBase(b) ==> 0 <= b.base && b.base + BLOCK <= ssdSize)
    && (forall p :: 0 <= p < PAGES && PageAt(b, p) >= 0 ==> PageAt(b, p) + PAGE <= pmemSize)
  }

  /** Byte `i` of the block is backed by storage. */
  predicate Readable(b: Block, i: int) {
    0 <= i < BLOCK && (b.Virtual? ==> PageAt(b, i / 4096) >= 0)
  }

  /** Byte `i` of a STRATA block is overlaid by its PMEM page. */
  predicate Overlaid(b: Block, tables: map<int, Table>, i: int) {
    && b.Strata?
    && 0 <= i < BLOCK
    && MetaAt(b, i / 4096) in tables
    && TableOk(tables[MetaAt(b, i / 4096)])
    && MetaAt(b, i / 4096) >= 0
    && Covered(tables[MetaAt(b, i / 4096)], i % 4096)
  }

  datatype Place = OnSsd(a: int) | OnPmem(a: int)

  /** Where byte `i` of the block is read from. */
  function PlaceOf(b: Block, tables: map<int, Table>, i: int): Place
    requires Readable(b, i)
  {
    if b.Virtual? || Overlaid(b, tables, i) then OnPmem(PageAt(b, i / 4096) + i % 4096) else OnSsd(b.base + i)
  }

  function BlockByte(b: Block, tables: map<int, Table>, ssd: seq<byte>, pmem: seq<byte>, i: int): byte
    requires BlockOk(b, tables, |ssd|, |pmem|) && Readable(b, i)
  {
    if b.Virtual? || Overlaid(b, tables, i) then pmem[PageAt(b, i / 4096) + i % 4096]
    else ssd[b.base + i]
  }

  // ---- files ----

  /** Two windows of `n` bytes that share no byte. */
  predicate Disjoint(a: int, b: int, n: nat) {
    a + n <= b || b + n <= a
  }

  ghost predicate BlocksOk(f: File, ssdSize: nat, pmemSize: nat) {
    forall k :: 0 <= k < |f.blocks| ==> BlockOk(f.blocks[k], f.tables, ssdSize, pmemSize)
  }

  ghost predicate SsdApart(blocks: seq<Block>) {
    forall j, k :: 0 <= j < k < |blocks| && HasBase(blocks[j]) && HasBase(blocks[k]) ==>
      Disjoint(blocks[j].base, blocks[k].base, BLOCK)
  }

  ghost predicate PagesApart(blocks: seq<Block>) {
    forall j, p, k, q ::
      0 <= j < |blocks| && 0 <= k < |blocks| && 0 <= p < PAGES && 0 <= q < PAGES && (j != k || p != q)
      && PageAt(blocks[j], p) >= 0 && PageAt(blocks[k], q) >= 0 ==>
        Disjoint(PageAt(blocks[j], p), PageAt(blocks[k], q), PAGE)
  }

  ghost predicate MetasApart(blocks: seq<Block>) {
    forall j, p, k, q ::
      0 <= j < |blocks| && 0 <= k < |blocks| && 0 <= p < PAGES && 0 <= q < PAGES && (j != k || p != q)
      && MetaAt(blocks[j], p) >= 0 && MetaAt(blocks[k], q) >= 0 ==>
        MetaAt(blocks[j], p) != MetaAt(blocks[k], q)
  }

  /** Every byte below the size has a block and, in a virtual block, a page. */
  ghost predicate Backed(f: File) {
    && f.size <= |f.blocks| * 32768
    && forall x :: 0 <= x < f.size ==> Readable(f.blocks[x / 32768], x % 32768)
  }

  ghost predicate FileOk(f: File, ssdSize: nat, pmemSize: nat) {
    && BlocksOk(f, ssdSize, pmemSize)
    && SsdApart(f.blocks)
    && PagesApart(f.blocks)
    && MetasApart(f.blocks)
    && Backed(f)
  }

  function ByteAt(f: File, ssd: seq<byte>, pmem: seq<byte>, x: int): byte
    requires 0 <= x < |f.blocks| * 32768
    requires BlockOk(f.blocks[x / 32768], f.tables, |ssd|, |pmem|) && Readable(f.blocks[x / 32768], x % 32768)
  {
    BlockByte(f.blocks[x / 32768], f.tables, ssd, pmem, x % 32768)
  }

  /** The file as a flat byte array. */
  ghost function View(f: File, ssd: seq<byte>, pmem: seq<byte>): (v: seq<byte>)
    requires FileOk(f, |ssd|, |pmem|)
    ensures |v| == f.size
    ensures forall x :: 0 <= x < f.size ==> v[x] == ByteAt(f, ssd, pmem, x)
  {
    seq(f.size, x requires 0 <= x < f.size => ByteAt(f, ssd, pmem, x))
  }

  /** What a POSIX write does to a byte array: `source` at `offset`, growing the array if it must. */
  function Splice(v: seq<byte>, offset: nat, source: seq<byte>): (v': seq<byte>)
    requires offset <= |v|
    ensures |v'| == if offset + |source| > |v| then offset + |source| else |v|
    ensures forall x :: 0 <= x < |v'| ==>
      v'[x] == if offset <= x < offset + |source| then source[x - offset] else v[x]
  {
    v[..offset] + source + if offset + |source| < |v| then v[offset + |source|..] else []
  }
}
