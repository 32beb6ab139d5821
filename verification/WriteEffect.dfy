/** The effect of a whole write plan on the flat view of the file, after commit and after a crash. */
module WriteEffect {
  import opened Media
  import opened Layout
  import opened WritePlan
  import opened PlanTargets

  // ---- the chunk of a write that falls into block `k` ----

  predicate TouchesBlock(offset: int, n: int, k: int) {
    k * 32768 < offset + n && offset < (k + 1) * 32768
  }

  function InsideOf(offset: nat, k: nat): nat {
    if offset > k * 32768 then offset - k * 32768 else 0
  }

  function ChunkOf(offset: nat, source: seq<byte>, k: nat): (data: seq<byte>)
    requires TouchesBlock(offset, |source|, k)
    ensures ChunkOk(InsideOf(offset, k), |data|) || source == []
  {
    var lo, hi := k * 32768 + InsideOf(offset, k), (k + 1) * 32768;
    source[lo - offset..if hi < offset + |source| then hi - offset else |source|]
  }

  lemma ChunkBytes(offset: nat, source: seq<byte>, k: nat, i: int)
    requires TouchesBlock(offset, |source|, k) && 0 <= i < BLOCK
    ensures var data := ChunkOf(offset, source, k);
            && (Written(InsideOf(offset, k), |data|, i) <==> offset <= k * 32768 + i < offset + |source|)
            && (Written(InsideOf(offset, k), |data|, i) ==> data[i - InsideOf(offset, k)] == source[k * 32768 + i - offset])
  {
  }

  ghost predicate BlockPrepared(f: File, offset: nat, source: seq<byte>, k: nat) {
    && k < |f.blocks|
    && TouchesBlock(offset, |source|, k)
    && Prepared(f.blocks[k], f.tables, InsideOf(offset, k), |ChunkOf(offset, source, k)|)
  }

  /** Every block the write touches is in the index and has what the write needs. */
  ghost predicate WritePrepared(f: File, offset: nat, source: seq<byte>) {
    && source != []
    && offset + |source| <= |f.blocks| * 32768
    && forall k :: 0 <= k < |f.blocks| && TouchesBlock(offset, |source|, k) ==> BlockPrepared(f, offset, source, k)
  }

  function FirstBlock(offset: nat): nat {
    offset / 32768
  }

  function BlockCount(offset: nat, n: nat): nat
    requires n > 0
  {
    (offset + n - 1) / 32768 - offset / 32768 + 1
  }

  lemma BlockOfWrite(offset: nat, n: nat, k: nat)
    requires n > 0
    ensures TouchesBlock(offset, n, k) <==> FirstBlock(offset) <= k < FirstBlock(offset) + BlockCount(offset, n)
    ensures TouchesBlock(offset, n, k) ==> k * 32768 < offset + n
  {
  }

  /** The plans of the first `n` blocks of the write, in block order. */
  ghost function BlockPlans(f: File, offset: nat, source: seq<byte>, n: nat): (plans: seq<Plan>)
    requires WritePrepared(f, offset, source) && n <= BlockCount(offset, |source|)
    ensures |plans| == n
  {
    if n == 0 then []
    else
      var k := FirstBlock(offset) + n - 1;
      BlockOfWrite(offset, |source|, k);
      BlockPlans(f, offset, source, n - 1)
      + [BlockPlan(f.blocks[k], f.tables, InsideOf(offset, k), ChunkOf(offset, source, k))]
  }

  ghost function PlanOf(f: File, offset: nat, source: seq<byte>): Plan
    requires WritePrepared(f, offset, source)
  {
    Gather(BlockPlans(f, offset, source, BlockCount(offset, |source|)))
  }

  lemma {:induction false} BlockPlanAt(f: File, offset: nat, source: seq<byte>, n: nat, j: nat)
    requires WritePrepared(f, offset, source) && j < n <= BlockCount(offset, |source|)
    ensures BlockPrepared(f, offset, source, FirstBlock(offset) + j)
    ensures var k := FirstBlock(offset) + j;
            BlockPlans(f, offset, source, n)[j] ==
            BlockPlan(f.blocks[k], f.tables, InsideOf(offset, k), ChunkOf(offset, source, k))
  {
    hide BlockPlan, Prepared, ChunkOf;
    BlockOfWrite(offset, |source|, FirstBlock(offset) + j);
    if j < n - 1 {
      BlockPlanAt(f, offset, source, n - 1, j);
    }
  }

  // ---- what the whole write puts at one place ----

  ghost function SsdTargetAt(f: File, ssd: seq<byte>, pmem: seq<byte>, offset: nat, source: seq<byte>, k: nat, i: int): Option<byte>
    requires k < |f.blocks| && BlockOk(f.blocks[k], f.tables, |ssd|, |pmem|) && 0 <= i < BLOCK
  {
    if TouchesBlock(offset, |source|, k)
    then SsdTarget(f.blocks[k], f.tables, ssd, pmem, InsideOf(offset, k), ChunkOf(offset, source, k), i)
    else None
  }

  ghost function PmemTargetAt(f: File, offset: nat, source: seq<byte>, k: nat, i: int): Option<byte>
    requires k < |f.blocks|
  {
    if TouchesBlock(offset, |source|, k)
    then PmemTarget(f.blocks[k], InsideOf(offset, k), ChunkOf(offset, source, k), i)
    else None
  }

  lemma WriteSsdBlock(f: File, ssd: seq<byte>, pmem: seq<byte>, offset: nat, source: seq<byte>, r: Req) returns (k: nat)
    requires WritePrepared(f, offset, source)
    requires r in SsdReqs(PlanOf(f, offset, source), ssd, pmem)
    ensures BlockPrepared(f, offset, source, k)
    ensures SsdHas(BlockPlan(f.blocks[k], f.tables, InsideOf(offset, k), ChunkOf(offset, source, k)), ssd, pmem, r)
  {
    hide BlockPlan, SsdHas, SsdReqs, Prepared, ChunkOf, InsideOf, TouchesBlock, FirstBlock, BlockCount, Gather;
    SsdHasIsMember(PlanOf(f, offset, source), ssd, pmem, r);
    var n := BlockCount(offset, |source|);
    var j := GatheredSsdFrom(BlockPlans(f, offset, source, n), ssd, pmem, r);
    BlockPlanAt(f, offset, source, n, j);
    k := FirstBlock(offset) + j;
  }

  lemma WriteSsdFrom(f: File, ssd: seq<byte>, pmem: seq<byte>, offset: nat, source: seq<byte>, r: Req, a: int) returns (k: nat)
    requires BlocksOk(f, |ssd|, |pmem|) && WritePrepared(f, offset, source)
    requires r in SsdReqs(PlanOf(f, offset, source), ssd, pmem) && Covers(r, a)
    ensures k < |f.blocks| && HasBase(f.blocks[k]) && f.blocks[k].base <= a < f.blocks[k].base + BLOCK
    ensures SsdTargetAt(f, ssd, pmem, offset, source, k, a - f.blocks[k].base) == Some(r.data[a - r.off])
  {
    hide BlockPlan, SsdHas, SsdReqs, SsdTarget, PlanOf;
    k := WriteSsdBlock(f, ssd, pmem, offset, source, r);
    BlockSsdSound(f.blocks[k], f.tables, ssd, pmem, InsideOf(offset, k), ChunkOf(offset, source, k), r, a);
  }

  lemma WriteSsdSound(f: File, ssd: seq<byte>, pmem: seq<byte>, offset: nat, source: seq<byte>, k: nat, i: int, r: Req)
    requires BlocksOk(f, |ssd|, |pmem|) && SsdApart(f.blocks) && WritePrepared(f, offset, source)
    requires k < |f.blocks| && HasBase(f.blocks[k]) && 0 <= i < BLOCK
    requires r in SsdReqs(PlanOf(f, offset, source), ssd, pmem) && Covers(r, f.blocks[k].base + i)
    ensures SsdTargetAt(f, ssd, pmem, offset, source, k, i) == Some(r.data[f.blocks[k].base + i - r.off])
  {
    hide BlockPlan, SsdReqs, SsdTarget, PlanOf, WritePrepared;
    var m := WriteSsdFrom(f, ssd, pmem, offset, source, r, f.blocks[k].base + i);
    assert m == k;
  }

  lemma WriteSsdComplete(f: File, ssd: seq<byte>, pmem: seq<byte>, offset: nat, source: seq<byte>, k: nat, i: int)
    requires BlocksOk(f, |ssd|, |pmem|) && WritePrepared(f, offset, source)
    requires k < |f.blocks| && HasBase(f.blocks[k]) && 0 <= i < BLOCK
    requires SsdTargetAt(f, ssd, pmem, offset, source, k, i).Some?
    ensures Touched(SsdReqs(PlanOf(f, offset, source), ssd, pmem), f.blocks[k].base + i)
  {
    hide BlockPlan, SsdReqs, SsdHas, SsdTarget, Prepared;
    BlockOfWrite(offset, |source|, k);
    var n, j := BlockCount(offset, |source|), k - FirstBlock(offset);
    BlockPlanAt(f, offset, source, n, j);
    var inside, data := InsideOf(offset, k), ChunkOf(offset, source, k);
    var r := BlockSsdComplete(f.blocks[k], f.tables, ssd, pmem, inside, data, i);
    GatheredSsdInto(BlockPlans(f, offset, source, n), ssd, pmem, j, r);
    SsdHasIsMember(PlanOf(f, offset, source), ssd, pmem, r);
  }

  lemma WritePmemFrom(f: File, offset: nat, source: seq<byte>, r: Req, a: int) returns (k: nat, i: nat)
    requires WritePrepared(f, offset, source)
    requires r in PlanOf(f, offset, source).pmem && Covers(r, a)
    ensures k < |f.blocks| && i < BLOCK && PageAt(f.blocks[k], i / 4096) >= 0
    ensures a == PageAt(f.blocks[k], i / 4096) + i % 4096
    ensures PmemTargetAt(f, offset, source, k, i) == Some(r.data[a - r.off])
  {
    hide BlockPlan, Prepared, PmemTarget;
    var n := BlockCount(offset, |source|);
    var j := GatheredPmemFrom(BlockPlans(f, offset, source, n), r);
    BlockPlanAt(f, offset, source, n, j);
    k := FirstBlock(offset) + j;
    i := BlockPmemSound(f.blocks[k], f.tables, InsideOf(offset, k), ChunkOf(offset, source, k), r, a);
  }

  lemma WritePmemSound(f: File, offset: nat, source: seq<byte>, k: nat, i: int, r: Req)
    requires PagesApart(f.blocks) && WritePrepared(f, offset, source)
    requires k < |f.blocks| && 0 <= i < BLOCK && PageAt(f.blocks[k], i / 4096) >= 0
    requires r in PlanOf(f, offset, source).pmem && Covers(r, PageAt(f.blocks[k], i / 4096) + i % 4096)
    ensures PmemTargetAt(f, offset, source, k, i) == Some(r.data[PageAt(f.blocks[k], i / 4096) + i % 4096 - r.off])
  {
    hide BlockPlan, Prepared, PlanOf, PmemTargetAt, WritePrepared;
    var m, i' := WritePmemFrom(f, offset, source, r, PageAt(f.blocks[k], i / 4096) + i % 4096);
    assert m == k && i' / 4096 == i / 4096;
    assert i' == i;
  }

  lemma WritePmemComplete(f: File, offset: nat, source: seq<byte>, k: nat, i: int)
    requires WritePrepared(f, offset, source) && k < |f.blocks| && 0 <= i
    requires PmemTargetAt(f, offset, source, k, i).Some?
    ensures Touched(PlanOf(f, offset, source).pmem, PageAt(f.blocks[k], i / 4096) + i % 4096)
  {
    hide BlockPlan, Prepared, PmemTarget;
    BlockOfWrite(offset, |source|, k);
    var n, j := BlockCount(offset, |source|), k - FirstBlock(offset);
    BlockPlanAt(f, offset, source, n, j);
    var inside, data := InsideOf(offset, k), ChunkOf(offset, source, k);
    var r := BlockPmemComplete(f.blocks[k], f.tables, inside, data, i);
    GatheredPmemInto(BlockPlans(f, offset, source, n), j, r);
  }

  /** Every table the plan commits is the target of a page that owns it. */
  lemma WriteTablesFrom(f: File, offset: nat, source: seq<byte>, id: int) returns (k: nat, q: nat)
    requires WritePrepared(f, offset, source) && id in PlanOf(f, offset, source).tables
    ensures BlockPrepared(f, offset, source, k) && f.blocks[k].Strata? && q < PAGES && MetaAt(f.blocks[k], q) == id && id >= 0
    ensures PlanOf(f, offset, source).tables[id] ==
            TableTarget(f.blocks[k], f.tables, InsideOf(offset, k), ChunkOf(offset, source, k), q)
  {
    hide BlockPlan, TableTarget, ChunkOf, InsideOf, TouchesBlock;
    var n := BlockCount(offset, |source|);
    var j := GatheredTablesFrom(BlockPlans(f, offset, source, n), id);
    BlockPlanAt(f, offset, source, n, j);
    k := FirstBlock(offset) + j;
    q := BlockTablesFrom(f.blocks[k], f.tables, InsideOf(offset, k), ChunkOf(offset, source, k), id);
  }

  lemma WriteTablesInto(f: File, offset: nat, source: seq<byte>, k: nat, q: nat)
    requires WritePrepared(f, offset, source) && BlockPrepared(f, offset, source, k)
    requires f.blocks[k].Strata? && q < PAGES && MetaAt(f.blocks[k], q) >= 0
    requires MetaAt(f.blocks[k], q) !in PlanOf(f, offset, source).tables
    ensures f.tables[MetaAt(f.blocks[k], q)] ==
            TableTarget(f.blocks[k], f.tables, InsideOf(offset, k), ChunkOf(offset, source, k), q)
  {
    hide BlockPlan, TableTarget, ChunkOf, InsideOf;
    var id, n, j := MetaAt(f.blocks[k], q), BlockCount(offset, |source|), k - FirstBlock(offset);
    BlockOfWrite(offset, |source|, k);
    BlockPlanAt(f, offset, source, n, j);
    if id in BlockPlan(f.blocks[k], f.tables, InsideOf(offset, k), ChunkOf(offset, source, k)).tables {
      GatheredTablesInto(BlockPlans(f, offset, source, n), j, id);
    }
    BlockTablesInto(f.blocks[k], f.tables, InsideOf(offset, k), ChunkOf(offset, source, k), q);
  }

  lemma WriteTables(f: File, offset: nat, source: seq<byte>, k: nat, q: nat)
    requires WritePrepared(f, offset, source) && MetasApart(f.blocks)
    requires k < |f.blocks| && BlockShape(f.blocks[k], f.tables) && f.blocks[k].Strata? && q < PAGES && MetaAt(f.blocks[k], q) >= 0
    ensures (f.tables + PlanOf(f, offset, source).tables)[MetaAt(f.blocks[k], q)] ==
            if TouchesBlock(offset, |source|, k)
            then TableTarget(f.blocks[k], f.tables, InsideOf(offset, k), ChunkOf(offset, source, k), q)
            else f.tables[MetaAt(f.blocks[k], q)]
  {
    hide PlanOf, TableTarget, ChunkOf, InsideOf;
    var id := MetaAt(f.blocks[k], q);
    if id in PlanOf(f, offset, source).tables {
      var m, q' := WriteTablesFrom(f, offset, source, id);
      assert m == k && q' == q;
    } else if TouchesBlock(offset, |source|, k) {
      WriteTablesInto(f, offset, source, k, q);
    }
  }

  // ---- media that hold the write, all of it or in part ----

  function GetOr(target: Option<byte>, before: byte): byte {
    if target.Some? then target.value else before
  }

  /** `v` is what was there or what was to be put there. */
  predicate OldOr(v: byte, before: byte, target: Option<byte>) {
    v == before || target == Some(v)
  }

  lemma SettledSsd(f: File, ssd: seq<byte>, ssd': seq<byte>, pmem: seq<byte>, offset: nat, source: seq<byte>, k: nat, i: int)
    requires BlocksOk(f, |ssd|, |pmem|) && SsdApart(f.blocks) && WritePrepared(f, offset, source)
    requires k < |f.blocks| && HasBase(f.blocks[k]) && 0 <= i < BLOCK
    requires Settled(ssd', ssd, SsdReqs(PlanOf(f, offset, source), ssd, pmem))
    ensures ssd'[f.blocks[k].base + i] == GetOr(SsdTargetAt(f, ssd, pmem, offset, source, k, i), ssd[f.blocks[k].base + i])
  {
    hide PlanOf, SsdReqs, SsdTargetAt, WritePrepared;
    var a, rs := f.blocks[k].base + i, SsdReqs(PlanOf(f, offset, source), ssd, pmem);
    if Touched(rs, a) {
      var r :| r in rs && Covers(r, a);
      WriteSsdSound(f, ssd, pmem, offset, source, k, i, r);
    } else if SsdTargetAt(f, ssd, pmem, offset, source, k, i).Some? {
      WriteSsdComplete(f, ssd, pmem, offset, source, k, i);
    }
  }

  lemma TornSsd(f: File, ssd: seq<byte>, ssd': seq<byte>, pmem: seq<byte>, offset: nat, source: seq<byte>, k: nat, i: int)
    requires BlocksOk(f, |ssd|, |pmem|) && SsdApart(f.blocks) && WritePrepared(f, offset, source)
    requires k < |f.blocks| && HasBase(f.blocks[k]) && 0 <= i < BLOCK
    requires Torn(ssd', ssd, SsdReqs(PlanOf(f, offset, source), ssd, pmem))
    ensures OldOr(ssd'[f.blocks[k].base + i], ssd[f.blocks[k].base + i], SsdTargetAt(f, ssd, pmem, offset, source, k, i))
  {
    hide PlanOf, SsdReqs, SsdTargetAt, WritePrepared;
    var a, rs := f.blocks[k].base + i, SsdReqs(PlanOf(f, offset, source), ssd, pmem);
    if ssd'[a] != ssd[a] {
      var r :| r in rs && Covers(r, a) && ssd'[a] == r.data[a - r.off];
      WriteSsdSound(f, ssd, pmem, offset, source, k, i, r);
    }
  }

  lemma SettledPmem(f: File, ssdSize: nat, pmem: seq<byte>, pmem': seq<byte>, offset: nat, source: seq<byte>, k: nat, i: int)
    requires BlocksOk(f, ssdSize, |pmem|) && PagesApart(f.blocks) && WritePrepared(f, offset, source)
    requires k < |f.blocks| && 0 <= i < BLOCK && PageAt(f.blocks[k], i / 4096) >= 0
    requires Settled(pmem', pmem, PlanOf(f, offset, source).pmem)
    ensures var a := PageAt(f.blocks[k], i / 4096) + i % 4096;
            a < |pmem| && pmem'[a] == GetOr(PmemTargetAt(f, offset, source, k, i), pmem[a])
  {
    hide PlanOf, PmemTargetAt, WritePrepared;
    var a, rs := PageAt(f.blocks[k], i / 4096) + i % 4096, PlanOf(f, offset, source).pmem;
    if Touched(rs, a) {
      var r :| r in rs && Covers(r, a);
      WritePmemSound(f, offset, source, k, i, r);
    } else if PmemTargetAt(f, offset, source, k, i).Some? {
      WritePmemComplete(f, offset, source, k, i);
    }
  }

  lemma TornPmem(f: File, ssdSize: nat, pmem: seq<byte>, pmem': seq<byte>, offset: nat, source: seq<byte>, k: nat, i: int)
    requires BlocksOk(f, ssdSize, |pmem|) && PagesApart(f.blocks) && WritePrepared(f, offset, source)
    requires k < |f.blocks| && 0 <= i < BLOCK && PageAt(f.blocks[k], i / 4096) >= 0
    requires Torn(pmem', pmem, PlanOf(f, offset, source).pmem)
    ensures var a := PageAt(f.blocks[k], i / 4096) + i % 4096;
            a < |pmem| && OldOr(pmem'[a], pmem[a], PmemTargetAt(f, offset, source, k, i))
  {
    hide PlanOf, PmemTargetAt, WritePrepared;
    var a, rs := PageAt(f.blocks[k], i / 4096) + i % 4096, PlanOf(f, offset, source).pmem;
    if pmem'[a] != pmem[a] {
      var r :| r in rs && Covers(r, a) && pmem'[a] == r.data[a - r.off];
      WritePmemSound(f, offset, source, k, i, r);
    }
  }

  // ---- one byte of one block ----

  /** The targets are right: with the new table in force, the block shows the new byte where the chunk is and the old one elsewhere. */
  lemma BlockByteAfter(b: Block, tables: map<int, Table>, tables': map<int, Table>, ssd: seq<byte>, ssd': seq<byte>,
                       pmem: seq<byte>, pmem': seq<byte>, inside: nat, data: seq<byte>, i: int)
    requires Prepared(b, tables, inside, |data|)
    requires BlockOk(b, tables, |ssd|, |pmem|) && BlockOk(b, tables', |ssd'|, |pmem'|) && Readable(b, i)
    requires HasBase(b) ==> ssd'[b.base + i] == GetOr(SsdTarget(b, tables, ssd, pmem, inside, data, i), ssd[b.base + i])
    requires PageAt(b, i / 4096) >= 0 ==>
               var a := PageAt(b, i / 4096) + i % 4096; pmem'[a] == GetOr(PmemTarget(b, inside, data, i), pmem[a])
    requires b.Strata? && MetaAt(b, i / 4096) >= 0 ==>
               tables'[MetaAt(b, i / 4096)] == TableTarget(b, tables, inside, data, i / 4096)
    ensures BlockByte(b, tables', ssd', pmem', i) ==
            if Written(inside, |data|, i) then data[i - inside] else BlockByte(b, tables, ssd, pmem, i)
  {
    if b.Strata? && |data| != BLOCK {
      var q := i / 4096;
      assert Written(inside, |data|, i) ==> TouchesPage(inside, |data|, q);
      if TouchesPage(inside, |data|, q) && !FullToSsd(inside, |data|, q) {
        var t := tables[MetaAt(b, q)];
        var lo, hi := From(inside, q), To(inside, |data|, q);
        AddSegmentCovers(if t[0] == MAX_SEGMENTS then EmptyTable() else t, lo, hi - lo, i % 4096);
      }
    }
  }

  /** The old table with any part of the requests on the media still shows the old byte or, where the chunk is, the new one. */
  lemma BlockByteTorn(b: Block, tables: map<int, Table>, ssd: seq<byte>, ssd': seq<byte>,
                      pmem: seq<byte>, pmem': seq<byte>, inside: nat, data: seq<byte>, i: int)
    requires Prepared(b, tables, inside, |data|)
    requires BlockOk(b, tables, |ssd|, |pmem|) && BlockOk(b, tables, |ssd'|, |pmem'|) && Readable(b, i)
    requires HasBase(b) ==> OldOr(ssd'[b.base + i], ssd[b.base + i], SsdTarget(b, tables, ssd, pmem, inside, data, i))
    requires PageAt(b, i / 4096) >= 0 ==>
               var a := PageAt(b, i / 4096) + i % 4096; OldOr(pmem'[a], pmem[a], PmemTarget(b, inside, data, i))
    ensures || BlockByte(b, tables, ssd', pmem', i) == BlockByte(b, tables, ssd, pmem, i)
            || (Written(inside, |data|, i) && BlockByte(b, tables, ssd', pmem', i) == data[i - inside])
  {
  }

  // ---- the whole file ----

  /** The file the journal commit of the write leaves. */
  ghost function Committed(f: File, offset: nat, source: seq<byte>): File
    requires WritePrepared(f, offset, source)
  {
    var end := offset + |source|;
    File(if end > f.size then end else f.size, f.blocks, f.tables + PlanOf(f, offset, source).tables)
  }

  lemma CommittedBlockOk(f: File, ssdSize: nat, pmemSize: nat, offset: nat, source: seq<byte>, k: nat)
    requires BlocksOk(f, ssdSize, pmemSize) && MetasApart(f.blocks) && WritePrepared(f, offset, source) && k < |f.blocks|
    ensures BlockOk(f.blocks[k], Committed(f, offset, source).tables, ssdSize, pmemSize)
  {
    hide PlanOf, WritePrepared;
    var b, tables' := f.blocks[k], Committed(f, offset, source).tables;
    assert BlockOk(b, f.tables, ssdSize, pmemSize);
    if b.Strata? {
      forall q | 0 <= q < PAGES && MetaAt(b, q) >= 0
        ensures MetaAt(b, q) in tables' && TableOk(tables'[MetaAt(b, q)])
      {
        WriteTables(f, offset, source, k, q);
      }
    }
  }

  lemma WrittenByteReadable(f: File, offset: nat, source: seq<byte>, x: int)
    requires WritePrepared(f, offset, source) && offset <= x < offset + |source|
    ensures Readable(f.blocks[x / 32768], x % 32768)
  {
    var k, i := x / 32768, x % 32768;
    assert TouchesBlock(offset, |source|, k) && BlockPrepared(f, offset, source, k);
    ChunkBytes(offset, source, k, i);
    assert TouchesPage(InsideOf(offset, k), |ChunkOf(offset, source, k)|, i / 4096);
  }

  lemma CommittedOk(f: File, ssdSize: nat, pmemSize: nat, offset: nat, source: seq<byte>)
    requires FileOk(f, ssdSize, pmemSize) && WritePrepared(f, offset, source) && offset <= f.size
    ensures FileOk(Committed(f, offset, source), ssdSize, pmemSize)
  {
    hide PlanOf, BlockPrepared, MetasApart, PagesApart, SsdApart;
    var f' := Committed(f, offset, source);
    forall k | 0 <= k < |f'.blocks| ensures BlockOk(f'.blocks[k], f'.tables, ssdSize, pmemSize) {
      CommittedBlockOk(f, ssdSize, pmemSize, offset, source, k);
    }
    forall x | 0 <= x < f'.size ensures Readable(f'.blocks[x / 32768], x % 32768) {
      if x >= f.size {
        WrittenByteReadable(f, offset, source, x);
      }
    }
  }

  /** The place of byte `i` of block `k`, on either medium and in the tables, holds what the write leaves there. */
  ghost predicate PlaceSettled(f: File, tables': map<int, Table>, ssd: seq<byte>, ssd': seq<byte>, pmem: seq<byte>, pmem': seq<byte>,
                               offset: nat, source: seq<byte>, k: nat, i: int)
    requires k < |f.blocks| && BlockOk(f.blocks[k], f.tables, |ssd|, |pmem|) && 0 <= i < BLOCK
    requires |ssd'| == |ssd| && |pmem'| == |pmem| && BlockOk(f.blocks[k], tables', |ssd|, |pmem|)
    requires source != []
  {
    var b := f.blocks[k];
    && (HasBase(b) ==> ssd'[b.base + i] == GetOr(SsdTargetAt(f, ssd, pmem, offset, source, k, i), ssd[b.base + i]))
    && (PageAt(b, i / 4096) >= 0 ==>
          var a := PageAt(b, i / 4096) + i % 4096; pmem'[a] == GetOr(PmemTargetAt(f, offset, source, k, i), pmem[a]))
    && (b.Strata? && MetaAt(b, i / 4096) >= 0 ==>
          tables'[MetaAt(b, i / 4096)] ==
          if TouchesBlock(offset, |source|, k)
          then TableTarget(b, f.tables, InsideOf(offset, k), ChunkOf(offset, source, k), i / 4096)
          else f.tables[MetaAt(b, i / 4096)])
  }

  lemma SettledPlace(f: File, ssd: seq<byte>, ssd': seq<byte>, pmem: seq<byte>, pmem': seq<byte>,
                     offset: nat, source: seq<byte>, k: nat, i: int)
    requires BlocksOk(f, |ssd|, |pmem|) && SsdApart(f.blocks) && PagesApart(f.blocks) && MetasApart(f.blocks)
    requires WritePrepared(f, offset, source) && k < |f.blocks| && 0 <= i < BLOCK
    requires Settled(ssd', ssd, SsdReqs(PlanOf(f, offset, source), ssd, pmem))
    requires Settled(pmem', pmem, PlanOf(f, offset, source).pmem)
    ensures BlockOk(f.blocks[k], Committed(f, offset, source).tables, |ssd|, |pmem|)
    ensures PlaceSettled(f, Committed(f, offset, source).tables, ssd, ssd', pmem, pmem', offset, source, k, i)
  {
    hide SsdReqs, SsdTargetAt, PmemTargetAt, Settled, PlanOf, WritePrepared, MetasApart, PagesApart, SsdApart;
    var b := f.blocks[k];
    CommittedBlockOk(f, |ssd|, |pmem|, offset, source, k);
    if HasBase(b) {
      SettledSsd(f, ssd, ssd', pmem, offset, source, k, i);
    }
    if PageAt(b, i / 4096) >= 0 {
      SettledPmem(f, |ssd|, pmem, pmem', offset, source, k, i);
    }
    if b.Strata? && MetaAt(b, i / 4096) >= 0 {
      WriteTables(f, offset, source, k, i / 4096);
    }
  }

  lemma SettledPlaceByte(f: File, tables': map<int, Table>, ssd: seq<byte>, ssd': seq<byte>, pmem: seq<byte>, pmem': seq<byte>,
                         offset: nat, source: seq<byte>, k: nat, i: int)
    requires k < |f.blocks| && BlockOk(f.blocks[k], f.tables, |ssd|, |pmem|) && Readable(f.blocks[k], i)
    requires |ssd'| == |ssd| && |pmem'| == |pmem| && BlockOk(f.blocks[k], tables', |ssd|, |pmem|)
    requires source != [] && (TouchesBlock(offset, |source|, k) ==> BlockPrepared(f, offset, source, k))
    requires PlaceSettled(f, tables', ssd, ssd', pmem, pmem', offset, source, k, i)
    ensures BlockByte(f.blocks[k], tables', ssd', pmem', i) ==
            if offset <= k * 32768 + i < offset + |source| then source[k * 32768 + i - offset]
            else BlockByte(f.blocks[k], f.tables, ssd, pmem, i)
  {
    hide SsdTarget, PmemTarget, TableTarget, Prepared;
    if TouchesBlock(offset, |source|, k) {
      BlockByteAfter(f.blocks[k], f.tables, tables', ssd, ssd', pmem, pmem', InsideOf(offset, k), ChunkOf(offset, source, k), i);
      ChunkBytes(offset, source, k, i);
    }
  }

  lemma CommittedByte(f: File, ssd: seq<byte>, ssd': seq<byte>, pmem: seq<byte>, pmem': seq<byte>,
                      offset: nat, source: seq<byte>, x: int)
    requires FileOk(f, |ssd|, |pmem|)
    requires WritePrepared(f, offset, source) && 0 <= x < |f.blocks| * 32768 && Readable(f.blocks[x / 32768], x % 32768)
    requires Settled(ssd', ssd, SsdReqs(PlanOf(f, offset, source), ssd, pmem))
    requires Settled(pmem', pmem, PlanOf(f, offset, source).pmem)
    ensures BlockOk(f.blocks[x / 32768], Committed(f, offset, source).tables, |ssd|, |pmem|)
    ensures ByteAt(Committed(f, offset, source), ssd', pmem', x) ==
            if offset <= x < offset + |source| then source[x - offset] else ByteAt(f, ssd, pmem, x)
  {
    hide PlaceSettled, PlanOf, SsdReqs, MetasApart, PagesApart, SsdApart, BlockByte;
    var k, i := x / 32768, x % 32768;
    SettledPlace(f, ssd, ssd', pmem, pmem', offset, source, k, i);
    SettledPlaceByte(f, Committed(f, offset, source).tables, ssd, ssd', pmem, pmem', offset, source, k, i);
  }

  /** Once every request is on the media and the tables are committed, the file is the old one with `source` spliced in. */
  lemma CommittedView(f: File, ssd: seq<byte>, ssd': seq<byte>, pmem: seq<byte>, pmem': seq<byte>,
                      offset: nat, source: seq<byte>)
    requires FileOk(f, |ssd|, |pmem|) && WritePrepared(f, offset, source) && offset <= f.size
    requires Settled(ssd', ssd, SsdReqs(PlanOf(f, offset, source), ssd, pmem))
    requires Settled(pmem', pmem, PlanOf(f, offset, source).pmem)
    ensures FileOk(Committed(f, offset, source), |ssd'|, |pmem'|)
    ensures View(Committed(f, offset, source), ssd', pmem') == Splice(View(f, ssd, pmem), offset, source)
  {
    hide PlanOf, SsdReqs, MetasApart, PagesApart, SsdApart, BlockByte, BlockPrepared;
    CommittedOk(f, |ssd|, |pmem|, offset, source);
    var f' := Committed(f, offset, source);
    forall x | 0 <= x < f'.size
      ensures ByteAt(f', ssd', pmem', x) == Splice(View(f, ssd, pmem), offset, source)[x]
    {
      CommittedByte(f, ssd, ssd', pmem, pmem', offset, source, x);
    }
  }

  ghost predicate PlaceTorn(f: File, ssd: seq<byte>, ssd': seq<byte>, pmem: seq<byte>, pmem': seq<byte>,
                            offset: nat, source: seq<byte>, k: nat, i: int)
    requires k < |f.blocks| && BlockOk(f.blocks[k], f.tables, |ssd|, |pmem|) && 0 <= i < BLOCK
    requires |ssd'| == |ssd| && |pmem'| == |pmem|
  {
    var b := f.blocks[k];
    && (HasBase(b) ==> OldOr(ssd'[b.base + i], ssd[b.base + i], SsdTargetAt(f, ssd, pmem, offset, source, k, i)))
    && (PageAt(b, i / 4096) >= 0 ==>
          var a := PageAt(b, i / 4096) + i % 4096; OldOr(pmem'[a], pmem[a], PmemTargetAt(f, offset, source, k, i)))
  }

  lemma TornPlace(f: File, ssd: seq<byte>, ssd': seq<byte>, pmem: seq<byte>, pmem': seq<byte>,
                  offset: nat, source: seq<byte>, k: nat, i: int)
    requires BlocksOk(f, |ssd|, |pmem|) && SsdApart(f.blocks) && PagesApart(f.blocks)
    requires WritePrepared(f, offset, source) && k < |f.blocks| && 0 <= i < BLOCK
    requires Torn(ssd', ssd, SsdReqs(PlanOf(f, offset, source), ssd, pmem))
    requires Torn(pmem', pmem, PlanOf(f, offset, source).pmem)
    ensures PlaceTorn(f, ssd, ssd', pmem, pmem', offset, source, k, i)
  {
    hide SsdReqs, SsdTargetAt, PmemTargetAt, Torn, PlanOf, WritePrepared, PagesApart, SsdApart;
    if HasBase(f.blocks[k]) {
      TornSsd(f, ssd, ssd', pmem, offset, source, k, i);
    }
    if PageAt(f.blocks[k], i / 4096) >= 0 {
      TornPmem(f, |ssd|, pmem, pmem', offset, source, k, i);
    }
  }

  lemma TornPlaceByte(f: File, ssd: seq<byte>, ssd': seq<byte>, pmem: seq<byte>, pmem': seq<byte>,
                      offset: nat, source: seq<byte>, k: nat, i: int)
    requires k < |f.blocks| && BlockOk(f.blocks[k], f.tables, |ssd|, |pmem|) && Readable(f.blocks[k], i)
    requires |ssd'| == |ssd| && |pmem'| == |pmem|
    requires TouchesBlock(offset, |source|, k) ==> BlockPrepared(f, offset, source, k)
    requires PlaceTorn(f, ssd, ssd', pmem, pmem', offset, source, k, i)
    ensures var x, v := k * 32768 + i, BlockByte(f.blocks[k], f.tables, ssd', pmem', i);
            || v == BlockByte(f.blocks[k], f.tables, ssd, pmem, i)
            || (offset <= x < offset + |source| && v == source[x - offset])
  {
    hide SsdTarget, PmemTarget, Prepared;
    if TouchesBlock(offset, |source|, k) {
      BlockByteTorn(f.blocks[k], f.tables, ssd, ssd', pmem, pmem', InsideOf(offset, k), ChunkOf(offset, source, k), i);
      ChunkBytes(offset, source, k, i);
    }
  }

  /** Whatever part of the requests a crash leaves, the uncommitted write shows old bytes outside its range and old or new ones inside. */
  lemma CrashedByte(f: File, ssd: seq<byte>, ssd': seq<byte>, pmem: seq<byte>, pmem': seq<byte>,
                    offset: nat, source: seq<byte>, x: int)
    requires FileOk(f, |ssd|, |pmem|) && WritePrepared(f, offset, source) && 0 <= x < f.size
    requires Torn(ssd', ssd, SsdReqs(PlanOf(f, offset, source), ssd, pmem))
    requires Torn(pmem', pmem, PlanOf(f, offset, source).pmem)
    ensures || ByteAt(f, ssd', pmem', x) == ByteAt(f, ssd, pmem, x)
            || (offset <= x < offset + |source| && ByteAt(f, ssd', pmem', x) == source[x - offset])
  {
    hide PlaceTorn, PlanOf, SsdReqs, MetasApart, PagesApart, SsdApart, BlockByte;
    var k, i := x / 32768, x % 32768;
    TornPlace(f, ssd, ssd', pmem, pmem', offset, source, k, i);
    TornPlaceByte(f, ssd, ssd', pmem, pmem', offset, source, k, i);
  }
}
