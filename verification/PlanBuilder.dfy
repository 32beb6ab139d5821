/** The loops of the write path: page overlay, planning block by block, and the merged writes. */
module PlanBuilder {
  import opened Media
  import opened Layout
  import opened WritePlan

  /** Lays the PMEM segments of one page over `destination[at..at + PAGE]`, in place.
      False is the source's EIO: the page is not there or a segment leaves the page. */
  method OverlayPage(destination: array<byte>, at: nat, nvm: int, table: Table, pmem: seq<byte>) returns (ok: bool)
    requires at + PAGE <= destination.Length
    requires |table| == TABLE_ENTRIES && 0 <= table[0] <= MAX_SEGMENTS
    modifies destination
    ensures ok <==> 0 <= nvm && nvm + PAGE <= |pmem| && TableOk(table)
    ensures forall j :: 0 <= j < at || at + PAGE <= j < destination.Length ==> destination[j] == old(destination[j])
    ensures ok ==> forall i :: 0 <= i < PAGE ==>
              destination[at + i] == if Covered(table, i) then pmem[nvm + i] else old(destination[at + i])
  {
    if nvm < 0 || nvm + PAGE > |pmem| {
      return false;
    }
    var segment := 0;
    while segment < table[0]
      invariant 0 <= segment <= table[0]
      invariant forall k :: 0 <= k < segment ==> SegmentOk(Start(table, k), Length(table, k))
      invariant forall j :: 0 <= j < at || at + PAGE <= j < destination.Length ==> destination[j] == old(destination[j])
      invariant forall j :: at <= j < at + PAGE ==>
        destination[j] == if CoveredBelow(table, segment, j - at) then pmem[nvm + (j - at)] else old(destination[j])
    {
      var start, length := Start(table, segment), Length(table, segment);
      if start < 0 || length < 0 || start > PAGE || length > PAGE - start {
        assert !SegmentOk(Start(table, segment), Length(table, segment));
        return false;
      }
      forall j | at + start <= j < at + start + length {
        destination[j] := pmem[nvm + (j - at)];
      }
      forall i ensures CoveredBelow(table, segment + 1, i) <==> CoveredBelow(table, segment, i) || start <= i < start + length {
        assert SegmentCovers(table, segment, i) <==> start <= i < start + length;
      }
      segment := segment + 1;
    }
    assert forall i :: CoveredBelow(table, table[0], i) <==> Covered(table, i);
    return true;
  }

  predicate CoveredBelow(table: Table, n: nat, i: int)
    requires |table| == TABLE_ENTRIES && n <= MAX_SEGMENTS
  {
    exists k :: 0 <= k < n && SegmentCovers(table, k, i)
  }

  // ---- planning one block ----

  /** Bytes of the chunk that the first `n` pages take. */
  function Consumed(inside: nat, len: nat, n: nat): nat {
    var end := (FirstPage(inside) + n) * 4096;
    if n == 0 || end < inside then 0 else if end - inside < len then end - inside else len
  }

  lemma PageStep(inside: nat, data: seq<byte>, n: nat)
    requires ChunkOk(inside, |data|) && n <= PageCount(inside, |data|)
    ensures n == PageCount(inside, |data|) <==> Consumed(inside, |data|, n) == |data|
    ensures n < PageCount(inside, |data|) ==>
              var c, q := Consumed(inside, |data|, n), FirstPage(inside) + n;
              && c < |data| && q < PAGES && TouchesPage(inside, |data|, q)
              && (inside + c) / 4096 == q && (inside + c) % 4096 == From(inside, q)
              && To(inside, |data|, q) - From(inside, q) == (if |data| - c < PAGE - From(inside, q) then |data| - c else PAGE - From(inside, q))
              && c + To(inside, |data|, q) - From(inside, q) == Consumed(inside, |data|, n + 1)
              && data[c..Consumed(inside, |data|, n + 1)] == Part(inside, data, q)
  {
  }

  /** One page of the chunk: `bytes` at `inPage`. The chunk itself is only named to say which page plan this is. */
  method PlanPage(b: Block, tables: map<int, Table>, page: nat, inPage: nat, bytes: seq<byte>, toSsd: bool,
                  ghost inside: nat, ghost data: seq<byte>) returns (step: Plan)
    requires ChunkOk(inside, |data|) && TouchesPage(inside, |data|, page) && !b.Ssd?
    requires b.Strata? ==> MetaAt(b, page) in tables && TableOk(tables[MetaAt(b, page)])
    requires inPage == From(inside, page) && bytes == Part(inside, data, page)
    requires toSsd <==> FullPages(inside, |data|) >= SSD_PAGE_THRESHOLD
    ensures step == PagePlan(b, tables, inside, data, page)
  {
    hide AddSegment, EmptyTable, Part, FullPages;
    step := Plan([], [], [], [Req(PageAt(b, page) + inPage, bytes)], map[]);
    if b.Strata? {
      var id := MetaAt(b, page);
      var table := tables[id];
      if toSsd && inPage == 0 && |bytes| == PAGE {
        step := Plan([Req(b.base + page * 4096, bytes)], [], [], [], map[id := EmptyTable()]);
      } else if table[0] == MAX_SEGMENTS {
        step := step.(merges := [Merge(b.base + page * 4096, PageAt(b, page), table)],
                      tables := map[id := AddSegment(EmptyTable(), inPage, |bytes|)]);
      } else {
        step := step.(tables := map[id := AddSegment(table, inPage, |bytes|)]);
      }
    }
  }

  /** Where the next part of the chunk goes: it ends at the page boundary or with the chunk. */
  method NextPart(inside: nat, data: seq<byte>, consumed: nat, ghost n: nat) returns (page: nat, inPage: nat, part: nat)
    requires ChunkOk(inside, |data|) && n <= PageCount(inside, |data|) && consumed == Consumed(inside, |data|, n) < |data|
    ensures page == FirstPage(inside) + n < PAGES && n < PageCount(inside, |data|) && TouchesPage(inside, |data|, page)
    ensures part > 0 && inPage == From(inside, page) && consumed + part == Consumed(inside, |data|, n + 1) <= |data|
    ensures data[consumed..consumed + part] == Part(inside, data, page)
  {
    PageStep(inside, data, n);
    var position := inside + consumed;
    page, inPage := position / 4096, position % 4096;
    part := if |data| - consumed < PAGE - inPage then |data| - consumed else PAGE - inPage;
  }

  method PlanPages(b: Block, tables: map<int, Table>, inside: nat, data: seq<byte>) returns (r: Option<Plan>)
    requires ChunkOk(inside, |data|) && BlockShape(b, tables) && !b.Ssd? && (b.Strata? ==> |data| != BLOCK)
    ensures r.Some? <==> Prepared(b, tables, inside, |data|)
    ensures r.Some? ==> r.value == Gather(PagePlans(b, tables, inside, data, PageCount(inside, |data|)))
  {
    hide Part, From, To, Consumed, PageCount, FirstPage, Gather, PagePlan, PagePlans, TableOk, BlockShape, Prepared, FullPages,
      TouchesPage, Join, PresentBelow, NoPlan;
    var toSsd := FullPages(inside, |data|) >= SSD_PAGE_THRESHOLD;
    var plan, consumed := NoPlan(), 0;
    ghost var n := 0;
    NoPagesYet(b, tables, inside, data);
    while consumed < |data|
      invariant n <= PageCount(inside, |data|) && consumed == Consumed(inside, |data|, n)
      invariant PresentBelow(b, inside, n)
      invariant Prepared(b, tables, inside, |data|) ==> plan == Gather(PagePlans(b, tables, inside, data, n))
      decreases |data| - consumed
    {
      var page, inPage, part := NextPart(inside, data, consumed, n);
      if page >= PAGES || PageAt(b, page) < 0 {
        MissingMeansUnprepared(b, tables, inside, |data|, page);
        return None;
      }
      if b.Strata? {
        TableOfPage(b, tables, page);
      }
      var bytes := data[consumed..consumed + part];
      var step := PlanPage(b, tables, page, inPage, bytes, toSsd, inside, data);
      if Prepared(b, tables, inside, |data|) {
        GatherNextPage(b, tables, inside, data, n);
      }
      PresentNext(b, inside, n);
      plan, consumed, n := Join(plan, step), consumed + part, n + 1;
    }
    PageStep(inside, data, n);
    PresentMeansPrepared(b, tables, inside, |data|);
    r := Some(plan);
  }

  predicate PresentBelow(b: Block, inside: nat, n: nat) {
    forall q :: FirstPage(inside) <= q < FirstPage(inside) + n ==> PageAt(b, q) >= 0
  }

  lemma NoPagesYet(b: Block, tables: map<int, Table>, inside: nat, data: seq<byte>)
    requires ChunkOk(inside, |data|) && !b.Ssd? && (b.Strata? ==> |data| != BLOCK)
    ensures Consumed(inside, |data|, 0) == 0 && PresentBelow(b, inside, 0)
    ensures Prepared(b, tables, inside, |data|) ==> Gather(PagePlans(b, tables, inside, data, 0)) == NoPlan()
  {
  }

  lemma PresentNext(b: Block, inside: nat, n: nat)
    requires PresentBelow(b, inside, n) && PageAt(b, FirstPage(inside) + n) >= 0
    ensures PresentBelow(b, inside, n + 1)
  {
  }

  lemma TableOfPage(b: Block, tables: map<int, Table>, q: nat)
    requires BlockShape(b, tables) && q < PAGES && PageAt(b, q) >= 0 && b.Strata?
    ensures MetaAt(b, q) in tables && TableOk(tables[MetaAt(b, q)])
  {
  }

  lemma MissingMeansUnprepared(b: Block, tables: map<int, Table>, inside: nat, n: nat, q: nat)
    requires q < PAGES && TouchesPage(inside, n, q) && PageAt(b, q) < 0 && !b.Ssd? && (b.Strata? ==> n != BLOCK)
    ensures !Prepared(b, tables, inside, n)
  {
  }

  lemma PresentMeansPrepared(b: Block, tables: map<int, Table>, inside: nat, n: nat)
    requires ChunkOk(inside, n) && BlockShape(b, tables) && PresentBelow(b, inside, PageCount(inside, n))
    ensures Prepared(b, tables, inside, n)
  {
  }

  lemma GatherNextPage(b: Block, tables: map<int, Table>, inside: nat, data: seq<byte>, n: nat)
    requires Prepared(b, tables, inside, |data|) && !b.Ssd? && (b.Strata? ==> |data| != BLOCK)
    requires n < PageCount(inside, |data|) && TouchesPage(inside, |data|, FirstPage(inside) + n) && FirstPage(inside) + n < PAGES
    ensures Gather(PagePlans(b, tables, inside, data, n + 1)) ==
            Join(Gather(PagePlans(b, tables, inside, data, n)), PagePlan(b, tables, inside, data, FirstPage(inside) + n))
  {
  }

  /** The tables of a STRATA block that is overwritten whole, all cleared. */
  method ClearTables(b: Block) returns (cleared: map<int, Table>)
    requires b.Strata? && |b.metas| == PAGES
    ensures cleared == ClearedTables(b)
  {
    cleared := map[];
    var page := 0;
    while page < PAGES
      invariant 0 <= page <= PAGES
      invariant forall id :: id in cleared <==> exists q :: 0 <= q < page && MetaAt(b, q) >= 0 && MetaAt(b, q) == id
      invariant forall id :: id in cleared ==> cleared[id] == EmptyTable()
    {
      if MetaAt(b, page) >= 0 {
        cleared := cleared[MetaAt(b, page) := EmptyTable()];
      }
      page := page + 1;
    }
    forall id ensures id in cleared <==> id in ClearedTables(b) {
      if id in cleared {
        var q :| 0 <= q < PAGES && MetaAt(b, q) >= 0 && MetaAt(b, q) == id;
      }
    }
  }

  /** One turn of the planning loop; None is the source's EIO. */
  method PlanBlock(b: Block, tables: map<int, Table>, inside: nat, data: seq<byte>) returns (r: Option<Plan>)
    requires ChunkOk(inside, |data|) && BlockShape(b, tables)
    ensures r.Some? <==> Prepared(b, tables, inside, |data|)
    ensures r.Some? ==> r.value == BlockPlan(b, tables, inside, data)
  {
    hide PagePlans, Gather, ClearedTables;
    if HasBase(b) && |data| == BLOCK {
      var cleared: map<int, Table> := map[];
      if b.Strata? {
        cleared := ClearTables(b);
      }
      r := Some(Plan([Req(b.base, data)], [], [], [], cleared));
    } else if b.Ssd? {
      r := Some(Plan([], [], [DirectMerge(b.base, inside, data)], [], map[]));
    } else {
      r := PlanPages(b, tables, inside, data);
    }
  }

  // ---- the writes that follow the merge reads ----

  /** Reads every page and block to be merged from `ssd`, lays PMEM or the new bytes over it, and makes it a request. */
  method MergeWrites(plan: Plan, ssd: seq<byte>, pmem: seq<byte>) returns (writes: Option<seq<Req>>)
    requires forall m :: m in plan.merges ==> 0 <= m.ssdOff && m.ssdOff + PAGE <= |ssd| && |m.table| == TABLE_ENTRIES && 0 <= m.table[0] <= MAX_SEGMENTS
    requires forall d :: d in plan.directs ==> 0 <= d.ssdOff && d.ssdOff + BLOCK <= |ssd| && d.inside + |d.data| <= BLOCK
    ensures writes.Some? <==> forall m :: m in plan.merges ==> 0 <= m.nvmOff && m.nvmOff + PAGE <= |pmem| && TableOk(m.table)
    ensures writes.Some? ==> writes.value == MergeReqs(plan.merges, ssd, pmem) + DirectReqs(plan.directs, ssd)
  {
    hide TableOk, MergedByte, DirectByte;
    var reqs: seq<Req> := [];
    var i := 0;
    while i < |plan.merges|
      invariant 0 <= i <= |plan.merges|
      invariant forall j :: 0 <= j < i ==> 0 <= plan.merges[j].nvmOff && plan.merges[j].nvmOff + PAGE <= |pmem| && TableOk(plan.merges[j].table)
      invariant reqs == MergeReqs(plan.merges, ssd, pmem)[..i]
    {
      var r := MergePage(plan.merges[i], ssd, pmem);
      if r.None? {
        return None;
      }
      reqs := reqs + [r.value];
      i := i + 1;
    }
    i := 0;
    while i < |plan.directs|
      invariant 0 <= i <= |plan.directs|
      invariant reqs == MergeReqs(plan.merges, ssd, pmem) + DirectReqs(plan.directs, ssd)[..i]
    {
      var d := plan.directs[i];
      assert d in plan.directs;
      var block := ssd[d.ssdOff..d.ssdOff + BLOCK];
      var merged := block[..d.inside] + d.data + block[d.inside + |d.data|..];
      reqs := reqs + [Req(d.ssdOff, merged)];
      SameDirect(d, ssd, merged);
      i := i + 1;
    }
    writes := Some(reqs);
  }

  lemma SameDirect(d: DirectMerge, ssd: seq<byte>, merged: seq<byte>)
    requires 0 <= d.ssdOff && d.ssdOff + BLOCK <= |ssd| && d.inside + |d.data| <= BLOCK
    requires var block := ssd[d.ssdOff..d.ssdOff + BLOCK]; merged == block[..d.inside] + d.data + block[d.inside + |d.data|..]
    ensures Req(d.ssdOff, merged) == DirectReq(d, ssd)
  {
  }

  method MergePage(m: Merge, ssd: seq<byte>, pmem: seq<byte>) returns (r: Option<Req>)
    requires 0 <= m.ssdOff && m.ssdOff + PAGE <= |ssd| && |m.table| == TABLE_ENTRIES && 0 <= m.table[0] <= MAX_SEGMENTS
    ensures r.Some? <==> 0 <= m.nvmOff && m.nvmOff + PAGE <= |pmem| && TableOk(m.table)
    ensures r.Some? ==> r.value == MergeReq(m, ssd, pmem)
  {
    hide TableOk;
    var page := new byte[PAGE](i requires 0 <= i < PAGE => ssd[m.ssdOff + i]);
    var ok := OverlayPage(page, 0, m.nvmOff, m.table, pmem);
    if !ok {
      return None;
    }
    forall i | 0 <= i < PAGE ensures page[..][i] == MergedByte(m, ssd, pmem, i) {
      assert page[0 + i] == page[i];
    }
    r := Some(Req(m.ssdOff, page[..]));
  }
}
