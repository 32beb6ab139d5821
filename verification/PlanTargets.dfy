/** The request vectors of a plan put exactly the target bytes at exactly the target places. */
module PlanTargets {
  import opened Media
  import opened Layout
  import opened WritePlan

  // ---- membership in gathered plans ----

  ghost predicate HasMerge(ms: seq<Merge>, ssd: seq<byte>, pmem: seq<byte>, r: Req) {
    exists m :: m in ms && r == MergeReq(m, ssd, pmem)
  }

  ghost predicate HasDirect(ds: seq<DirectMerge>, ssd: seq<byte>, r: Req) {
    exists d :: d in ds && r == DirectReq(d, ssd)
  }

  /** `r` is one of the SSD requests of the plan. */
  ghost predicate SsdHas(p: Plan, ssd: seq<byte>, pmem: seq<byte>, r: Req) {
    r in p.early || HasMerge(p.merges, ssd, pmem, r) || HasDirect(p.directs, ssd, r)
  }

  lemma SsdHasIsMember(p: Plan, ssd: seq<byte>, pmem: seq<byte>, r: Req)
    ensures SsdHas(p, ssd, pmem, r) <==> r in SsdReqs(p, ssd, pmem)
  {
  }

  lemma JoinSsd(p: Plan, q: Plan, ssd: seq<byte>, pmem: seq<byte>, r: Req)
    ensures SsdHas(Join(p, q), ssd, pmem, r) <==> SsdHas(p, ssd, pmem, r) || SsdHas(q, ssd, pmem, r)
  {
  }

  lemma {:induction false} GatheredSsdFrom(plans: seq<Plan>, ssd: seq<byte>, pmem: seq<byte>, r: Req) returns (k: nat)
    requires SsdHas(Gather(plans), ssd, pmem, r)
    ensures k < |plans| && SsdHas(plans[k], ssd, pmem, r)
  {
    var front, last := plans[..|plans| - 1], plans[|plans| - 1];
    JoinSsd(Gather(front), last, ssd, pmem, r);
    if SsdHas(last, ssd, pmem, r) {
      k := |plans| - 1;
    } else {
      k := GatheredSsdFrom(front, ssd, pmem, r);
    }
  }

  lemma {:induction false} GatheredSsdInto(plans: seq<Plan>, ssd: seq<byte>, pmem: seq<byte>, k: nat, r: Req)
    requires k < |plans| && SsdHas(plans[k], ssd, pmem, r)
    ensures SsdHas(Gather(plans), ssd, pmem, r)
  {
    var front, last := plans[..|plans| - 1], plans[|plans| - 1];
    JoinSsd(Gather(front), last, ssd, pmem, r);
    if k < |front| {
      GatheredSsdInto(front, ssd, pmem, k, r);
    }
  }

  lemma {:induction false} GatheredPmemFrom(plans: seq<Plan>, r: Req) returns (k: nat)
    requires r in Gather(plans).pmem
    ensures k < |plans| && r in plans[k].pmem
  {
    if r in plans[|plans| - 1].pmem {
      k := |plans| - 1;
    } else {
      k := GatheredPmemFrom(plans[..|plans| - 1], r);
    }
  }

  lemma {:induction false} GatheredPmemInto(plans: seq<Plan>, k: nat, r: Req)
    requires k < |plans| && r in plans[k].pmem
    ensures r in Gather(plans).pmem
  {
    if k < |plans| - 1 {
      GatheredPmemInto(plans[..|plans| - 1], k, r);
    }
  }

  lemma {:induction false} GatheredTablesFrom(plans: seq<Plan>, id: int) returns (k: nat)
    requires id in Gather(plans).tables
    ensures k < |plans| && id in plans[k].tables && Gather(plans).tables[id] == plans[k].tables[id]
  {
    if id in plans[|plans| - 1].tables {
      k := |plans| - 1;
    } else {
      k := GatheredTablesFrom(plans[..|plans| - 1], id);
    }
  }

  lemma {:induction false} GatheredTablesInto(plans: seq<Plan>, k: nat, id: int)
    requires k < |plans| && id in plans[k].tables
    ensures id in Gather(plans).tables
  {
    if k < |plans| - 1 {
      GatheredTablesInto(plans[..|plans| - 1], k, id);
    }
  }

  lemma {:induction false} PagePlanAt(b: Block, tables: map<int, Table>, inside: nat, data: seq<byte>, n: nat, j: nat)
    requires Prepared(b, tables, inside, |data|) && !b.Ssd? && (b.Strata? ==> |data| != BLOCK)
    requires j < n <= PageCount(inside, |data|)
    ensures TouchesPage(inside, |data|, FirstPage(inside) + j) && FirstPage(inside) + j < PAGES
    ensures PagePlans(b, tables, inside, data, n)[j] == PagePlan(b, tables, inside, data, FirstPage(inside) + j)
  {
    hide PagePlan;
    var q := FirstPage(inside) + j;
    PageOfChunk(inside, |data|, q);
    var front := PagePlans(b, tables, inside, data, n - 1);
    if j < n - 1 {
      PagePlanAt(b, tables, inside, data, n - 1, j);
      assert PagePlans(b, tables, inside, data, n)[j] == front[j];
    } else {
      assert PagePlans(b, tables, inside, data, n) == front + [PagePlan(b, tables, inside, data, q)];
    }
  }

  // ---- SSD ----

  /** The SSD request of one page, if it has one. */
  function PageReq(b: Block, tables: map<int, Table>, ssd: seq<byte>, pmem: seq<byte>, inside: nat, data: seq<byte>, q: nat): Option<Req>
    requires ChunkOk(inside, |data|) && TouchesPage(inside, |data|, q) && !b.Ssd?
    requires b.Strata? ==> MetaAt(b, q) in tables && TableOk(tables[MetaAt(b, q)])
  {
    if b.Virtual? then None
    else if FullToSsd(inside, |data|, q) then Some(Req(b.base + q * 4096, Part(inside, data, q)))
    else if tables[MetaAt(b, q)][0] == MAX_SEGMENTS then
      Some(MergeReq(Merge(b.base + q * 4096, PageAt(b, q), tables[MetaAt(b, q)]), ssd, pmem))
    else None
  }

  lemma PageSsdReqs(b: Block, tables: map<int, Table>, ssd: seq<byte>, pmem: seq<byte>,
                    inside: nat, data: seq<byte>, q: nat, r: Req)
    requires ChunkOk(inside, |data|) && TouchesPage(inside, |data|, q) && !b.Ssd?
    requires b.Strata? ==> MetaAt(b, q) in tables && TableOk(tables[MetaAt(b, q)])
    ensures SsdHas(PagePlan(b, tables, inside, data, q), ssd, pmem, r) <==> PageReq(b, tables, ssd, pmem, inside, data, q) == Some(r)
  {
  }

  lemma PartByte(inside: nat, data: seq<byte>, q: nat, c: int)
    requires ChunkOk(inside, |data|) && TouchesPage(inside, |data|, q) && From(inside, q) <= c < To(inside, |data|, q)
    ensures var i := q * 4096 + c;
            && i / 4096 == q && i % 4096 == c && i < BLOCK && Written(inside, |data|, i)
            && Part(inside, data, q)[c - From(inside, q)] == data[i - inside]
  {
  }

  lemma FullPageSound(b: Block, tables: map<int, Table>, ssd: seq<byte>, pmem: seq<byte>,
                      inside: nat, data: seq<byte>, q: nat, r: Req, a: int)
    requires BlockOk(b, tables, |ssd|, |pmem|) && ChunkOk(inside, |data|)
    requires b.Strata? && |data| != BLOCK && q < PAGES && TouchesPage(inside, |data|, q) && FullToSsd(inside, |data|, q)
    requires r == Req(b.base + q * 4096, Part(inside, data, q)) && Covers(r, a)
    ensures b.base + q * 4096 <= a < b.base + (q + 1) * 4096
    ensures SsdTarget(b, tables, ssd, pmem, inside, data, a - b.base) == Some(r.data[a - r.off])
  {
    PartByte(inside, data, q, a - r.off);
  }

  lemma MergedPageSound(b: Block, tables: map<int, Table>, ssd: seq<byte>, pmem: seq<byte>,
                        inside: nat, data: seq<byte>, q: nat, r: Req, a: int)
    requires BlockOk(b, tables, |ssd|, |pmem|) && ChunkOk(inside, |data|)
    requires b.Strata? && |data| != BLOCK && q < PAGES && TouchesPage(inside, |data|, q) && !FullToSsd(inside, |data|, q)
    requires MetaAt(b, q) >= 0 && tables[MetaAt(b, q)][0] == MAX_SEGMENTS
    requires r == MergeReq(Merge(b.base + q * 4096, PageAt(b, q), tables[MetaAt(b, q)]), ssd, pmem) && Covers(r, a)
    ensures b.base + q * 4096 <= a < b.base + (q + 1) * 4096
    ensures SsdTarget(b, tables, ssd, pmem, inside, data, a - b.base) == Some(r.data[a - r.off])
  {
    var i := a - b.base;
    assert i / 4096 == q && i % 4096 == a - r.off;
    assert Merges(b, tables, inside, |data|, i);
    assert r.data[a - r.off] == MergedByte(Merge(b.base + q * 4096, PageAt(b, q), tables[MetaAt(b, q)]), ssd, pmem, a - r.off);
    assert BlockByte(b, tables, ssd, pmem, i) == r.data[a - r.off];
  }

  lemma PageSsdSound(b: Block, tables: map<int, Table>, ssd: seq<byte>, pmem: seq<byte>,
                     inside: nat, data: seq<byte>, q: nat, r: Req, a: int)
    requires Prepared(b, tables, inside, |data|) && BlockOk(b, tables, |ssd|, |pmem|)
    requires !b.Ssd? && (b.Strata? ==> |data| != BLOCK) && q < PAGES && TouchesPage(inside, |data|, q)
    requires SsdHas(PagePlan(b, tables, inside, data, q), ssd, pmem, r) && Covers(r, a)
    ensures b.Strata? && b.base + q * 4096 <= a < b.base + (q + 1) * 4096
    ensures SsdTarget(b, tables, ssd, pmem, inside, data, a - b.base) == Some(r.data[a - r.off])
  {
    hide PagePlan, SsdTarget, Part;
    PageSsdReqs(b, tables, ssd, pmem, inside, data, q, r);
    if FullToSsd(inside, |data|, q) {
      FullPageSound(b, tables, ssd, pmem, inside, data, q, r, a);
    } else {
      MergedPageSound(b, tables, ssd, pmem, inside, data, q, r, a);
    }
  }

  lemma WholeSsdReqs(b: Block, tables: map<int, Table>, ssd: seq<byte>, pmem: seq<byte>, inside: nat, data: seq<byte>, r: Req)
    requires Prepared(b, tables, inside, |data|) && HasBase(b) && (b.Ssd? || |data| == BLOCK)
    ensures SsdHas(BlockPlan(b, tables, inside, data), ssd, pmem, r) <==>
            r == if |data| == BLOCK then Req(b.base, data) else DirectReq(DirectMerge(b.base, inside, data), ssd)
  {
  }

  lemma PagedSsdFrom(b: Block, tables: map<int, Table>, ssd: seq<byte>, pmem: seq<byte>,
                     inside: nat, data: seq<byte>, r: Req) returns (q: nat)
    requires Prepared(b, tables, inside, |data|) && !b.Ssd? && (b.Strata? ==> |data| != BLOCK)
    requires SsdHas(BlockPlan(b, tables, inside, data), ssd, pmem, r)
    ensures q < PAGES && TouchesPage(inside, |data|, q)
    ensures SsdHas(PagePlan(b, tables, inside, data, q), ssd, pmem, r)
  {
    hide PagePlan, SsdHas;
    var n := PageCount(inside, |data|);
    var j := GatheredSsdFrom(PagePlans(b, tables, inside, data, n), ssd, pmem, r);
    PagePlanAt(b, tables, inside, data, n, j);
    q := FirstPage(inside) + j;
  }

  lemma WholeSsdSound(b: Block, tables: map<int, Table>, ssd: seq<byte>, pmem: seq<byte>,
                      inside: nat, data: seq<byte>, r: Req, a: int)
    requires Prepared(b, tables, inside, |data|) && BlockOk(b, tables, |ssd|, |pmem|)
    requires HasBase(b) && (b.Ssd? || |data| == BLOCK)
    requires SsdHas(BlockPlan(b, tables, inside, data), ssd, pmem, r) && Covers(r, a)
    ensures b.base <= a < b.base + BLOCK
    ensures SsdTarget(b, tables, ssd, pmem, inside, data, a - b.base) == Some(r.data[a - r.off])
  {
    WholeSsdReqs(b, tables, ssd, pmem, inside, data, r);
  }

  lemma BlockSsdSound(b: Block, tables: map<int, Table>, ssd: seq<byte>, pmem: seq<byte>,
                      inside: nat, data: seq<byte>, r: Req, a: int)
    requires Prepared(b, tables, inside, |data|) && BlockOk(b, tables, |ssd|, |pmem|)
    requires SsdHas(BlockPlan(b, tables, inside, data), ssd, pmem, r) && Covers(r, a)
    ensures HasBase(b) && b.base <= a < b.base + BLOCK
    ensures SsdTarget(b, tables, ssd, pmem, inside, data, a - b.base) == Some(r.data[a - r.off])
  {
    hide BlockPlan, SsdTarget;
    if HasBase(b) && (b.Ssd? || |data| == BLOCK) {
      WholeSsdSound(b, tables, ssd, pmem, inside, data, r, a);
    } else {
      var q := PagedSsdFrom(b, tables, ssd, pmem, inside, data, r);
      PageSsdSound(b, tables, ssd, pmem, inside, data, q, r, a);
    }
  }

  lemma BlockSsdComplete(b: Block, tables: map<int, Table>, ssd: seq<byte>, pmem: seq<byte>,
                         inside: nat, data: seq<byte>, i: int) returns (r: Req)
    requires Prepared(b, tables, inside, |data|) && BlockOk(b, tables, |ssd|, |pmem|) && 0 <= i < BLOCK
    requires SsdTarget(b, tables, ssd, pmem, inside, data, i).Some?
    ensures HasBase(b) && SsdHas(BlockPlan(b, tables, inside, data), ssd, pmem, r) && Covers(r, b.base + i)
  {
    if b.Ssd? || |data| == BLOCK {
      r := if |data| == BLOCK then Req(b.base, data) else DirectReq(DirectMerge(b.base, inside, data), ssd);
      WholeSsdReqs(b, tables, ssd, pmem, inside, data, r);
    } else {
      var q := i / 4096;
      r := PageReq(b, tables, ssd, pmem, inside, data, q).value;
      PageSsdReqs(b, tables, ssd, pmem, inside, data, q, r);
      PageOfChunk(inside, |data|, q);
      var n, j := PageCount(inside, |data|), q - FirstPage(inside);
      PagePlanAt(b, tables, inside, data, n, j);
      GatheredSsdInto(PagePlans(b, tables, inside, data, n), ssd, pmem, j, r);
    }
  }

  // ---- PMEM ----

  lemma PagePmem(b: Block, tables: map<int, Table>, inside: nat, data: seq<byte>, q: nat)
    requires ChunkOk(inside, |data|) && TouchesPage(inside, |data|, q) && !b.Ssd?
    requires b.Strata? ==> MetaAt(b, q) in tables && TableOk(tables[MetaAt(b, q)])
    ensures PagePlan(b, tables, inside, data, q).pmem ==
            if b.Strata? && FullToSsd(inside, |data|, q) then []
            else [Req(PageAt(b, q) + From(inside, q), Part(inside, data, q))]
  {
  }

  lemma BlockPmemFrom(b: Block, tables: map<int, Table>, inside: nat, data: seq<byte>, r: Req) returns (q: nat)
    requires Prepared(b, tables, inside, |data|) && r in BlockPlan(b, tables, inside, data).pmem
    ensures !b.Ssd? && (b.Strata? ==> |data| != BLOCK) && q < PAGES && TouchesPage(inside, |data|, q)
    ensures b.Strata? ==> !FullToSsd(inside, |data|, q)
    ensures r == Req(PageAt(b, q) + From(inside, q), Part(inside, data, q))
  {
    hide PagePlan, Part, From, To;
    var n := PageCount(inside, |data|);
    var j := GatheredPmemFrom(PagePlans(b, tables, inside, data, n), r);
    PagePlanAt(b, tables, inside, data, n, j);
    q := FirstPage(inside) + j;
    PagePmem(b, tables, inside, data, q);
  }

  lemma BlockPmemInto(b: Block, tables: map<int, Table>, inside: nat, data: seq<byte>, q: nat)
    requires Prepared(b, tables, inside, |data|) && !b.Ssd? && (b.Strata? ==> |data| != BLOCK)
    requires q < PAGES && TouchesPage(inside, |data|, q) && (b.Strata? ==> !FullToSsd(inside, |data|, q))
    ensures Req(PageAt(b, q) + From(inside, q), Part(inside, data, q)) in BlockPlan(b, tables, inside, data).pmem
  {
    hide PagePlan, Part, From, To;
    PageOfChunk(inside, |data|, q);
    var n, j := PageCount(inside, |data|), q - FirstPage(inside);
    PagePlanAt(b, tables, inside, data, n, j);
    PagePmem(b, tables, inside, data, q);
    GatheredPmemInto(PagePlans(b, tables, inside, data, n), j, PagePlan(b, tables, inside, data, q).pmem[0]);
  }

  lemma BlockPmemSound(b: Block, tables: map<int, Table>, inside: nat, data: seq<byte>, r: Req, a: int) returns (i: nat)
    requires Prepared(b, tables, inside, |data|)
    requires r in BlockPlan(b, tables, inside, data).pmem && Covers(r, a)
    ensures i < BLOCK && PageAt(b, i / 4096) >= 0 && a == PageAt(b, i / 4096) + i % 4096
    ensures PmemTarget(b, inside, data, i) == Some(r.data[a - r.off])
  {
    hide BlockPlan, Part;
    var q := BlockPmemFrom(b, tables, inside, data, r);
    i := q * 4096 + (a - PageAt(b, q));
    PartByte(inside, data, q, a - PageAt(b, q));
  }

  lemma BlockPmemComplete(b: Block, tables: map<int, Table>, inside: nat, data: seq<byte>, i: int) returns (r: Req)
    requires Prepared(b, tables, inside, |data|)
    requires PmemTarget(b, inside, data, i).Some?
    ensures PageAt(b, i / 4096) >= 0
    ensures r in BlockPlan(b, tables, inside, data).pmem && Covers(r, PageAt(b, i / 4096) + i % 4096)
  {
    hide BlockPlan;
    var q := i / 4096;
    assert TouchesPage(inside, |data|, q);
    BlockPmemInto(b, tables, inside, data, q);
    r := Req(PageAt(b, q) + From(inside, q), Part(inside, data, q));
  }

  // ---- segment tables ----

  lemma PageTables(b: Block, tables: map<int, Table>, inside: nat, data: seq<byte>, q: nat)
    requires ChunkOk(inside, |data|) && TouchesPage(inside, |data|, q) && !b.Ssd? && (b.Strata? ==> |data| != BLOCK)
    requires b.Strata? ==> MetaAt(b, q) in tables && TableOk(tables[MetaAt(b, q)])
    ensures PagePlan(b, tables, inside, data, q).tables ==
            if b.Virtual? then map[] else map[MetaAt(b, q) := TableTarget(b, tables, inside, data, q)]
  {
  }

  lemma WholeTablesFrom(b: Block, tables: map<int, Table>, inside: nat, data: seq<byte>, id: int) returns (q: nat)
    requires Prepared(b, tables, inside, |data|) && HasBase(b) && |data| == BLOCK
    requires id in BlockPlan(b, tables, inside, data).tables
    ensures b.Strata? && q < PAGES && MetaAt(b, q) == id && id >= 0
    ensures BlockPlan(b, tables, inside, data).tables[id] == TableTarget(b, tables, inside, data, q)
  {
    q :| 0 <= q < PAGES && MetaAt(b, q) == id;
  }

  /** The table a block's plan commits under `id` is the target of the one page that owns `id`. */
  lemma BlockTablesFrom(b: Block, tables: map<int, Table>, inside: nat, data: seq<byte>, id: int) returns (q: nat)
    requires Prepared(b, tables, inside, |data|)
    requires id in BlockPlan(b, tables, inside, data).tables
    ensures b.Strata? && q < PAGES && MetaAt(b, q) == id && id >= 0
    ensures BlockPlan(b, tables, inside, data).tables[id] == TableTarget(b, tables, inside, data, q)
  {
    hide PagePlan, TableTarget;
    if HasBase(b) && |data| == BLOCK {
      q := WholeTablesFrom(b, tables, inside, data, id);
    } else {
      var n := PageCount(inside, |data|);
      var j := GatheredTablesFrom(PagePlans(b, tables, inside, data, n), id);
      PagePlanAt(b, tables, inside, data, n, j);
      q := FirstPage(inside) + j;
      PageTables(b, tables, inside, data, q);
    }
  }

  lemma BlockTablesInto(b: Block, tables: map<int, Table>, inside: nat, data: seq<byte>, q: nat)
    requires Prepared(b, tables, inside, |data|)
    requires b.Strata? && q < PAGES && MetaAt(b, q) >= 0 && MetaAt(b, q) !in BlockPlan(b, tables, inside, data).tables
    ensures tables[MetaAt(b, q)] == TableTarget(b, tables, inside, data, q)
  {
    hide PagePlan, AddSegment, FullToSsd;
    if |data| != BLOCK && TouchesPage(inside, |data|, q) {
      PageOfChunk(inside, |data|, q);
      var n, j := PageCount(inside, |data|), q - FirstPage(inside);
      PagePlanAt(b, tables, inside, data, n, j);
      PageTables(b, tables, inside, data, q);
      GatheredTablesInto(PagePlans(b, tables, inside, data, n), j, MetaAt(b, q));
    }
  }
}
