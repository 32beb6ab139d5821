/** The requests of one write never share a byte, so their order and overlap cannot be observed. */
module PlanOrder {
  import opened Media
  import opened Layout
  import opened WritePlan
  import opened PlanTargets
  import opened WriteEffect

  predicate Within(r: Req, lo: int, n: nat) {
    lo <= r.off && 0 < |r.data| && r.off + |r.data| <= lo + n
  }

  ghost predicate AllWithin(rs: seq<Req>, lo: int, n: nat) {
    forall r :: r in rs ==> Within(r, lo, n)
  }

  lemma SplitApart(rs: seq<Req>, ss: seq<Req>)
    requires PairwiseApart(rs + ss)
    ensures PairwiseApart(rs) && PairwiseApart(ss) && CrossApart(rs, ss)
  {
    var all := rs + ss;
    forall i, j | 0 <= i < j < |rs| ensures Apart(rs[i], rs[j]) {
      assert rs[i] == all[i] && rs[j] == all[j];
    }
    forall i, j | 0 <= i < j < |ss| ensures Apart(ss[i], ss[j]) {
      assert ss[i] == all[|rs| + i] && ss[j] == all[|rs| + j];
    }
    forall r, s | r in rs && s in ss ensures Apart(r, s) {
      var i :| 0 <= i < |rs| && rs[i] == r;
      var j :| 0 <= j < |ss| && ss[j] == s;
      assert r == all[i] && s == all[|rs| + j];
    }
  }

  lemma SplitApart3(rs: seq<Req>, ss: seq<Req>, ts: seq<Req>)
    requires PairwiseApart(rs + ss + ts)
    ensures PairwiseApart(rs) && PairwiseApart(ss) && PairwiseApart(ts)
    ensures CrossApart(rs, ss) && CrossApart(rs, ts) && CrossApart(ss, ts)
  {
    SplitApart(rs + ss, ts);
    SplitApart(rs, ss);
  }

  lemma ConcatApart3(rs: seq<Req>, ss: seq<Req>, ts: seq<Req>)
    requires PairwiseApart(rs) && PairwiseApart(ss) && PairwiseApart(ts)
    requires CrossApart(rs, ss) && CrossApart(rs, ts) && CrossApart(ss, ts)
    ensures PairwiseApart(rs + ss + ts)
  {
  }

  lemma CrossSums(a: seq<Req>, b: seq<Req>, c: seq<Req>, d: seq<Req>, ps: seq<Req>, qs: seq<Req>)
    requires forall r :: r in a || r in c ==> r in ps
    requires forall r :: r in b || r in d ==> r in qs
    requires CrossApart(a, c) && CrossApart(b, d) && CrossApart(ps, qs)
    ensures CrossApart(a + b, c + d)
  {
  }

  lemma JoinLists(p: Plan, q: Plan, ssd: seq<byte>, pmem: seq<byte>)
    ensures MergeReqs(Join(p, q).merges, ssd, pmem) == MergeReqs(p.merges, ssd, pmem) + MergeReqs(q.merges, ssd, pmem)
    ensures DirectReqs(Join(p, q).directs, ssd) == DirectReqs(p.directs, ssd) + DirectReqs(q.directs, ssd)
  {
  }

  lemma JoinApart(p: Plan, q: Plan, ssd: seq<byte>, pmem: seq<byte>)
    requires PairwiseApart(SsdReqs(p, ssd, pmem)) && PairwiseApart(SsdReqs(q, ssd, pmem))
    requires CrossApart(SsdReqs(p, ssd, pmem), SsdReqs(q, ssd, pmem))
    ensures PairwiseApart(SsdReqs(Join(p, q), ssd, pmem))
  {
    var pm, pd := MergeReqs(p.merges, ssd, pmem), DirectReqs(p.directs, ssd);
    var qm, qd := MergeReqs(q.merges, ssd, pmem), DirectReqs(q.directs, ssd);
    SplitApart3(p.early, pm, pd);
    SplitApart3(q.early, qm, qd);
    ConcatApart(p.early, q.early);
    ConcatApart(pm, qm);
    ConcatApart(pd, qd);
    var ps, qs := SsdReqs(p, ssd, pmem), SsdReqs(q, ssd, pmem);
    CrossSums(p.early, q.early, pm, qm, ps, qs);
    CrossSums(p.early, q.early, pd, qd, ps, qs);
    CrossSums(pm, qm, pd, qd, ps, qs);
    ConcatApart3(p.early + q.early, pm + qm, pd + qd);
    JoinLists(p, q, ssd, pmem);
  }

  lemma GatheredReqFrom(plans: seq<Plan>, ssd: seq<byte>, pmem: seq<byte>, r: Req) returns (k: nat)
    requires r in SsdReqs(Gather(plans), ssd, pmem)
    ensures k < |plans| && r in SsdReqs(plans[k], ssd, pmem)
  {
    hide SsdReqs, SsdHas, Gather;
    SsdHasIsMember(Gather(plans), ssd, pmem, r);
    k := GatheredSsdFrom(plans, ssd, pmem, r);
    SsdHasIsMember(plans[k], ssd, pmem, r);
  }

  /** Plans whose requests stay in separate windows gather into one disjoint batch. */
  lemma {:induction false} GatherApart(plans: seq<Plan>, ssd: seq<byte>, pmem: seq<byte>)
    requires forall k :: 0 <= k < |plans| ==> PairwiseApart(SsdReqs(plans[k], ssd, pmem))
    requires forall j, k :: 0 <= j < k < |plans| ==> CrossApart(SsdReqs(plans[j], ssd, pmem), SsdReqs(plans[k], ssd, pmem))
    ensures PairwiseApart(SsdReqs(Gather(plans), ssd, pmem))
  {
    hide Apart;
    if plans != [] {
      var front, last := plans[..|plans| - 1], plans[|plans| - 1];
      GatherApart(front, ssd, pmem);
      forall r, s | r in SsdReqs(Gather(front), ssd, pmem) && s in SsdReqs(last, ssd, pmem) ensures Apart(r, s) {
        var j := GatheredReqFrom(front, ssd, pmem, r);
        assert CrossApart(SsdReqs(plans[j], ssd, pmem), SsdReqs(plans[|plans| - 1], ssd, pmem));
      }
      JoinApart(Gather(front), last, ssd, pmem);
    }
  }

  lemma {:induction false} GatherPmemApart(plans: seq<Plan>)
    requires forall k :: 0 <= k < |plans| ==> PairwiseApart(plans[k].pmem)
    requires forall j, k :: 0 <= j < k < |plans| ==> CrossApart(plans[j].pmem, plans[k].pmem)
    ensures PairwiseApart(Gather(plans).pmem)
  {
    hide Apart;
    if plans != [] {
      var front, last := plans[..|plans| - 1], plans[|plans| - 1];
      GatherPmemApart(front);
      forall r, s | r in Gather(front).pmem && s in last.pmem ensures Apart(r, s) {
        var j := GatheredPmemFrom(front, r);
        assert CrossApart(plans[j].pmem, plans[|plans| - 1].pmem);
      }
      ConcatApart(Gather(front).pmem, last.pmem);
    }
  }

  // ---- SSD requests ----

  lemma PageSsdSingle(b: Block, tables: map<int, Table>, ssd: seq<byte>, pmem: seq<byte>, inside: nat, data: seq<byte>, q: nat)
    requires Prepared(b, tables, inside, |data|) && !b.Ssd? && q < PAGES && TouchesPage(inside, |data|, q)
    requires b.Strata? ==> |data| != BLOCK
    ensures |SsdReqs(PagePlan(b, tables, inside, data, q), ssd, pmem)| <= 1
  {
  }

  lemma PageSsdWithin(b: Block, tables: map<int, Table>, ssd: seq<byte>, pmem: seq<byte>, inside: nat, data: seq<byte>, q: nat, r: Req)
    requires Prepared(b, tables, inside, |data|) && !b.Ssd? && q < PAGES && TouchesPage(inside, |data|, q)
    requires b.Strata? ==> |data| != BLOCK
    requires SsdHas(PagePlan(b, tables, inside, data, q), ssd, pmem, r)
    ensures b.Strata? && Within(r, b.base + q * 4096, PAGE)
  {
  }

  lemma BlockSsdWithin(b: Block, tables: map<int, Table>, ssd: seq<byte>, pmem: seq<byte>, inside: nat, data: seq<byte>, r: Req)
    requires Prepared(b, tables, inside, |data|) && r in SsdReqs(BlockPlan(b, tables, inside, data), ssd, pmem)
    ensures HasBase(b) && Within(r, b.base, BLOCK)
  {
    hide SsdReqs, BlockPlan, SsdHas;
    SsdHasIsMember(BlockPlan(b, tables, inside, data), ssd, pmem, r);
    if HasBase(b) && (b.Ssd? || |data| == BLOCK) {
      WholeSsdReqs(b, tables, ssd, pmem, inside, data, r);
    } else {
      var q := PagedSsdFrom(b, tables, ssd, pmem, inside, data, r);
      PageSsdWithin(b, tables, ssd, pmem, inside, data, q, r);
    }
  }

  lemma PageWindow(b: Block, tables: map<int, Table>, ssd: seq<byte>, pmem: seq<byte>, inside: nat, data: seq<byte>, n: nat, j: nat)
    requires Prepared(b, tables, inside, |data|) && !b.Ssd? && (b.Strata? ==> |data| != BLOCK)
    requires j < n <= PageCount(inside, |data|)
    ensures var rs := SsdReqs(PagePlans(b, tables, inside, data, n)[j], ssd, pmem);
            |rs| <= 1 && (b.Virtual? ==> rs == []) && (b.Strata? ==> AllWithin(rs, b.base + (FirstPage(inside) + j) * 4096, PAGE))
  {
    hide PagePlan, SsdReqs, SsdHas, Within;
    var q := FirstPage(inside) + j;
    PagePlanAt(b, tables, inside, data, n, j);
    PageSsdSingle(b, tables, ssd, pmem, inside, data, q);
    var rs := SsdReqs(PagePlan(b, tables, inside, data, q), ssd, pmem);
    forall r | r in rs ensures b.Strata? && Within(r, b.base + q * 4096, PAGE) {
      SsdHasIsMember(PagePlan(b, tables, inside, data, q), ssd, pmem, r);
      PageSsdWithin(b, tables, ssd, pmem, inside, data, q, r);
    }
    if rs != [] {
      assert rs[0] in rs;
    }
  }

  lemma PagedSsdApart(b: Block, tables: map<int, Table>, ssd: seq<byte>, pmem: seq<byte>, inside: nat, data: seq<byte>)
    requires Prepared(b, tables, inside, |data|) && !b.Ssd? && (b.Strata? ==> |data| != BLOCK)
    ensures PairwiseApart(SsdReqs(Gather(PagePlans(b, tables, inside, data, PageCount(inside, |data|))), ssd, pmem))
  {
    hide PagePlan, SsdReqs, PagePlans;
    var n := PageCount(inside, |data|);
    var plans, first := PagePlans(b, tables, inside, data, n), FirstPage(inside);
    forall j | 0 <= j < n
      ensures |SsdReqs(plans[j], ssd, pmem)| <= 1
      ensures b.Virtual? ==> SsdReqs(plans[j], ssd, pmem) == []
      ensures b.Strata? ==> AllWithin(SsdReqs(plans[j], ssd, pmem), b.base + (first + j) * 4096, PAGE)
    {
      PageWindow(b, tables, ssd, pmem, inside, data, n, j);
    }
    GatherApart(plans, ssd, pmem);
  }

  lemma BlockSsdApart(b: Block, tables: map<int, Table>, ssd: seq<byte>, pmem: seq<byte>, inside: nat, data: seq<byte>)
    requires Prepared(b, tables, inside, |data|)
    ensures PairwiseApart(SsdReqs(BlockPlan(b, tables, inside, data), ssd, pmem))
  {
    if HasBase(b) && (b.Ssd? || |data| == BLOCK) {
      assert |SsdReqs(BlockPlan(b, tables, inside, data), ssd, pmem)| == 1;
    } else {
      PagedSsdApart(b, tables, ssd, pmem, inside, data);
    }
  }

  /** The SSD requests of one write are pairwise disjoint, whatever the merge reads returned. */
  lemma WriteSsdApart(f: File, ssd: seq<byte>, pmem: seq<byte>, offset: nat, source: seq<byte>)
    requires SsdApart(f.blocks) && WritePrepared(f, offset, source)
    ensures PairwiseApart(SsdReqs(PlanOf(f, offset, source), ssd, pmem))
  {
    hide BlockPlan, BlockPlans, SsdReqs, Prepared;
    var n := BlockCount(offset, |source|);
    var plans, first := BlockPlans(f, offset, source, n), FirstBlock(offset);
    forall j | 0 <= j < n ensures PairwiseApart(SsdReqs(plans[j], ssd, pmem)) {
      BlockPlanAt(f, offset, source, n, j);
      BlockSsdApart(f.blocks[first + j], f.tables, ssd, pmem, InsideOf(offset, first + j), ChunkOf(offset, source, first + j));
    }
    forall j, k | 0 <= j < k < n ensures CrossApart(SsdReqs(plans[j], ssd, pmem), SsdReqs(plans[k], ssd, pmem)) {
      forall r, s | r in SsdReqs(plans[j], ssd, pmem) && s in SsdReqs(plans[k], ssd, pmem) ensures Apart(r, s) {
        BlockWindow(f, ssd, pmem, offset, source, j, r);
        BlockWindow(f, ssd, pmem, offset, source, k, s);
      }
    }
    GatherApart(plans, ssd, pmem);
  }

  lemma BlockWindow(f: File, ssd: seq<byte>, pmem: seq<byte>, offset: nat, source: seq<byte>, j: nat, r: Req)
    requires WritePrepared(f, offset, source) && j < BlockCount(offset, |source|)
    requires r in SsdReqs(BlockPlans(f, offset, source, BlockCount(offset, |source|))[j], ssd, pmem)
    ensures var k := FirstBlock(offset) + j;
            k < |f.blocks| && HasBase(f.blocks[k]) && Within(r, f.blocks[k].base, BLOCK)
  {
    hide BlockPlan, SsdReqs, Prepared, Within;
    BlockPlanAt(f, offset, source, BlockCount(offset, |source|), j);
    var k := FirstBlock(offset) + j;
    BlockSsdWithin(f.blocks[k], f.tables, ssd, pmem, InsideOf(offset, k), ChunkOf(offset, source, k), r);
  }

  lemma WriteSsdInBounds(f: File, ssd: seq<byte>, pmem: seq<byte>, offset: nat, source: seq<byte>)
    requires BlocksOk(f, |ssd|, |pmem|) && WritePrepared(f, offset, source)
    ensures AllInBounds(SsdReqs(PlanOf(f, offset, source), ssd, pmem), |ssd|)
  {
    hide BlockPlans, SsdReqs, Prepared;
    forall r | r in SsdReqs(PlanOf(f, offset, source), ssd, pmem) ensures InBounds(r, |ssd|) {
      var j := GatheredReqFrom(BlockPlans(f, offset, source, BlockCount(offset, |source|)), ssd, pmem, r);
      BlockWindow(f, ssd, pmem, offset, source, j, r);
    }
  }

  // ---- PMEM stores ----

  lemma BlockPmemWithin(b: Block, tables: map<int, Table>, inside: nat, data: seq<byte>, r: Req) returns (q: nat)
    requires Prepared(b, tables, inside, |data|) && r in BlockPlan(b, tables, inside, data).pmem
    ensures q < PAGES && PageAt(b, q) >= 0 && Within(r, PageAt(b, q), PAGE)
  {
    hide BlockPlan;
    q := BlockPmemFrom(b, tables, inside, data, r);
  }

  ghost predicate BlockPagesApart(b: Block) {
    forall p, q :: 0 <= p < q < PAGES && PageAt(b, p) >= 0 && PageAt(b, q) >= 0 ==> Disjoint(PageAt(b, p), PageAt(b, q), PAGE)
  }

  lemma PagePmemWithin(b: Block, tables: map<int, Table>, inside: nat, data: seq<byte>, n: nat, j: nat)
    requires Prepared(b, tables, inside, |data|) && !b.Ssd? && (b.Strata? ==> |data| != BLOCK)
    requires j < n <= PageCount(inside, |data|)
    ensures var rs, q := PagePlans(b, tables, inside, data, n)[j].pmem, FirstPage(inside) + j;
            |rs| <= 1 && q < PAGES && PageAt(b, q) >= 0 && AllWithin(rs, PageAt(b, q), PAGE)
  {
    hide PagePlan;
    PagePlanAt(b, tables, inside, data, n, j);
    PagePmem(b, tables, inside, data, FirstPage(inside) + j);
  }

  lemma BlockPmemApart(b: Block, tables: map<int, Table>, inside: nat, data: seq<byte>)
    requires Prepared(b, tables, inside, |data|) && BlockPagesApart(b)
    ensures PairwiseApart(BlockPlan(b, tables, inside, data).pmem)
  {
    hide PagePlan, PagePlans;
    if !b.Ssd? && (b.Strata? ==> |data| != BLOCK) {
      var n := PageCount(inside, |data|);
      var plans, first := PagePlans(b, tables, inside, data, n), FirstPage(inside);
      forall j | 0 <= j < n
        ensures |plans[j].pmem| <= 1 && first + j < PAGES && PageAt(b, first + j) >= 0
        ensures AllWithin(plans[j].pmem, PageAt(b, first + j), PAGE)
      {
        PagePmemWithin(b, tables, inside, data, n, j);
      }
      forall j, k | 0 <= j < k < n ensures CrossApart(plans[j].pmem, plans[k].pmem) {
        assert Disjoint(PageAt(b, first + j), PageAt(b, first + k), PAGE);
      }
      GatherPmemApart(plans);
    }
  }

  lemma BlockPmemWindow(f: File, offset: nat, source: seq<byte>, j: nat, r: Req) returns (q: nat)
    requires WritePrepared(f, offset, source) && j < BlockCount(offset, |source|)
    requires r in BlockPlans(f, offset, source, BlockCount(offset, |source|))[j].pmem
    ensures var k := FirstBlock(offset) + j;
            k < |f.blocks| && q < PAGES && PageAt(f.blocks[k], q) >= 0 && Within(r, PageAt(f.blocks[k], q), PAGE)
  {
    hide BlockPlan, Prepared, Within;
    BlockPlanAt(f, offset, source, BlockCount(offset, |source|), j);
    var k := FirstBlock(offset) + j;
    q := BlockPmemWithin(f.blocks[k], f.tables, InsideOf(offset, k), ChunkOf(offset, source, k), r);
  }

  lemma WritePmemApart(f: File, offset: nat, source: seq<byte>)
    requires PagesApart(f.blocks) && WritePrepared(f, offset, source)
    ensures PairwiseApart(PlanOf(f, offset, source).pmem)
  {
    hide BlockPlan, BlockPlans, Prepared;
    var n := BlockCount(offset, |source|);
    var plans, first := BlockPlans(f, offset, source, n), FirstBlock(offset);
    forall j | 0 <= j < n ensures PairwiseApart(plans[j].pmem) {
      BlockPlanAt(f, offset, source, n, j);
      BlockPmemApart(f.blocks[first + j], f.tables, InsideOf(offset, first + j), ChunkOf(offset, source, first + j));
    }
    forall j, k | 0 <= j < k < n ensures CrossApart(plans[j].pmem, plans[k].pmem) {
      forall r, s | r in plans[j].pmem && s in plans[k].pmem ensures Apart(r, s) {
        var p := BlockPmemWindow(f, offset, source, j, r);
        var q := BlockPmemWindow(f, offset, source, k, s);
      }
    }
    GatherPmemApart(plans);
  }

  lemma WritePmemInBounds(f: File, ssdSize: nat, pmemSize: nat, offset: nat, source: seq<byte>)
    requires BlocksOk(f, ssdSize, pmemSize) && WritePrepared(f, offset, source)
    ensures AllInBounds(PlanOf(f, offset, source).pmem, pmemSize)
  {
    hide BlockPlans, Prepared;
    forall r | r in PlanOf(f, offset, source).pmem ensures InBounds(r, pmemSize) {
      var j := GatheredPmemFrom(BlockPlans(f, offset, source, BlockCount(offset, |source|)), r);
      var q := BlockPmemWindow(f, offset, source, j, r);
      assert BlockOk(f.blocks[FirstBlock(offset) + j], f.tables, ssdSize, pmemSize);
    }
  }

  // ---- pipelining ----

  lemma MergeReadsUnaffected(p: Plan, ssd: seq<byte>, mid: seq<byte>, pmem: seq<byte>)
    requires Torn(mid, ssd, p.early)
    requires PairwiseApart(SsdReqs(p, ssd, pmem))
    ensures MergeReqs(p.merges, mid, pmem) == MergeReqs(p.merges, ssd, pmem)
    ensures DirectReqs(p.directs, mid) == DirectReqs(p.directs, ssd)
  {
    SplitApart3(p.early, MergeReqs(p.merges, ssd, pmem), DirectReqs(p.directs, ssd));
    forall j | 0 <= j < |p.merges| ensures MergeReq(p.merges[j], mid, pmem) == MergeReq(p.merges[j], ssd, pmem) {
      var s := MergeReqs(p.merges, ssd, pmem)[j];
      WindowUnaffected(p.early, s, ssd, mid);
      forall i | 0 <= i < PAGE ensures MergedByte(p.merges[j], mid, pmem, i) == MergedByte(p.merges[j], ssd, pmem, i) {
        assert Covers(s, s.off + i);
      }
    }
    forall j | 0 <= j < |p.directs| ensures DirectReq(p.directs[j], mid) == DirectReq(p.directs[j], ssd) {
      var s := DirectReqs(p.directs, ssd)[j];
      WindowUnaffected(p.early, s, ssd, mid);
      forall i | 0 <= i < BLOCK ensures DirectByte(p.directs[j], mid, i) == DirectByte(p.directs[j], ssd, i) {
        assert Covers(s, s.off + i);
      }
    }
  }

  lemma WindowUnaffected(early: seq<Req>, s: Req, ssd: seq<byte>, mid: seq<byte>)
    requires Torn(mid, ssd, early) && forall r :: r in early ==> Apart(r, s)
    ensures forall a :: Covers(s, a) ==> Peek(mid, a) == Peek(ssd, a)
  {
  }

  /** Merge reads issued while the early writes are in flight, the batch completing in any order:
      the SSD ends as if everything had run one request after the other. */
  lemma PipelineIsInvisible(f: File, ssd: seq<byte>, mid: seq<byte>, pmem: seq<byte>, offset: nat, source: seq<byte>, schedule: seq<nat>)
    requires FileOk(f, |ssd|, |pmem|) && WritePrepared(f, offset, source)
    requires Torn(mid, ssd, PlanOf(f, offset, source).early)
    requires IsSchedule(schedule, |SsdReqs(PlanOf(f, offset, source), mid, pmem)|)
    requires forall r :: r in SsdReqs(PlanOf(f, offset, source), mid, pmem) ==>
               r in Named(SsdReqs(PlanOf(f, offset, source), mid, pmem), schedule)
    ensures AllInBounds(SsdReqs(PlanOf(f, offset, source), ssd, pmem), |ssd|)
    ensures SsdReqs(PlanOf(f, offset, source), mid, pmem) == SsdReqs(PlanOf(f, offset, source), ssd, pmem)
    ensures PutScheduled(ssd, SsdReqs(PlanOf(f, offset, source), mid, pmem), schedule) ==
            PutAll(ssd, SsdReqs(PlanOf(f, offset, source), ssd, pmem))
  {
    hide PlanOf, WritePrepared, Torn, PairwiseApart, PagesApart, MetasApart;
    var p := PlanOf(f, offset, source);
    WriteSsdApart(f, ssd, pmem, offset, source);
    WriteSsdInBounds(f, ssd, pmem, offset, source);
    MergeReadsUnaffected(p, ssd, mid, pmem);
    BatchOrderIsIrrelevant(ssd, SsdReqs(p, ssd, pmem), schedule);
  }
}
