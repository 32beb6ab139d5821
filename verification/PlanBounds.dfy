/** Every merge of a plan reads storage that is there. */
module PlanBounds {
  import opened Media
  import opened Layout
  import opened WritePlan
  import opened PlanTargets
  import opened WriteEffect

  predicate MergeOk(m: Merge, ssdSize: nat, pmemSize: nat) {
    0 <= m.ssdOff && m.ssdOff + PAGE <= ssdSize && 0 <= m.nvmOff && m.nvmOff + PAGE <= pmemSize && TableOk(m.table)
  }

  predicate DirectOk(d: DirectMerge, ssdSize: nat) {
    0 <= d.ssdOff && d.ssdOff + BLOCK <= ssdSize && d.inside + |d.data| <= BLOCK
  }

  ghost predicate MergesOk(p: Plan, ssdSize: nat, pmemSize: nat) {
    && (forall m :: m in p.merges ==> MergeOk(m, ssdSize, pmemSize))
    && (forall d :: d in p.directs ==> DirectOk(d, ssdSize))
  }

  lemma {:induction false} GatherMergesOk(plans: seq<Plan>, ssdSize: nat, pmemSize: nat)
    requires forall k :: 0 <= k < |plans| ==> MergesOk(plans[k], ssdSize, pmemSize)
    ensures MergesOk(Gather(plans), ssdSize, pmemSize)
  {
    hide MergeOk, DirectOk;
    if plans != [] {
      GatherMergesOk(plans[..|plans| - 1], ssdSize, pmemSize);
      assert MergesOk(plans[|plans| - 1], ssdSize, pmemSize);
    }
  }

  lemma PageMergesOk(b: Block, tables: map<int, Table>, inside: nat, data: seq<byte>, q: nat, ssdSize: nat, pmemSize: nat)
    requires Prepared(b, tables, inside, |data|) && BlockOk(b, tables, ssdSize, pmemSize)
    requires !b.Ssd? && (b.Strata? ==> |data| != BLOCK) && q < PAGES && TouchesPage(inside, |data|, q)
    ensures MergesOk(PagePlan(b, tables, inside, data, q), ssdSize, pmemSize)
  {
  }

  lemma BlockMergesOk(b: Block, tables: map<int, Table>, inside: nat, data: seq<byte>, ssdSize: nat, pmemSize: nat)
    requires Prepared(b, tables, inside, |data|) && BlockOk(b, tables, ssdSize, pmemSize)
    ensures MergesOk(BlockPlan(b, tables, inside, data), ssdSize, pmemSize)
  {
    if !b.Ssd? && !(b.Strata? && |data| == BLOCK) {
      hide PagePlan, PagePlans, MergesOk, BlockOk;
      var n := PageCount(inside, |data|);
      var plans := PagePlans(b, tables, inside, data, n);
      forall j | 0 <= j < n ensures MergesOk(plans[j], ssdSize, pmemSize) {
        PagePlanAt(b, tables, inside, data, n, j);
        PageMergesOk(b, tables, inside, data, FirstPage(inside) + j, ssdSize, pmemSize);
      }
      GatherMergesOk(plans, ssdSize, pmemSize);
    }
  }

  lemma WriteMergesOk(f: File, offset: nat, source: seq<byte>, ssdSize: nat, pmemSize: nat)
    requires BlocksOk(f, ssdSize, pmemSize) && WritePrepared(f, offset, source)
    ensures MergesOk(PlanOf(f, offset, source), ssdSize, pmemSize)
  {
    hide BlockPlan, BlockPlans, MergesOk, BlockOk, Prepared;
    var n := BlockCount(offset, |source|);
    var plans := BlockPlans(f, offset, source, n);
    forall j | 0 <= j < n ensures MergesOk(plans[j], ssdSize, pmemSize) {
      BlockPlanAt(f, offset, source, n, j);
      var k := FirstBlock(offset) + j;
      BlockMergesOk(f.blocks[k], f.tables, InsideOf(offset, k), ChunkOf(offset, source, k), ssdSize, pmemSize);
    }
    GatherMergesOk(plans, ssdSize, pmemSize);
  }
}
