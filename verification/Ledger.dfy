/** The books of the storage: what a file holds and what is still free add up to the same units for ever. */
module Ledger {
  import opened Media
  import opened Layout
  import opened WritePlan
  import opened WritePrepare

  datatype Units = Units(pages: set<int>, bases: set<int>, metas: set<int>)

  ghost function PagesOf(blocks: seq<Block>): set<int> {
    set k, p | 0 <= k < |blocks| && 0 <= p < PAGES && PageAt(blocks[k], p) >= 0 :: PageAt(blocks[k], p)
  }

  ghost function MetasOf(blocks: seq<Block>): set<int> {
    set k, p | 0 <= k < |blocks| && 0 <= p < PAGES && MetaAt(blocks[k], p) >= 0 :: MetaAt(blocks[k], p)
  }

  ghost function BasesOf(blocks: seq<Block>): set<int> {
    set k | 0 <= k < |blocks| && HasBase(blocks[k]) :: blocks[k].base
  }

  ghost function All(ids: seq<int>): set<int> {
    set i | 0 <= i < |ids| :: ids[i]
  }

  /** Every PMEM page, SSD block and segment table, in the file or free. */
  ghost function UnitsOf(blocks: seq<Block>, space: Space): Units {
    Units(PagesOf(blocks) + All(space.pages), BasesOf(blocks) + All(space.bases), MetasOf(blocks) + All(space.metas))
  }

  ghost function One(id: int): set<int> {
    if id < 0 then {} else {id}
  }

  lemma AllIsHeadAndTail(ids: seq<int>)
    requires ids != []
    ensures All(ids) == {ids[0]} + All(ids[1..])
  {
  }

  /** The slot that gets a unit was empty, and nothing else moves. */
  ghost predicate FillsPage(blocks: seq<Block>, k: nat, b: Block, q: nat, page: int) {
    && q < PAGES && OnePage(blocks, k, b, q, page)
    && (if page < 0 then PageAt(b, q) == PageAt(BlockAt(blocks, k), q) else PageAt(b, q) == page && PageAt(BlockAt(blocks, k), q) < 0)
  }

  ghost predicate FillsMeta(blocks: seq<Block>, k: nat, b: Block, q: nat, meta: int) {
    && q < PAGES && OneMeta(blocks, k, b, q, meta)
    && (if meta < 0 then MetaAt(b, q) == MetaAt(BlockAt(blocks, k), q) else MetaAt(b, q) == meta && MetaAt(BlockAt(blocks, k), q) < 0)
  }

  ghost predicate FillsBase(blocks: seq<Block>, k: nat, b: Block, base: int) {
    if base < 0 then HasBase(b) == HasBase(BlockAt(blocks, k)) && (HasBase(b) ==> b.base == BlockAt(blocks, k).base)
    else HasBase(b) && b.base == base && !HasBase(BlockAt(blocks, k))
  }

  lemma PagesAfter(blocks: seq<Block>, k: nat, b: Block, q: nat, page: int)
    requires k <= |blocks| && FillsPage(blocks, k, b, q, page)
    ensures PagesOf(PutBlock(blocks, k, b)) == PagesOf(blocks) + One(page)
  {
  }

  lemma MetasAfter(blocks: seq<Block>, k: nat, b: Block, q: nat, meta: int)
    requires k <= |blocks| && FillsMeta(blocks, k, b, q, meta)
    ensures MetasOf(PutBlock(blocks, k, b)) == MetasOf(blocks) + One(meta)
  {
  }

  lemma BasesAfter(blocks: seq<Block>, k: nat, b: Block, base: int)
    requires k <= |blocks| && FillsBase(blocks, k, b, base)
    ensures BasesOf(PutBlock(blocks, k, b)) == BasesOf(blocks) + One(base)
  {
    var blocks' := PutBlock(blocks, k, b);
    forall x | x in BasesOf(blocks') ensures x in BasesOf(blocks) + One(base) {
      var i :| 0 <= i < |blocks'| && HasBase(blocks'[i]) && blocks'[i].base == x;
      assert i < |blocks| && i != k ==> blocks[i] == blocks'[i];
    }
    forall x | x in BasesOf(blocks) ensures x in BasesOf(blocks') {
      var i :| 0 <= i < |blocks| && HasBase(blocks[i]) && blocks[i].base == x;
      assert HasBase(blocks'[i]) && blocks'[i].base == x;
    }
    if base >= 0 {
      assert HasBase(blocks'[k]) && blocks'[k].base == base;
    }
  }

  lemma NodesAreNoUnits(blocks: seq<Block>, space: Space, space': Space)
    requires space' == space.(nodes := space'.nodes)
    ensures UnitsOf(blocks, space') == UnitsOf(blocks, space)
  {
  }

  // ---- every step only moves a unit from the stock to an empty slot ----

  lemma HeadsAreThere(f: File, space: Space, ssdSize: nat, pmemSize: nat)
    requires StoreOk(f, space, ssdSize, pmemSize)
    ensures (space.pages != [] ==> space.pages[0] >= 0) && (space.bases != [] ==> space.bases[0] >= 0)
    ensures space.metas != [] ==> space.metas[0] >= 0
    ensures forall k :: 0 <= k < |f.blocks| && f.blocks[k].Virtual? ==> |f.blocks[k].pages| == PAGES
  {
  }

  lemma AddSsdConserves(f: File, space: Space, ssdSize: nat, pmemSize: nat)
    requires StoreOk(f, space, ssdSize, pmemSize) && space.bases != []
    ensures UnitsOf(AddSsd(f, space.bases[0]).blocks, space.(bases := space.bases[1..])) == UnitsOf(f.blocks, space)
  {
    hide StoreOk, PagesOf, MetasOf, BasesOf, All;
    HeadsAreThere(f, space, ssdSize, pmemSize);
    var base := space.bases[0];
    AllIsHeadAndTail(space.bases);
    PagesAfter(f.blocks, |f.blocks|, Ssd(base), 0, MISSING);
    MetasAfter(f.blocks, |f.blocks|, Ssd(base), 0, MISSING);
    BasesAfter(f.blocks, |f.blocks|, Ssd(base), base);
  }

  lemma AddPageFills(f: File, page: int)
    requires page >= 0 && forall k :: 0 <= k < |f.blocks| && f.blocks[k].Virtual? ==> |f.blocks[k].pages| == PAGES
    ensures var k, f' := NextBlock(f.blocks), AddPage(f, page);
            var q := FirstGap(BlockAt(f.blocks, k), 0);
            && FillsPage(f.blocks, k, f'.blocks[k], q, page) && FillsMeta(f.blocks, k, f'.blocks[k], q, MISSING)
            && FillsBase(f.blocks, k, f'.blocks[k], MISSING)
  {
  }

  lemma AddPageConserves(f: File, space: Space, ssdSize: nat, pmemSize: nat)
    requires StoreOk(f, space, ssdSize, pmemSize) && space.pages != []
    ensures UnitsOf(AddPage(f, space.pages[0]).blocks, space.(pages := space.pages[1..])) == UnitsOf(f.blocks, space)
  {
    hide StoreOk, PagesOf, MetasOf, BasesOf, All, FillsPage, FillsMeta, FillsBase, FirstGap, NextBlock, PageAt;
    HeadsAreThere(f, space, ssdSize, pmemSize);
    var page := space.pages[0];
    AllIsHeadAndTail(space.pages);
    AddPageFills(f, page);
    var k, b := NextBlock(f.blocks), AddPage(f, page).blocks[NextBlock(f.blocks)];
    var q := FirstGap(BlockAt(f.blocks, k), 0);
    PagesAfter(f.blocks, k, b, q, page);
    MetasAfter(f.blocks, k, b, q, MISSING);
    BasesAfter(f.blocks, k, b, MISSING);
  }

  lemma AddOverlayFills(f: File, k: nat, q: nat, page: int, meta: int)
    requires k < |f.blocks| && HasBase(f.blocks[k]) && BlockShape(f.blocks[k], f.tables) && q < PAGES && PageAt(f.blocks[k], q) < 0
    requires page >= 0 && meta >= 0
    ensures var b := AddOverlay(f, k, q, page, meta).blocks[k];
            FillsPage(f.blocks, k, b, q, page) && FillsMeta(f.blocks, k, b, q, meta) && FillsBase(f.blocks, k, b, MISSING)
  {
  }

  lemma AddOverlayConserves(f: File, space: Space, k: nat, q: nat, ssdSize: nat, pmemSize: nat)
    requires StoreOk(f, space, ssdSize, pmemSize) && space.pages != [] && space.metas != []
    requires k < |f.blocks| && HasBase(f.blocks[k]) && q < PAGES && PageAt(f.blocks[k], q) < 0
    ensures UnitsOf(AddOverlay(f, k, q, space.pages[0], space.metas[0]).blocks,
                    space.(pages := space.pages[1..], metas := space.metas[1..])) == UnitsOf(f.blocks, space)
  {
    hide StoreOk, PagesOf, MetasOf, BasesOf, All, FillsPage, FillsMeta, FillsBase, PageAt;
    HeadsAreThere(f, space, ssdSize, pmemSize);
    ShapeOf(f, space, k, ssdSize, pmemSize);
    var page, meta := space.pages[0], space.metas[0];
    AllIsHeadAndTail(space.pages);
    AllIsHeadAndTail(space.metas);
    AddOverlayFills(f, k, q, page, meta);
    var b := AddOverlay(f, k, q, page, meta).blocks[k];
    PagesAfter(f.blocks, k, b, q, page);
    MetasAfter(f.blocks, k, b, q, meta);
    BasesAfter(f.blocks, k, b, MISSING);
  }
}
