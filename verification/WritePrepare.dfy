/** The steps by which a transaction grows the index of a file, and what every step keeps. */
module WritePrepare {
  import opened Media
  import opened Layout
  import opened WritePlan

  /** Storage the allocator still has, in the order it hands it out; `nodes` counts free index nodes. */
  datatype Space = Space(pages: seq<int>, bases: seq<int>, metas: seq<int>, nodes: nat)

  // ---- fresh storage ----

  ghost predicate FreshPage(blocks: seq<Block>, page: int) {
    && 0 <= page
    && forall j, p :: 0 <= j < |blocks| && 0 <= p < PAGES && PageAt(blocks[j], p) >= 0 ==>
         Disjoint(PageAt(blocks[j], p), page, PAGE)
  }

  ghost predicate FreshBase(blocks: seq<Block>, base: int) {
    && 0 <= base
    && forall j :: 0 <= j < |blocks| && HasBase(blocks[j]) ==> Disjoint(blocks[j].base, base, BLOCK)
  }

  ghost predicate FreshMeta(blocks: seq<Block>, meta: int) {
    && 0 <= meta
    && forall j, p :: 0 <= j < |blocks| && 0 <= p < PAGES && MetaAt(blocks[j], p) >= 0 ==> MetaAt(blocks[j], p) != meta
  }

  ghost predicate PageStock(blocks: seq<Block>, pages: seq<int>, pmemSize: nat) {
    && (forall i :: 0 <= i < |pages| ==> FreshPage(blocks, pages[i]) && pages[i] + PAGE <= pmemSize)
    && (forall i, j :: 0 <= i < j < |pages| ==> Disjoint(pages[i], pages[j], PAGE))
  }

  ghost predicate BaseStock(blocks: seq<Block>, bases: seq<int>, ssdSize: nat) {
    && (forall i :: 0 <= i < |bases| ==> FreshBase(blocks, bases[i]) && bases[i] + BLOCK <= ssdSize)
    && (forall i, j :: 0 <= i < j < |bases| ==> Disjoint(bases[i], bases[j], BLOCK))
  }

  ghost predicate MetaStock(blocks: seq<Block>, metas: seq<int>) {
    && (forall i :: 0 <= i < |metas| ==> FreshMeta(blocks, metas[i]))
    && (forall i, j :: 0 <= i < j < |metas| ==> metas[i] != metas[j])
  }

  ghost predicate SpaceOk(blocks: seq<Block>, space: Space, ssdSize: nat, pmemSize: nat) {
    PageStock(blocks, space.pages, pmemSize) && BaseStock(blocks, space.bases, ssdSize) && MetaStock(blocks, space.metas)
  }

  // ---- the index never has a hole: only the last block may be short of pages ----

  predicate PagesReady(b: Block, n: nat) {
    forall p :: 0 <= p < n && p < PAGES ==> PageAt(b, p) >= 0
  }

  predicate PrefixFilled(b: Block) {
    forall p, q :: 0 <= p < q < PAGES && PageAt(b, q) >= 0 ==> PageAt(b, p) >= 0
  }

  /** Every virtual block has all its pages. */
  ghost predicate Closed(blocks: seq<Block>) {
    forall k :: 0 <= k < |blocks| && blocks[k].Virtual? ==> PagesReady(blocks[k], PAGES)
  }

  ghost predicate TailOk(blocks: seq<Block>) {
    && (forall k :: 0 <= k < |blocks| - 1 && blocks[k].Virtual? ==> PagesReady(blocks[k], PAGES))
    && (blocks != [] && blocks[|blocks| - 1].Virtual? ==> PrefixFilled(blocks[|blocks| - 1]))
  }

  ghost predicate StoreOk(f: File, space: Space, ssdSize: nat, pmemSize: nat) {
    FileOk(f, ssdSize, pmemSize) && TailOk(f.blocks) && SpaceOk(f.blocks, space, ssdSize, pmemSize)
  }

  // ---- growing keeps every readable byte where it was ----

  ghost predicate BlockGrows(b': Block, tables': map<int, Table>, b: Block, tables: map<int, Table>) {
    forall i :: Readable(b, i) ==> Readable(b', i) && PlaceOf(b', tables', i) == PlaceOf(b, tables, i)
  }

  ghost predicate Extends(f': File, f: File) {
    && f'.size == f.size
    && |f.blocks| <= |f'.blocks|
    && forall k :: 0 <= k < |f.blocks| ==> BlockGrows(f'.blocks[k], f'.tables, f.blocks[k], f.tables)
  }

  lemma ExtendsItself(f: File)
    ensures Extends(f, f)
  {
  }

  lemma StockIsThere(f: File, space: Space, ssdSize: nat, pmemSize: nat)
    requires StoreOk(f, space, ssdSize, pmemSize)
    ensures forall i :: 0 <= i < |space.pages| ==> space.pages[i] >= 0
  {
  }

  lemma ExtendsTrans(f2: File, f1: File, f0: File)
    requires Extends(f2, f1) && Extends(f1, f0)
    ensures Extends(f2, f0)
  {
  }

  /** Growing the index is invisible: on any media the file reads the same. */
  lemma ExtendsKeepsView(f': File, f: File, ssd: seq<byte>, pmem: seq<byte>)
    requires Extends(f', f) && FileOk(f, |ssd|, |pmem|) && FileOk(f', |ssd|, |pmem|)
    ensures View(f', ssd, pmem) == View(f, ssd, pmem)
  {
  }

  // ---- one block put into the index ----

  function Blank(): (b: Block)
    ensures b.Virtual? && |b.pages| == PAGES
    ensures forall p :: 0 <= p < PAGES ==> PageAt(b, p) == MISSING
  {
    Virtual(seq(PAGES, i => MISSING))
  }

  function BlockAt(blocks: seq<Block>, k: nat): Block {
    if k < |blocks| then blocks[k] else Blank()
  }

  function PutBlock(blocks: seq<Block>, k: nat, b: Block): (blocks': seq<Block>)
    requires k <= |blocks|
    ensures |blocks'| == if k < |blocks| then |blocks| else |blocks| + 1
    ensures forall j :: 0 <= j < |blocks'| ==> blocks'[j] == if j == k then b else blocks[j]
  {
    if k < |blocks| then blocks[k := b] else blocks + [b]
  }

  /** `b` differs from the block at `k` in one page slot at most, and there it holds the fresh page. */
  ghost predicate OnePage(blocks: seq<Block>, k: nat, b: Block, q: nat, page: int) {
    && (forall p :: 0 <= p < PAGES && p != q ==> PageAt(b, p) == PageAt(BlockAt(blocks, k), p))
    && (PageAt(b, q) == page || PageAt(b, q) == PageAt(BlockAt(blocks, k), q))
  }

  ghost predicate OneMeta(blocks: seq<Block>, k: nat, b: Block, q: nat, meta: int) {
    && (forall p :: 0 <= p < PAGES && p != q ==> MetaAt(b, p) == MetaAt(BlockAt(blocks, k), p))
    && (MetaAt(b, q) == meta || MetaAt(b, q) == MetaAt(BlockAt(blocks, k), q))
  }

  ghost predicate OneBase(blocks: seq<Block>, k: nat, b: Block, base: int) {
    HasBase(b) ==> (base >= 0 && b.base == base) || (HasBase(BlockAt(blocks, k)) && b.base == BlockAt(blocks, k).base)
  }

  lemma PutPage(blocks: seq<Block>, k: nat, b: Block, q: nat, page: int)
    requires k <= |blocks| && PagesApart(blocks) && (page < 0 || FreshPage(blocks, page)) && OnePage(blocks, k, b, q, page)
    ensures PagesApart(PutBlock(blocks, k, b))
  {
    var blocks' := PutBlock(blocks, k, b);
    forall i, p, j, r | 0 <= i < |blocks'| && 0 <= j < |blocks'| && 0 <= p < PAGES && 0 <= r < PAGES && (i != j || p != r)
                        && PageAt(blocks'[i], p) >= 0 && PageAt(blocks'[j], r) >= 0
      ensures Disjoint(PageAt(blocks'[i], p), PageAt(blocks'[j], r), PAGE)
    {
      PutPageOf(blocks, k, b, q, page, i, p);
      PutPageOf(blocks, k, b, q, page, j, r);
    }
  }

  lemma PutPageOf(blocks: seq<Block>, k: nat, b: Block, q: nat, page: int, i: nat, p: nat)
    requires k <= |blocks| && OnePage(blocks, k, b, q, page) && i < |PutBlock(blocks, k, b)| && p < PAGES
    requires PageAt(PutBlock(blocks, k, b)[i], p) >= 0
    ensures || (i < |blocks| && PageAt(PutBlock(blocks, k, b)[i], p) == PageAt(blocks[i], p))
            || (i == k && p == q && PageAt(PutBlock(blocks, k, b)[i], p) == page)
  {
  }

  lemma PutPageStock(blocks: seq<Block>, k: nat, b: Block, q: nat, page: int, pages: seq<int>, pmemSize: nat)
    requires k <= |blocks| && OnePage(blocks, k, b, q, page)
    requires PageStock(blocks, pages, pmemSize) && (forall i :: 0 <= i < |pages| ==> page < 0 || Disjoint(page, pages[i], PAGE))
    ensures PageStock(PutBlock(blocks, k, b), pages, pmemSize)
  {
  }

  lemma PutMeta(blocks: seq<Block>, k: nat, b: Block, q: nat, meta: int)
    requires k <= |blocks| && MetasApart(blocks) && (meta < 0 || FreshMeta(blocks, meta)) && OneMeta(blocks, k, b, q, meta)
    ensures MetasApart(PutBlock(blocks, k, b))
  {
    var blocks' := PutBlock(blocks, k, b);
    forall i, p, j, r | 0 <= i < |blocks'| && 0 <= j < |blocks'| && 0 <= p < PAGES && 0 <= r < PAGES && (i != j || p != r)
                        && MetaAt(blocks'[i], p) >= 0 && MetaAt(blocks'[j], r) >= 0
      ensures MetaAt(blocks'[i], p) != MetaAt(blocks'[j], r)
    {
      PutMetaOf(blocks, k, b, q, meta, i, p);
      PutMetaOf(blocks, k, b, q, meta, j, r);
    }
  }

  lemma PutMetaOf(blocks: seq<Block>, k: nat, b: Block, q: nat, meta: int, i: nat, p: nat)
    requires k <= |blocks| && OneMeta(blocks, k, b, q, meta) && i < |PutBlock(blocks, k, b)| && p < PAGES
    requires MetaAt(PutBlock(blocks, k, b)[i], p) >= 0
    ensures || (i < |blocks| && MetaAt(PutBlock(blocks, k, b)[i], p) == MetaAt(blocks[i], p))
            || (i == k && p == q && MetaAt(PutBlock(blocks, k, b)[i], p) == meta)
  {
  }

  lemma PutMetaStock(blocks: seq<Block>, k: nat, b: Block, q: nat, meta: int, metas: seq<int>)
    requires k <= |blocks| && OneMeta(blocks, k, b, q, meta)
    requires MetaStock(blocks, metas) && (meta < 0 || meta !in metas)
    ensures MetaStock(PutBlock(blocks, k, b), metas)
  {
  }

  lemma PutBase(blocks: seq<Block>, k: nat, b: Block, base: int)
    requires k <= |blocks| && SsdApart(blocks) && (base < 0 || FreshBase(blocks, base)) && OneBase(blocks, k, b, base)
    ensures SsdApart(PutBlock(blocks, k, b))
  {
  }

  lemma PutBaseStock(blocks: seq<Block>, k: nat, b: Block, base: int, bases: seq<int>, ssdSize: nat)
    requires k <= |blocks| && OneBase(blocks, k, b, base)
    requires BaseStock(blocks, bases, ssdSize) && (forall i :: 0 <= i < |bases| ==> base < 0 || Disjoint(base, bases[i], BLOCK))
    ensures BaseStock(PutBlock(blocks, k, b), bases, ssdSize)
  {
  }

  // ---- one step: one block changed, at most one page, one table and one SSD block taken ----

  /** What a step takes from the stock; MISSING where it takes nothing. */
  datatype Taken = Taken(slot: nat, page: int, meta: int, base: int)

  function TablesAfter(tables: map<int, Table>, meta: int): map<int, Table> {
    if meta < 0 then tables else tables[meta := EmptyTable()]
  }

  function Stepped(f: File, k: nat, b: Block, taken: Taken): File
    requires k <= |f.blocks|
  {
    File(f.size, PutBlock(f.blocks, k, b), TablesAfter(f.tables, taken.meta))
  }

  /** The stock that is left covers nothing the step took. */
  ghost predicate Leaves(space: Space, taken: Taken) {
    && (forall i :: 0 <= i < |space.pages| ==> taken.page < 0 || Disjoint(taken.page, space.pages[i], PAGE))
    && (forall i :: 0 <= i < |space.bases| ==> taken.base < 0 || Disjoint(taken.base, space.bases[i], BLOCK))
    && (taken.meta < 0 || taken.meta !in space.metas)
  }

  ghost predicate StepOk(f: File, k: nat, b: Block, taken: Taken) {
    && k <= |f.blocks|
    && OnePage(f.blocks, k, b, taken.slot, taken.page) && (taken.page < 0 || FreshPage(f.blocks, taken.page))
    && OneMeta(f.blocks, k, b, taken.slot, taken.meta) && (taken.meta < 0 || FreshMeta(f.blocks, taken.meta))
    && OneBase(f.blocks, k, b, taken.base) && (taken.base < 0 || FreshBase(f.blocks, taken.base))
    && (k < |f.blocks| ==> BlockGrows(b, TablesAfter(f.tables, taken.meta), f.blocks[k], f.tables))
  }

  lemma OtherBlock(f: File, meta: int, j: nat, ssdSize: nat, pmemSize: nat)
    requires j < |f.blocks| && BlockOk(f.blocks[j], f.tables, ssdSize, pmemSize)
    requires meta < 0 || FreshMeta(f.blocks, meta)
    ensures BlockOk(f.blocks[j], TablesAfter(f.tables, meta), ssdSize, pmemSize)
    ensures BlockGrows(f.blocks[j], TablesAfter(f.tables, meta), f.blocks[j], f.tables)
  {
  }

  lemma StepExtends(f: File, k: nat, b: Block, taken: Taken, ssdSize: nat, pmemSize: nat)
    requires BlocksOk(f, ssdSize, pmemSize) && StepOk(f, k, b, taken)
    ensures Extends(Stepped(f, k, b, taken), f)
  {
    hide BlockGrows, BlockOk, OnePage, OneMeta, OneBase, FreshPage, FreshMeta, FreshBase, TablesAfter;
    var f' := Stepped(f, k, b, taken);
    forall j | 0 <= j < |f.blocks| ensures BlockGrows(f'.blocks[j], f'.tables, f.blocks[j], f.tables) {
      if j != k {
        OtherBlock(f, taken.meta, j, ssdSize, pmemSize);
      }
    }
  }

  lemma StepBlocksOk(f: File, k: nat, b: Block, taken: Taken, ssdSize: nat, pmemSize: nat)
    requires BlocksOk(f, ssdSize, pmemSize) && StepOk(f, k, b, taken)
    requires BlockOk(b, TablesAfter(f.tables, taken.meta), ssdSize, pmemSize)
    ensures BlocksOk(Stepped(f, k, b, taken), ssdSize, pmemSize)
  {
  }

  lemma ExtendsKeepsBacked(f': File, f: File)
    requires Extends(f', f) && Backed(f)
    ensures Backed(f')
  {
  }

  /** Every step keeps the file well formed, the stock fresh and every byte in its place. */
  lemma StepKeeps(f: File, space: Space, k: nat, b: Block, taken: Taken, ssdSize: nat, pmemSize: nat)
    requires FileOk(f, ssdSize, pmemSize) && SpaceOk(f.blocks, space, ssdSize, pmemSize)
    requires StepOk(f, k, b, taken) && Leaves(space, taken)
    requires BlockOk(b, TablesAfter(f.tables, taken.meta), ssdSize, pmemSize)
    ensures FileOk(Stepped(f, k, b, taken), ssdSize, pmemSize)
    ensures SpaceOk(Stepped(f, k, b, taken).blocks, space, ssdSize, pmemSize)
    ensures Extends(Stepped(f, k, b, taken), f)
  {
    hide BlockGrows, BlockOk, OnePage, OneMeta, OneBase, FreshPage, FreshMeta, FreshBase, TablesAfter,
      PagesApart, MetasApart, SsdApart, PageStock, BaseStock, MetaStock, BlocksOk, Backed, Extends;
    StepBlocksOk(f, k, b, taken, ssdSize, pmemSize);
    StepExtends(f, k, b, taken, ssdSize, pmemSize);
    ExtendsKeepsBacked(Stepped(f, k, b, taken), f);
    PutPage(f.blocks, k, b, taken.slot, taken.page);
    PutMeta(f.blocks, k, b, taken.slot, taken.meta);
    PutBase(f.blocks, k, b, taken.base);
    PutPageStock(f.blocks, k, b, taken.slot, taken.page, space.pages, pmemSize);
    PutMetaStock(f.blocks, k, b, taken.slot, taken.meta, space.metas);
    PutBaseStock(f.blocks, k, b, taken.base, space.bases, ssdSize);
  }

  // ---- the three steps ----

  function AddSsd(f: File, base: int): File {
    Stepped(f, |f.blocks|, Ssd(base), Taken(0, MISSING, MISSING, base))
  }

  lemma AddSsdKeeps(f: File, space: Space, ssdSize: nat, pmemSize: nat)
    requires StoreOk(f, space, ssdSize, pmemSize) && Closed(f.blocks) && space.bases != []
    ensures StoreOk(AddSsd(f, space.bases[0]), space.(bases := space.bases[1..]), ssdSize, pmemSize)
    ensures Extends(AddSsd(f, space.bases[0]), f) && Closed(AddSsd(f, space.bases[0]).blocks)
  {
    hide PagesApart, MetasApart, SsdApart, Backed, BlocksOk, FreshPage, FreshMeta, Extends;
    var base, rest := space.bases[0], space.(bases := space.bases[1..]);
    assert FreshBase(f.blocks, base);
    StepKeeps(f, rest, |f.blocks|, Ssd(base), Taken(0, MISSING, MISSING, base), ssdSize, pmemSize);
  }

  /** The first page slot of `b` from `p` on that holds no page. */
  function FirstGap(b: Block, p: nat): (gap: nat)
    requires p <= PAGES
    ensures p <= gap <= PAGES
    ensures forall q :: p <= q < gap ==> PageAt(b, q) >= 0
    ensures gap < PAGES ==> PageAt(b, gap) < 0
    decreases PAGES - p
  {
    if p == PAGES || PageAt(b, p) < 0 then p else FirstGap(b, p + 1)
  }

  /** The index block the next appended page goes to: the last one if it is virtual and has room, else a new one. */
  function NextBlock(blocks: seq<Block>): (k: nat)
    ensures k <= |blocks|
  {
    if blocks != [] && blocks[|blocks| - 1].Virtual? && FirstGap(blocks[|blocks| - 1], 0) < PAGES then |blocks| - 1
    else |blocks|
  }

  function SetSlot(slots: seq<int>, q: nat, id: int): seq<int> {
    if q < |slots| then slots[q := id] else slots
  }

  /** One page appended to the index. */
  function AddPage(f: File, page: int): File {
    var k := NextBlock(f.blocks);
    var q := FirstGap(BlockAt(f.blocks, k), 0);
    Stepped(f, k, Virtual(SetSlot(BlockAt(f.blocks, k).pages, q, page)), Taken(q, page, MISSING, MISSING))
  }

  /** Exactly the first `n` page slots of the virtual block hold pages. */
  predicate Filled(b: Block, n: nat) {
    b.Virtual? && |b.pages| == PAGES && n <= PAGES && forall p :: 0 <= p < PAGES ==> (PageAt(b, p) >= 0 <==> p < n)
  }

  /** A missing page means the last block of the index, filled up to there. */
  lemma GapIsAtTail(f: File, space: Space, k: nat, p: nat, ssdSize: nat, pmemSize: nat)
    requires StoreOk(f, space, ssdSize, pmemSize)
    requires k < |f.blocks| && f.blocks[k].Virtual? && p < PAGES && PagesReady(f.blocks[k], p) && PageAt(f.blocks[k], p) < 0
    ensures k == |f.blocks| - 1 && Filled(f.blocks[k], p)
  {
  }

  /** A page appended while the last block is virtual and short goes to that block's next slot. */
  lemma AddPageToLast(f: File, page: int, n: nat)
    requires f.blocks != [] && Filled(f.blocks[|f.blocks| - 1], n) && n < PAGES && page >= 0
    ensures NextBlock(f.blocks) == |f.blocks| - 1
    ensures |AddPage(f, page).blocks| == |f.blocks| && Filled(AddPage(f, page).blocks[|f.blocks| - 1], n + 1)
    ensures forall k :: 0 <= k < |f.blocks| - 1 ==> AddPage(f, page).blocks[k] == f.blocks[k]
  {
    var b := f.blocks[|f.blocks| - 1];
    assert FirstGap(b, 0) == n;
    var b' := AddPage(f, page).blocks[|f.blocks| - 1];
    assert forall p :: 0 <= p < PAGES ==> PageAt(b', p) == if p == n then page else PageAt(b, p);
  }

  /** A page appended after complete blocks opens a new virtual block. */
  lemma AddPageToNew(f: File, page: int)
    requires Closed(f.blocks) && page >= 0
    ensures NextBlock(f.blocks) == |f.blocks|
    ensures |AddPage(f, page).blocks| == |f.blocks| + 1 && Filled(AddPage(f, page).blocks[|f.blocks|], 1)
    ensures forall k :: 0 <= k < |f.blocks| ==> AddPage(f, page).blocks[k] == f.blocks[k]
  {
  }

  lemma AddPageTail(f: File, page: int)
    requires TailOk(f.blocks) && page >= 0
    requires f.blocks != [] && f.blocks[|f.blocks| - 1].Virtual? ==> |f.blocks[|f.blocks| - 1].pages| == PAGES
    ensures TailOk(AddPage(f, page).blocks)
  {
    var k := NextBlock(f.blocks);
    var b, b' := BlockAt(f.blocks, k), AddPage(f, page).blocks[k];
    var q := FirstGap(b, 0);
    assert forall p :: 0 <= p < PAGES ==> PageAt(b', p) == if p == q then page else PageAt(b, p);
  }

  lemma AddPageStep(f: File, page: int, ssdSize: nat, pmemSize: nat)
    requires BlocksOk(f, ssdSize, pmemSize) && FreshPage(f.blocks, page) && page + PAGE <= pmemSize
    ensures var k, f' := NextBlock(f.blocks), AddPage(f, page);
            && BlockOk(f'.blocks[k], f'.tables, ssdSize, pmemSize)
            && StepOk(f, k, f'.blocks[k], Taken(FirstGap(BlockAt(f.blocks, k), 0), page, MISSING, MISSING))
  {
    hide FreshPage, FreshMeta, FreshBase;
    var k, f' := NextBlock(f.blocks), AddPage(f, page);
    var b, b' := BlockAt(f.blocks, k), f'.blocks[k];
    assert k < |f.blocks| ==> BlockOk(b, f.tables, ssdSize, pmemSize);
    assert forall p :: 0 <= p < PAGES ==> PageAt(b', p) == if p == FirstGap(b, 0) then page else PageAt(b, p);
  }

  lemma AddPageKeeps(f: File, space: Space, ssdSize: nat, pmemSize: nat)
    requires StoreOk(f, space, ssdSize, pmemSize) && space.pages != []
    ensures StoreOk(AddPage(f, space.pages[0]), space.(pages := space.pages[1..]), ssdSize, pmemSize)
    ensures Extends(AddPage(f, space.pages[0]), f)
  {
    var page, rest := space.pages[0], space.(pages := space.pages[1..]);
    hide PagesApart, MetasApart, SsdApart, Backed, FreshBase, FreshMeta, Extends, BlockGrows, StepOk;
    assert FreshPage(f.blocks, page);
    AddPageTail(f, page);
    hide BlockOk, TailOk, FirstGap, NextBlock, PageAt;
    AddPageStep(f, page, ssdSize, pmemSize);
    var k := NextBlock(f.blocks);
    var q := FirstGap(BlockAt(f.blocks, k), 0);
    StepKeeps(f, rest, k, AddPage(f, page).blocks[k], Taken(q, page, MISSING, MISSING), ssdSize, pmemSize);
  }

  function AsStrata(b: Block): (s: Block)
    requires HasBase(b)
    ensures s.Strata? && s.base == b.base
  {
    if b.Strata? then b else Strata(b.base, seq(PAGES, i => MISSING), seq(PAGES, i => MISSING))
  }

  /** Page slot `q` of SSD or STRATA block `k` gets a PMEM page and an empty segment table. */
  function AddOverlay(f: File, k: nat, q: nat, page: int, meta: int): File
    requires k < |f.blocks| && HasBase(f.blocks[k])
  {
    var b := AsStrata(f.blocks[k]);
    Stepped(f, k, Strata(b.base, SetSlot(b.pages, q, page), SetSlot(b.metas, q, meta)), Taken(q, page, meta, MISSING))
  }

  lemma OverlayAt(f: File, k: nat, q: nat, page: int, meta: int, p: nat)
    requires k < |f.blocks| && HasBase(f.blocks[k]) && q < PAGES && p < PAGES && BlockShape(f.blocks[k], f.tables)
    ensures PageAt(AddOverlay(f, k, q, page, meta).blocks[k], p) == if p == q then page else PageAt(f.blocks[k], p)
  {
  }

  lemma OverlayGrows(f: File, k: nat, q: nat, page: int, meta: int, ssdSize: nat, pmemSize: nat)
    requires k < |f.blocks| && HasBase(f.blocks[k]) && q < PAGES && BlockOk(f.blocks[k], f.tables, ssdSize, pmemSize)
    requires PageAt(f.blocks[k], q) < 0 && 0 <= page && page + PAGE <= pmemSize && FreshMeta(f.blocks, meta)
    ensures var f' := AddOverlay(f, k, q, page, meta);
            BlockOk(f'.blocks[k], f'.tables, ssdSize, pmemSize) && BlockGrows(f'.blocks[k], f'.tables, f.blocks[k], f.tables)
  {
    var f' := AddOverlay(f, k, q, page, meta);
    var b, b' := f.blocks[k], f'.blocks[k];
    assert forall p :: 0 <= p < PAGES && p != q ==> PageAt(b', p) == PageAt(b, p) && MetaAt(b', p) == MetaAt(b, p);
    assert BlockOk(b', f'.tables, ssdSize, pmemSize);
    forall i | Readable(b, i) ensures PlaceOf(b', f'.tables, i) == PlaceOf(b, f.tables, i) {
      assert 0 <= i / 4096 < PAGES;
    }
  }

  lemma AddOverlayKeeps(f: File, space: Space, k: nat, q: nat, ssdSize: nat, pmemSize: nat)
    requires StoreOk(f, space, ssdSize, pmemSize) && space.pages != [] && space.metas != []
    requires k < |f.blocks| && HasBase(f.blocks[k]) && q < PAGES && PageAt(f.blocks[k], q) < 0
    ensures var f' := AddOverlay(f, k, q, space.pages[0], space.metas[0]);
            StoreOk(f', space.(pages := space.pages[1..], metas := space.metas[1..]), ssdSize, pmemSize) && Extends(f', f)
  {
    hide PagesApart, MetasApart, SsdApart, Backed, FreshBase, Extends, BlockGrows;
    var page, meta := space.pages[0], space.metas[0];
    var rest := space.(pages := space.pages[1..], metas := space.metas[1..]);
    assert FreshPage(f.blocks, page) && FreshMeta(f.blocks, meta);
    assert BlockOk(f.blocks[k], f.tables, ssdSize, pmemSize);
    OverlayGrows(f, k, q, page, meta, ssdSize, pmemSize);
    var f' := AddOverlay(f, k, q, page, meta);
    StepKeeps(f, rest, k, f'.blocks[k], Taken(q, page, meta, MISSING), ssdSize, pmemSize);
  }

  lemma NodesDoNotMatter(f: File, space: Space, space': Space, ssdSize: nat, pmemSize: nat)
    requires StoreOk(f, space, ssdSize, pmemSize) && space' == space.(nodes := space'.nodes)
    ensures StoreOk(f, space', ssdSize, pmemSize)
  {
  }

  lemma ShapeOf(f: File, space: Space, k: nat, ssdSize: nat, pmemSize: nat)
    requires StoreOk(f, space, ssdSize, pmemSize) && k < |f.blocks|
    ensures BlockShape(f.blocks[k], f.tables)
  {
  }

  lemma AllClosed(f: File, space: Space, ssdSize: nat, pmemSize: nat)
    requires StoreOk(f, space, ssdSize, pmemSize)
    requires f.blocks != [] && f.blocks[|f.blocks| - 1].Virtual? ==> PagesReady(f.blocks[|f.blocks| - 1], PAGES)
    ensures Closed(f.blocks)
  {
  }

  lemma OverlayStep(f: File, space: Space, k: nat, q: nat, ssdSize: nat, pmemSize: nat)
    requires StoreOk(f, space, ssdSize, pmemSize) && space.pages != [] && space.metas != []
    requires k < |f.blocks| && HasBase(f.blocks[k]) && q < PAGES && PageAt(f.blocks[k], q) < 0
    ensures var f' := AddOverlay(f, k, q, space.pages[0], space.metas[0]);
            && StoreOk(f', space.(pages := space.pages[1..], metas := space.metas[1..]), ssdSize, pmemSize)
            && Extends(f', f) && f'.blocks[k].Strata?
            && forall p :: 0 <= p < PAGES ==> (PageAt(f'.blocks[k], p) >= 0 <==> p == q || PageAt(f.blocks[k], p) >= 0)
  {
    hide StoreOk, Extends;
    AddOverlayKeeps(f, space, k, q, ssdSize, pmemSize);
    ShapeOf(f, space, k, ssdSize, pmemSize);
    StockIsThere(f, space, ssdSize, pmemSize);
    forall p | 0 <= p < PAGES
      ensures PageAt(AddOverlay(f, k, q, space.pages[0], space.metas[0]).blocks[k], p) >= 0 <==> p == q || PageAt(f.blocks[k], p) >= 0
    {
      OverlayAt(f, k, q, space.pages[0], space.metas[0], p);
    }
  }
}
