/** The transaction of one write: its private copy of the index, grown until the write has where to go. */
module Draft {
  import opened Media
  import opened Layout
  import opened WritePlan
  import opened WriteEffect
  import opened WritePrepare
  import opened Ledger

  datatype Errno = EIO | ENOSPC | EFBIG | EINVAL

  /** The one shape of the index that an append cannot continue: pages wanted right after a STRATA block. */
  predicate Stuck(blocks: seq<Block>, last: nat, lastByte: nat) {
    |blocks| == last && blocks != [] && blocks[last - 1].Strata? && lastByte + 1 != BLOCK
  }

  // ---- what a write needs of the stock ----

  datatype Need = Need(pages: nat, bases: nat, metas: nat, nodes: nat)

  function Both(a: Need, b: Need): Need {
    Need(a.pages + b.pages, a.bases + b.bases, a.metas + b.metas, a.nodes + b.nodes)
  }

  predicate Enough(space: Space, need: Need) {
    |space.pages| >= need.pages && |space.bases| >= need.bases && |space.metas| >= need.metas && space.nodes >= need.nodes
  }

  /** Exactly so much of the stock is gone. */
  predicate Spent(now: Space, before: Space, need: Need) {
    && |before.pages| == |now.pages| + need.pages
    && |before.bases| == |now.bases| + need.bases
    && |before.metas| == |now.metas| + need.metas
    && before.nodes == now.nodes + need.nodes
  }

  /** Page slots from `lo` to `hi` that hold no page. */
  function Missing(b: Block, lo: nat, hi: nat): (count: nat)
    ensures count <= if lo <= hi then hi - lo else 0
    decreases hi
  {
    if hi <= lo then 0 else Missing(b, lo, hi - 1) + if PageAt(b, hi - 1) < 0 then 1 else 0
  }

  lemma MissingStep(b: Block, lo: nat, p: nat)
    requires lo <= p
    ensures Missing(b, lo, p + 1) == Missing(b, lo, p) + if PageAt(b, p) < 0 then 1 else 0
    ensures Missing(b, lo, lo) == 0
  {
  }

  lemma {:induction false} MissingGrows(b: Block, lo: nat, mid: nat, hi: nat)
    requires mid <= hi
    ensures Missing(b, lo, mid) <= Missing(b, lo, hi)
    decreases hi
  {
    if mid < hi {
      MissingGrows(b, lo, mid, hi - 1);
    }
  }

  /** Pages for the virtual blocks from `first` to below `k` that a write up to byte `lastByte` of block `last` fills. */
  function FillNeed(blocks: seq<Block>, first: nat, k: nat, last: nat, lastByte: nat): nat
    requires k <= |blocks|
    decreases k
  {
    if k <= first then 0
    else FillNeed(blocks, first, k - 1, last, lastByte) + if blocks[k - 1].Virtual? then Missing(blocks[k - 1], 0, Required(k - 1, last, lastByte)) else 0
  }

  lemma FillStep(blocks: seq<Block>, first: nat, k: nat, last: nat, lastByte: nat)
    requires first <= k < |blocks|
    ensures FillNeed(blocks, first, k + 1, last, lastByte) ==
            FillNeed(blocks, first, k, last, lastByte) + if blocks[k].Virtual? then Missing(blocks[k], 0, Required(k, last, lastByte)) else 0
    ensures FillNeed(blocks, first, first, last, lastByte) == 0
  {
  }

  lemma FillNone(blocks: seq<Block>, first: nat, last: nat, lastByte: nat)
    requires first <= |blocks|
    ensures FillNeed(blocks, first, first, last, lastByte) == 0
  {
  }

  lemma {:induction false} FillGrows(blocks: seq<Block>, first: nat, j: nat, k: nat, last: nat, lastByte: nat)
    requires j <= k <= |blocks|
    ensures FillNeed(blocks, first, j, last, lastByte) <= FillNeed(blocks, first, k, last, lastByte)
    decreases k
  {
    if j < k {
      FillGrows(blocks, first, j, k - 1, last, lastByte);
    }
  }

  /** SSD blocks, and pages with their index node, behind `count` blocks. */
  function AppendNeed(count: nat, last: nat, lastByte: nat): Need {
    if count > last then Need(0, 0, 0, 0)
    else if lastByte + 1 == BLOCK then Need(0, last - count + 1, 0, 0)
    else Need(lastByte / 4096 + 1, last - count, 0, 1)
  }

  lemma AppendNeedFacts(blocks: seq<Block>, last: nat, lastByte: nat)
    ensures |blocks| > last ==> AppendNeed(|blocks|, last, lastByte) == Need(0, 0, 0, 0)
    ensures Stuck(blocks, last, lastByte) ==> AppendNeed(|blocks|, last, lastByte).pages == lastByte / 4096 + 1
  {
  }

  /** A page and a table for every touched page of an SSD or STRATA block that has none, and an index node for the first. */
  function LayNeed(b: Block, inside: nat, n: nat): Need
    requires n > 0
  {
    var pages := Missing(b, inside / 4096, (inside + n - 1) / 4096 + 1);
    Need(pages, 0, pages, if b.Ssd? then 1 else 0)
  }

  /** Only a block with an SSD base that is written in part needs an overlay. */
  function OverlayNeed(b: Block, inside: nat, n: nat): Need {
    if HasBase(b) && n != BLOCK && n > 0 then LayNeed(b, inside, n) else Need(0, 0, 0, 0)
  }

  function OverlaysNeed(blocks: seq<Block>, offset: nat, source: seq<byte>, k: nat): Need
    decreases k
  {
    if k == 0 then Need(0, 0, 0, 0)
    else
      var before := OverlaysNeed(blocks, offset, source, k - 1);
      if k - 1 < |blocks| && TouchesBlock(offset, |source|, k - 1)
      then Both(before, OverlayNeed(blocks[k - 1], InsideOf(offset, k - 1), |ChunkOf(offset, source, k - 1)|)) else before
  }

  /** The blocks up to `last` that are in the index end here. */
  function Present(blocks: seq<Block>, last: nat): nat {
    if last < |blocks| then last + 1 else |blocks|
  }

  /** What has to be there before the overlays, and in all. */
  function IndexNeed(blocks: seq<Block>, offset: nat, source: seq<byte>): Need
    requires source != []
  {
    var last, lastByte := LastBlock(offset, source), LastByte(offset, source);
    Both(Need(FillNeed(blocks, offset / 32768, Present(blocks, last), last, lastByte), 0, 0, 0), AppendNeed(|blocks|, last, lastByte))
  }

  function WriteNeed(blocks: seq<Block>, offset: nat, source: seq<byte>): Need
    requires source != []
  {
    Both(IndexNeed(blocks, offset, source), OverlaysNeed(blocks, offset, source, LastBlock(offset, source) + 1))
  }

  function Required(k: nat, last: nat, lastByte: nat): nat {
    if k == last then lastByte / 4096 + 1 else PAGES
  }

  /** What an append leaves at block `k`: an SSD block for a whole one, the pages the write needs for a partial last one. */
  predicate Appended(b: Block, k: nat, last: nat, lastByte: nat) {
    if k < last || lastByte + 1 == BLOCK then b.Ssd? else b.Virtual? && PagesReady(b, lastByte / 4096 + 1)
  }

  /** Block `k` has the pages a write up to byte `lastByte` of block `last` needs, if it is virtual. */
  predicate Ready(b: Block, k: nat, last: nat, lastByte: nat) {
    b.Virtual? ==> PagesReady(b, Required(k, last, lastByte))
  }

  function LastBlock(offset: nat, source: seq<byte>): nat
    requires source != []
  {
    (offset + |source| - 1) / 32768
  }

  function LastByte(offset: nat, source: seq<byte>): nat
    requires source != []
  {
    (offset + |source| - 1) % 32768
  }

  /** The PMEM pages a chunk of `n` bytes at `inside` needs are there. */
  predicate PagesThere(b: Block, inside: int, n: int) {
    b.Virtual? || (b.Strata? && n != BLOCK) ==> forall q :: 0 <= q < PAGES && TouchesPage(inside, n, q) ==> PageAt(b, q) >= 0
  }

  ghost predicate ReadyFrom(blocks: seq<Block>, k: nat, last: nat, lastByte: nat) {
    forall j :: k <= j <= last && j < |blocks| ==> Ready(blocks[j], j, last, lastByte)
  }

  ghost predicate PreparedBelow(blocks: seq<Block>, offset: nat, source: seq<byte>, k: nat) {
    forall j :: 0 <= j < k && j < |blocks| && TouchesBlock(offset, |source|, j) ==>
      PagesThere(blocks[j], InsideOf(offset, j), |ChunkOf(offset, source, j)|)
  }

  /** What the blocks of a write have become: whole new ones are on the SSD, and below `k` every partly written one that was
      on the SSD is a STRATA block. */
  ghost predicate Formed(blocks: seq<Block>, before: seq<Block>, offset: nat, source: seq<byte>, k: nat) {
    forall j :: 0 <= j < |blocks| && TouchesBlock(offset, |source|, j) ==>
      && (j >= |before| && |ChunkOf(offset, source, j)| == BLOCK ==> blocks[j].Ssd?)
      && (j < |before| && j < k && |ChunkOf(offset, source, j)| != BLOCK && HasBase(before[j]) ==> blocks[j].Strata?)
      && (j < |before| && j >= k && HasBase(before[j]) ==> HasBase(blocks[j]))
  }

  lemma AppendedIsFormed(blocks: seq<Block>, before: seq<Block>, offset: nat, source: seq<byte>)
    requires source != [] && LastBlock(offset, source) < |blocks|
    requires forall k :: |before| <= k <= LastBlock(offset, source) ==> Appended(blocks[k], k, LastBlock(offset, source), LastByte(offset, source))
    requires forall k :: 0 <= k < |before| && k < |blocks| && HasBase(before[k]) ==> HasBase(blocks[k])
    ensures Formed(blocks, before, offset, source, offset / 32768)
  {
  }

  lemma FormedNext(blocks': seq<Block>, blocks: seq<Block>, before: seq<Block>, offset: nat, source: seq<byte>, k: nat)
    requires k < |blocks| && SameBut(blocks', blocks, k) && Formed(blocks, before, offset, source, k) && TouchesBlock(offset, |source|, k)
    requires if |ChunkOf(offset, source, k)| == BLOCK then blocks'[k] == blocks[k] else HasBase(blocks[k]) ==> blocks'[k].Strata?
    ensures Formed(blocks', before, offset, source, k + 1)
  {
    hide ChunkOf, TouchesBlock;
  }

  /** What the preparation of a write comes to, told from the index and the stock it starts with. */
  function Prospect(blocks: seq<Block>, space: Space, offset: nat, source: seq<byte>): Option<Errno>
    requires source != []
  {
    if Stuck(blocks, LastBlock(offset, source), LastByte(offset, source))
    then if |space.pages| < IndexNeed(blocks, offset, source).pages then Some(ENOSPC) else Some(EIO)
    else if Enough(space, WriteNeed(blocks, offset, source)) then None else Some(ENOSPC)
  }

  /** From block `k` on, the overlays needed are those that the old index tells; new blocks need none. */
  ghost predicate SameNeeds(blocks: seq<Block>, before: seq<Block>, offset: nat, source: seq<byte>, k: nat) {
    forall j :: k <= j < |blocks| && TouchesBlock(offset, |source|, j) ==>
      OverlayNeed(blocks[j], InsideOf(offset, j), |ChunkOf(offset, source, j)|) ==
      if j < |before| then OverlayNeed(before[j], InsideOf(offset, j), |ChunkOf(offset, source, j)|) else Need(0, 0, 0, 0)
  }

  lemma AcquiredSameNeeds(blocks: seq<Block>, before: seq<Block>, offset: nat, source: seq<byte>)
    requires source != [] && LastBlock(offset, source) < |blocks| && offset <= |before| * 32768
    requires forall k :: |before| <= k <= LastBlock(offset, source) ==> Appended(blocks[k], k, LastBlock(offset, source), LastByte(offset, source))
    requires forall k :: 0 <= k < |before| && k < |blocks| && HasBase(before[k]) ==> blocks[k] == before[k]
    requires forall k :: 0 <= k < |before| && k < |blocks| && HasBase(blocks[k]) ==> HasBase(before[k])
    ensures SameNeeds(blocks, before, offset, source, offset / 32768)
  {
    hide LayNeed, PagesReady;
  }

  lemma SameNeedsNext(blocks': seq<Block>, blocks: seq<Block>, before: seq<Block>, offset: nat, source: seq<byte>, k: nat)
    requires SameBut(blocks', blocks, k) && SameNeeds(blocks, before, offset, source, k)
    ensures SameNeeds(blocks', before, offset, source, k + 1)
  {
    hide OverlayNeed, ChunkOf, InsideOf, TouchesBlock;
  }

  lemma {:induction false} NoOverlaysBelow(blocks: seq<Block>, offset: nat, source: seq<byte>, k: nat)
    requires k <= offset / 32768
    ensures OverlaysNeed(blocks, offset, source, k) == Need(0, 0, 0, 0)
    decreases k
  {
    if k > 0 {
      NoOverlaysBelow(blocks, offset, source, k - 1);
    }
  }

  predicate Within(a: Need, b: Need) {
    a.pages <= b.pages && a.bases <= b.bases && a.metas <= b.metas && a.nodes <= b.nodes
  }

  lemma {:induction false} OverlaysGrow(blocks: seq<Block>, offset: nat, source: seq<byte>, j: nat, k: nat)
    requires j <= k
    ensures Within(OverlaysNeed(blocks, offset, source, j), OverlaysNeed(blocks, offset, source, k))
    decreases k
  {
    hide OverlayNeed;
    if j < k {
      OverlaysGrow(blocks, offset, source, j, k - 1);
    }
  }

  lemma NextOverlay(blocks: seq<Block>, before: seq<Block>, offset: nat, source: seq<byte>, k: nat, last: nat)
    requires SameNeeds(blocks, before, offset, source, k) && k < |blocks| && k <= last && TouchesBlock(offset, |source|, k)
    ensures var need := OverlayNeed(blocks[k], InsideOf(offset, k), |ChunkOf(offset, source, k)|);
            OverlaysNeed(before, offset, source, k + 1) == Both(OverlaysNeed(before, offset, source, k), need)
    ensures Within(OverlaysNeed(before, offset, source, k + 1), OverlaysNeed(before, offset, source, last + 1))
  {
    hide OverlayNeed, ChunkOf, InsideOf;
    OverlaysGrow(before, offset, source, k + 1, last + 1);
  }

  lemma ReadyIsEnough(b: Block, offset: nat, source: seq<byte>, k: nat)
    requires source != [] && TouchesBlock(offset, |source|, k) && b.Virtual?
    requires Ready(b, k, LastBlock(offset, source), LastByte(offset, source))
    ensures PagesThere(b, InsideOf(offset, k), |ChunkOf(offset, source, k)|)
  {
  }

  lemma StartsInIndex(f: File, space: Space, offset: nat, ssdSize: nat, pmemSize: nat)
    requires StoreOk(f, space, ssdSize, pmemSize) && offset <= f.size
    ensures offset / 32768 <= |f.blocks| && (offset / 32768 == |f.blocks| ==> Closed(f.blocks)) && offset <= |f.blocks| * 32768
  {
    hide PagesApart, MetasApart, SsdApart, SpaceOk, BlocksOk;
    if offset / 32768 == |f.blocks| {
      forall k, p | 0 <= k < |f.blocks| && f.blocks[k].Virtual? && 0 <= p < PAGES ensures PageAt(f.blocks[k], p) >= 0 {
        var x := k * 32768 + p * 4096;
        assert x / 32768 == k && x % 32768 == p * 4096;
        assert Readable(f.blocks[x / 32768], x % 32768);
      }
    }
  }

  /** A block appended as an SSD block is written whole, so none of its old bytes become part of the file. */
  lemma AppendedIsCovered(f: File, offset: nat, source: seq<byte>, k: nat)
    requires source != [] && offset <= f.size <= |f.blocks| * 32768 && |f.blocks| <= k <= LastBlock(offset, source)
    requires k < LastBlock(offset, source) || LastByte(offset, source) + 1 == BLOCK
    ensures TouchesBlock(offset, |source|, k) && InsideOf(offset, k) == 0 && |ChunkOf(offset, source, k)| == BLOCK
  {
  }

  lemma NothingTouchedBelow(blocks: seq<Block>, offset: nat, source: seq<byte>)
    requires source != []
    ensures PreparedBelow(blocks, offset, source, offset / 32768)
    ensures BlockCount(offset, |source|) == LastBlock(offset, source) + 1 - offset / 32768 > 0
  {
  }

  ghost predicate SameBut(blocks': seq<Block>, blocks: seq<Block>, k: nat) {
    |blocks'| == |blocks| && forall j :: 0 <= j < |blocks| && j != k ==> blocks'[j] == blocks[j]
  }

  lemma PreparedNext(blocks': seq<Block>, blocks: seq<Block>, offset: nat, source: seq<byte>, k: nat, last: nat, lastByte: nat)
    requires k < |blocks| && SameBut(blocks', blocks, k)
    requires PreparedBelow(blocks, offset, source, k) && ReadyFrom(blocks, k, last, lastByte)
    requires TouchesBlock(offset, |source|, k) && PagesThere(blocks'[k], InsideOf(offset, k), |ChunkOf(offset, source, k)|)
    ensures PreparedBelow(blocks', offset, source, k + 1) && ReadyFrom(blocks', k + 1, last, lastByte)
  {
  }

  lemma LastByteFits(offset: nat, source: seq<byte>)
    requires source != []
    ensures LastByte(offset, source) < BLOCK && offset / 32768 <= LastBlock(offset, source)
  {
  }

  lemma AllReady(blocks: seq<Block>, first: nat, last: nat, lastByte: nat)
    requires last < |blocks| && forall k :: first <= k <= last ==> Ready(blocks[k], k, last, lastByte)
    ensures ReadyFrom(blocks, first, last, lastByte)
  {
  }

  lemma TouchedAndReady(blocks: seq<Block>, offset: nat, source: seq<byte>, k: nat)
    requires source != [] && k < |blocks| && offset / 32768 <= k <= LastBlock(offset, source)
    requires ReadyFrom(blocks, k, LastBlock(offset, source), LastByte(offset, source))
    ensures TouchesBlock(offset, |source|, k) && Ready(blocks[k], k, LastBlock(offset, source), LastByte(offset, source))
  {
  }

  lemma PreparedForWrite(f: File, space: Space, offset: nat, source: seq<byte>, ssdSize: nat, pmemSize: nat)
    requires StoreOk(f, space, ssdSize, pmemSize) && source != [] && LastBlock(offset, source) < |f.blocks|
    requires PreparedBelow(f.blocks, offset, source, LastBlock(offset, source) + 1)
    ensures WritePrepared(f, offset, source)
  {
  }

  /** `b'` has a PMEM page exactly where `b` has one and in the listed slots. */
  ghost predicate GainsPages(b': Block, b: Block, slots: seq<nat>) {
    forall q :: 0 <= q < PAGES ==> (PageAt(b', q) >= 0 <==> PageAt(b, q) >= 0 || q in slots)
  }

  /** The touched slots of `b` without a page, in ascending order. */
  ghost predicate AreMissing(missing: seq<nat>, b: Block, inside: nat, n: nat) {
    && |missing| <= PAGES
    && (forall q :: 0 <= q < PAGES ==> (q in missing <==> TouchesPage(inside, n, q) && PageAt(b, q) < 0))
    && (forall i, j :: 0 <= i < j < |missing| ==> missing[i] < missing[j])
    && (forall i :: 0 <= i < |missing| ==> missing[i] < PAGES)
  }

  lemma GainsNothing(b: Block)
    ensures GainsPages(b, b, [])
  {
  }

  lemma StillMissing(b': Block, b: Block, missing: seq<nat>, i: nat, inside: nat, n: nat)
    requires AreMissing(missing, b, inside, n) && i < |missing| && GainsPages(b', b, missing[..i])
    ensures missing[i] < PAGES && PageAt(b', missing[i]) < 0
  {
  }

  lemma GainsNextPage(b2: Block, b1: Block, b: Block, missing: seq<nat>, i: nat)
    requires i < |missing| && GainsPages(b1, b, missing[..i])
    requires forall p :: 0 <= p < PAGES ==> (PageAt(b2, p) >= 0 <==> p == missing[i] || PageAt(b1, p) >= 0)
    ensures GainsPages(b2, b, missing[..i + 1])
  {
  }

  lemma NothingMissing(b': Block, b: Block, tables: map<int, Table>, missing: seq<nat>, inside: nat, n: nat)
    requires AreMissing(missing, b, inside, n) && GainsPages(b', b, missing) && ChunkOk(inside, n) && BlockShape(b', tables)
    ensures Prepared(b', tables, inside, n)
  {
  }

  /** From slot `p` on, `b` and `c` hold pages at the same places. */
  ghost predicate SameAbove(b: Block, c: Block, p: nat) {
    forall q :: p <= q < PAGES ==> (PageAt(b, q) >= 0 <==> PageAt(c, q) >= 0)
  }

  lemma NothingFilled(b: Block)
    ensures SameAbove(b, b, 0) && PagesReady(b, 0)
  {
  }

  lemma AboveNext(b: Block, c: Block, p: nat)
    requires SameAbove(b, c, p) && p < PAGES && PagesReady(b, p)
    ensures SameAbove(b, c, p + 1) && (PageAt(b, p) >= 0 <==> PageAt(c, p) >= 0) && (PageAt(b, p) >= 0 ==> PagesReady(b, p + 1))
  {
  }

  lemma AboveTrans(a: Block, b: Block, c: Block, p: nat)
    requires SameAbove(a, b, p) && SameAbove(b, c, p)
    ensures SameAbove(a, c, p)
  {
  }

  lemma AppendedAreReady(blocks: seq<Block>, from: nat, last: nat, lastByte: nat)
    requires last < |blocks| && forall k :: from <= k <= last ==> Appended(blocks[k], k, last, lastByte)
    ensures forall k :: from <= k <= last ==> Ready(blocks[k], k, last, lastByte)
  {
  }

  lemma LastIsReady(blocks: seq<Block>, first: nat, last: nat, lastByte: nat)
    requires first < |blocks| <= last && forall k :: first <= k <= last && k < |blocks| ==> Ready(blocks[k], k, last, lastByte)
    ensures blocks[|blocks| - 1].Virtual? ==> PagesReady(blocks[|blocks| - 1], PAGES)
  {
  }

  lemma StuckSame(blocks: seq<Block>, before: seq<Block>, last: nat, lastByte: nat)
    requires |blocks| == |before|
    requires forall k :: 0 <= k < |blocks| && !before[k].Virtual? ==> blocks[k] == before[k]
    requires forall k :: 0 <= k < |blocks| && before[k].Virtual? ==> blocks[k].Virtual?
    ensures Stuck(blocks, last, lastByte) <==> Stuck(before, last, lastByte)
  {
  }

  class Transaction {
    const ssdSize: nat
    const pmemSize: nat
    ghost const units: Units
    var file: File
    var space: Space

    /** The index is well formed, and every unit of storage is in it or still free. */
    ghost predicate Valid()
      reads this
    {
      StoreOk(file, space, ssdSize, pmemSize) && UnitsOf(file.blocks, space) == units
    }

    constructor (f: File, s: Space, ssdSize: nat, pmemSize: nat)
      requires StoreOk(f, s, ssdSize, pmemSize)
      ensures Valid() && file == f && space == s && this.ssdSize == ssdSize && this.pmemSize == pmemSize
      ensures units == UnitsOf(f.blocks, s)
    {
      file, space, this.ssdSize, this.pmemSize := f, s, ssdSize, pmemSize;
      units := UnitsOf(f.blocks, s);
    }

    method AppendPage() returns (error: Option<Errno>)
      requires Valid()
      modifies this
      ensures Valid() && Extends(file, old(file))
      ensures error.None? ==> old(space).pages != [] && file == AddPage(old(file), old(space).pages[0])
      ensures error.None? ==> Spent(space, old(space), Need(1, 0, 0, |file.blocks| - |old(file).blocks|))
      ensures error.Some? ==> file == old(file) && space == old(space)
      ensures error == Some(EIO) <==>
              old(space).pages != [] && old(file).blocks != [] && old(file).blocks[|old(file).blocks| - 1].Strata?
      ensures error == Some(ENOSPC) <==>
              (|| old(space).pages == []
               || (&& (old(file).blocks == [] || !old(file).blocks[|old(file).blocks| - 1].Strata?)
                   && old(space).nodes == 0 && NextBlock(old(file).blocks) == |old(file).blocks|))
      ensures error in {None, Some(EIO), Some(ENOSPC)}
    {
      hide FileOk, TailOk, PageStock, BaseStock, MetaStock, Extends, FirstGap, NextBlock, PagesOf, BasesOf, MetasOf, All;
      ExtendsItself(file);
      if space.pages == [] {
        return Some(ENOSPC);
      }
      if file.blocks != [] && file.blocks[|file.blocks| - 1].Strata? {
        return Some(EIO);
      }
      var grows := NextBlock(file.blocks) == |file.blocks|;
      if grows && space.nodes == 0 {
        return Some(ENOSPC);
      }
      AddPageKeeps(file, space, ssdSize, pmemSize);
      AddPageConserves(file, space, ssdSize, pmemSize);
      file := AddPage(file, space.pages[0]);
      space := space.(pages := space.pages[1..], nodes := if grows then space.nodes - 1 else space.nodes);
      error := None;
    }

    method AppendSsd(count: nat) returns (error: Option<Errno>)
      requires Valid() && Closed(file.blocks)
      modifies this
      ensures Valid() && Extends(file, old(file)) && Closed(file.blocks)
      ensures error == if |old(space).bases| < count then Some(ENOSPC) else None
      ensures forall k :: 0 <= k < |old(file).blocks| ==> file.blocks[k] == old(file).blocks[k]
      ensures error.None? ==> |file.blocks| == |old(file).blocks| + count
      ensures forall k :: |old(file).blocks| <= k < |file.blocks| ==> file.blocks[k].Ssd?
      ensures error.None? ==> Spent(space, old(space), Need(0, count, 0, 0))
    {
      hide StoreOk, UnitsOf, Extends;
      ExtendsItself(file);
      if |space.bases| < count {
        return Some(ENOSPC);
      }
      var i := 0;
      while i < count
        invariant 0 <= i <= count
        invariant Valid() && Extends(file, old(file)) && Closed(file.blocks)
        invariant |file.blocks| == |old(file).blocks| + i
        invariant forall k :: 0 <= k < |old(file).blocks| ==> file.blocks[k] == old(file).blocks[k]
        invariant forall k :: |old(file).blocks| <= k < |file.blocks| ==> file.blocks[k].Ssd?
        invariant space == old(space).(bases := old(space).bases[i..])
      {
        AddSsdKeeps(file, space, ssdSize, pmemSize);
        AddSsdConserves(file, space, ssdSize, pmemSize);
        ExtendsTrans(AddSsd(file, space.bases[0]), file, old(file));
        file := AddSsd(file, space.bases[0]);
        space := space.(bases := space.bases[1..]);
        i := i + 1;
      }
      error := None;
    }

    /** The pages of a new virtual block behind complete blocks. */
    method AppendPages(count: nat) returns (error: Option<Errno>)
      requires Valid() && Closed(file.blocks) && 0 < count <= PAGES
      modifies this
      ensures Valid() && Extends(file, old(file))
      ensures forall k :: 0 <= k < |old(file).blocks| ==> file.blocks[k] == old(file).blocks[k]
      ensures error.None? ==> |file.blocks| == |old(file).blocks| + 1 && Filled(file.blocks[|old(file).blocks|], count)
      ensures error.None? ==> Spent(space, old(space), Need(count, 0, 0, 1))
      ensures error == Some(ENOSPC) <==>
              (|| |old(space).pages| < count
               || ((old(file).blocks == [] || !old(file).blocks[|old(file).blocks| - 1].Strata?) && old(space).nodes == 0))
      ensures error == Some(EIO) <==>
              |old(space).pages| >= count && old(file).blocks != [] && old(file).blocks[|old(file).blocks| - 1].Strata?
      ensures error in {None, Some(EIO), Some(ENOSPC)}
    {
      hide StoreOk, UnitsOf, Extends;
      ExtendsItself(file);
      if |space.pages| < count {
        return Some(ENOSPC);
      }
      var n := |file.blocks|;
      StockIsThere(file, space, ssdSize, pmemSize);
      AddPageToNew(file, space.pages[0]);
      error := AppendPage();
      if error.Some? {
        return;
      }
      var i := 1;
      while i < count
        invariant 1 <= i <= count && error.None?
        invariant Valid() && Extends(file, old(file)) && |file.blocks| == n + 1 && Filled(file.blocks[n], i)
        invariant forall k :: 0 <= k < n ==> file.blocks[k] == old(file).blocks[k]
        invariant Spent(space, old(space), Need(i, 0, 0, 1))
      {
        StockIsThere(file, space, ssdSize, pmemSize);
        AddPageToLast(file, space.pages[0], i);
        label Before:
        error := AppendPage();
        ExtendsTrans(file, old@Before(file), old(file));
        i := i + 1;
      }
    }

    /** SSD blocks for the whole blocks up to `last`, then the pages of a partly written last block. */
    method AppendBlocks(last: nat, lastByte: nat) returns (error: Option<Errno>)
      requires Valid() && Closed(file.blocks) && |file.blocks| <= last && lastByte < BLOCK
      modifies this
      ensures Valid() && Extends(file, old(file))
      ensures forall k :: 0 <= k < |old(file).blocks| ==> file.blocks[k] == old(file).blocks[k]
      ensures error.None? ==> |file.blocks| == last + 1 && !Stuck(old(file).blocks, last, lastByte)
      ensures error.None? ==> forall k :: |old(file).blocks| <= k <= last ==> Appended(file.blocks[k], k, last, lastByte)
      ensures error.None? ==> Spent(space, old(space), AppendNeed(|old(file).blocks|, last, lastByte))
      ensures error == if !Stuck(old(file).blocks, last, lastByte)
                       then (if Enough(old(space), AppendNeed(|old(file).blocks|, last, lastByte)) then None else Some(ENOSPC))
                       else if |old(space).pages| < lastByte / 4096 + 1 then Some(ENOSPC) else Some(EIO)
    {
      hide StoreOk, UnitsOf, Extends;
      var whole := lastByte + 1 == BLOCK;
      var ssdCount := last - |file.blocks| + if whole then 1 else 0;
      var pageCount := if whole then 0 else lastByte / 4096 + 1;
      error := AppendSsd(ssdCount);
      if error.None? && pageCount > 0 {
        label Pages:
        error := AppendPages(pageCount);
        ExtendsTrans(file, old@Pages(file), old(file));
      }
    }

    /** The page of slot `p`, the first one that virtual block `k` lacks. */
    method FillSlot(k: nat, p: nat) returns (error: Option<Errno>)
      requires Valid() && k < |file.blocks| && file.blocks[k].Virtual? && p < PAGES
      requires PagesReady(file.blocks[k], p) && PageAt(file.blocks[k], p) < 0
      modifies this
      ensures Valid() && Extends(file, old(file)) && SameBut(file.blocks, old(file).blocks, k) && file.blocks[k].Virtual?
      ensures error == if old(space).pages == [] then Some(ENOSPC) else None
      ensures error.None? ==> PagesReady(file.blocks[k], p + 1) && SameAbove(file.blocks[k], old(file).blocks[k], p + 1)
      ensures error.None? ==> Spent(space, old(space), Need(1, 0, 0, 0))
    {
      hide StoreOk, UnitsOf, Extends;
      ExtendsItself(file);
      GapIsAtTail(file, space, k, p, ssdSize, pmemSize);
      if space.pages != [] {
        StockIsThere(file, space, ssdSize, pmemSize);
        AddPageToLast(file, space.pages[0], p);
      }
      error := AppendPage();
    }

    /** The missing pages of virtual block `k` among its first `required` ones. */
    method FillPages(k: nat, required: nat) returns (error: Option<Errno>)
      requires Valid() && k < |file.blocks| && file.blocks[k].Virtual? && required <= PAGES
      modifies this
      ensures Valid() && Extends(file, old(file)) && SameBut(file.blocks, old(file).blocks, k)
      ensures file.blocks[k].Virtual?
      ensures error.None? ==> PagesReady(file.blocks[k], required)
      ensures error.None? ==> Spent(space, old(space), Need(Missing(old(file).blocks[k], 0, required), 0, 0, 0))
      ensures error == if |old(space).pages| >= Missing(old(file).blocks[k], 0, required) then None else Some(ENOSPC)
    {
      hide StoreOk, UnitsOf, Extends, Missing, SameAbove, PagesReady;
      ExtendsItself(file);
      var snapshot := file.blocks[k];
      error := None;
      MissingStep(snapshot, 0, 0);
      NothingFilled(snapshot);
      var p := 0;
      while p < required
        invariant 0 <= p <= required && error.None?
        invariant Valid() && Extends(file, old(file)) && SameBut(file.blocks, old(file).blocks, k)
        invariant file.blocks[k].Virtual? && PagesReady(file.blocks[k], p) && SameAbove(file.blocks[k], snapshot, p)
        invariant Spent(space, old(space), Need(Missing(snapshot, 0, p), 0, 0, 0))
      {
        MissingStep(snapshot, 0, p);
        MissingGrows(snapshot, 0, p + 1, required);
        AboveNext(file.blocks[k], snapshot, p);
        if PageAt(snapshot, p) < 0 {
          label Before:
          error := FillSlot(k, p);
          ExtendsTrans(file, old@Before(file), old(file));
          if error.Some? {
            return;
          }
          AboveTrans(file.blocks[k], old@Before(file).blocks[k], snapshot, p + 1);
        }
        p := p + 1;
      }
    }

    /** The pages that the virtual blocks of the write which are in the index lack. */
    method FillRange(first: nat, last: nat, lastByte: nat) returns (error: Option<Errno>)
      requires Valid() && first <= last && lastByte < BLOCK && first <= |file.blocks|
      modifies this
      ensures Valid() && Extends(file, old(file)) && |file.blocks| == |old(file).blocks|
      ensures forall k :: 0 <= k < |file.blocks| && !old(file).blocks[k].Virtual? ==> file.blocks[k] == old(file).blocks[k]
      ensures forall k :: 0 <= k < |file.blocks| && old(file).blocks[k].Virtual? ==> file.blocks[k].Virtual?
      ensures error.None? ==> forall k :: first <= k <= last && k < |file.blocks| ==> Ready(file.blocks[k], k, last, lastByte)
      ensures first == |file.blocks| ==> file == old(file)
      ensures var fill := FillNeed(old(file).blocks, first, Present(old(file).blocks, last), last, lastByte);
              (error.None? ==> Spent(space, old(space), Need(fill, 0, 0, 0))) && error == if |old(space).pages| >= fill then None else Some(ENOSPC)
    {
      hide StoreOk, UnitsOf, Extends, FillNeed, Missing, PagesReady;
      ghost var present := Present(file.blocks, last);
      FillNone(file.blocks, first, last, lastByte);
      ExtendsItself(file);
      error := None;
      var k := first;
      while k <= last && k < |file.blocks|
        invariant first <= k && (k <= present || k == first) && error.None?
        invariant Valid() && Extends(file, old(file)) && |file.blocks| == |old(file).blocks|
        invariant forall j :: first <= j < k ==> Ready(file.blocks[j], j, last, lastByte)
        invariant forall j :: 0 <= j < |file.blocks| && (j >= k || !old(file).blocks[j].Virtual?) ==> file.blocks[j] == old(file).blocks[j]
        invariant forall j :: 0 <= j < |file.blocks| && old(file).blocks[j].Virtual? ==> file.blocks[j].Virtual?
        invariant k == first ==> file == old(file)
        invariant Spent(space, old(space), Need(FillNeed(old(file).blocks, first, k, last, lastByte), 0, 0, 0))
      {
        FillStep(old(file).blocks, first, k, last, lastByte);
        FillGrows(old(file).blocks, first, k + 1, present, last, lastByte);
        if file.blocks[k].Virtual? {
          label Fill:
          error := FillPages(k, Required(k, last, lastByte));
          ExtendsTrans(file, old@Fill(file), old(file));
          if error.Some? {
            return;
          }
        }
        k := k + 1;
      }
    }

    /** Every block of the write is in the index and every virtual one has the pages the write needs. */
    method Acquire(first: nat, last: nat, lastByte: nat) returns (error: Option<Errno>)
      requires Valid() && first <= last && lastByte < BLOCK
      requires first <= |file.blocks| && (first == |file.blocks| ==> Closed(file.blocks))
      modifies this
      ensures Valid() && Extends(file, old(file))
      ensures error.None? ==> last < |file.blocks| && !Stuck(old(file).blocks, last, lastByte)
      ensures error.None? ==> |file.blocks| == if last < |old(file).blocks| then |old(file).blocks| else last + 1
      ensures error.None? ==> forall k :: |old(file).blocks| <= k <= last ==> Appended(file.blocks[k], k, last, lastByte)
      ensures forall k :: 0 <= k < |old(file).blocks| && HasBase(old(file).blocks[k]) ==> file.blocks[k] == old(file).blocks[k]
      ensures forall k :: 0 <= k < |old(file).blocks| && HasBase(file.blocks[k]) ==> HasBase(old(file).blocks[k])
      ensures error.None? ==> forall k :: first <= k <= last ==> Ready(file.blocks[k], k, last, lastByte)
      ensures var fill := FillNeed(old(file).blocks, first, Present(old(file).blocks, last), last, lastByte);
              var need := Both(Need(fill, 0, 0, 0), AppendNeed(|old(file).blocks|, last, lastByte));
              && (error.None? ==> Spent(space, old(space), need))
              && error == if !Stuck(old(file).blocks, last, lastByte) then (if Enough(old(space), need) then None else Some(ENOSPC))
                          else if |old(space).pages| < need.pages then Some(ENOSPC) else Some(EIO)
    {
      hide StoreOk, UnitsOf, Extends, FillNeed, AppendNeed, Missing, Appended, PagesReady, Ready;
      AppendNeedFacts(file.blocks, last, lastByte);
      error := FillRange(first, last, lastByte);
      if error.Some? || last < |file.blocks| {
        return;
      }
      assert Closed(file.blocks) by {
        if first < |file.blocks| {
          LastIsReady(file.blocks, first, last, lastByte);
          AllClosed(file, space, ssdSize, pmemSize);
        }
      }
      label Append:
      StuckSame(file.blocks, old(file).blocks, last, lastByte);
      error := AppendBlocks(last, lastByte);
      ExtendsTrans(file, old@Append(file), old(file));
      if error.None? {
        AppendedAreReady(file.blocks, |old(file).blocks|, last, lastByte);
      }
    }

    /** The touched pages of SSD or STRATA block `k` that have no PMEM page get one, with an empty table. */
    method EnsureStrata(k: nat, inside: nat, n: nat) returns (error: Option<Errno>)
      requires Valid()
      modifies this
      ensures Valid() && Extends(file, old(file)) && |file.blocks| == |old(file).blocks|
      ensures SameBut(file.blocks, old(file).blocks, k)
      ensures error == Some(EINVAL) <==> !(k < |old(file).blocks| && ChunkOk(inside, n) && HasBase(old(file).blocks[k]))
      ensures error != Some(EINVAL) ==>
                error == if Enough(old(space), LayNeed(old(file).blocks[k], inside, n)) then None else Some(ENOSPC)
      ensures error.None? ==> file.blocks[k].Strata? && Prepared(file.blocks[k], file.tables, inside, n)
      ensures error.None? ==> Spent(space, old(space), LayNeed(old(file).blocks[k], inside, n))
    {
      hide StoreOk, UnitsOf, Extends, GainsPages, AreMissing, Prepared, BlockShape, SetSlot, AsStrata;
      ExtendsItself(file);
      if k >= |file.blocks| || !ChunkOk(inside, n) || !HasBase(file.blocks[k]) {
        return Some(EINVAL);
      }
      var missing := MissingPages(file.blocks[k], inside, n);
      if |space.pages| < |missing| || |space.metas| < |missing| || (file.blocks[k].Ssd? && space.nodes == 0) {
        return Some(ENOSPC);
      }
      if file.blocks[k].Ssd? {
        space := space.(nodes := space.nodes - 1);
        assert Valid() by {
          NodesDoNotMatter(file, old(space), space, ssdSize, pmemSize);
          NodesAreNoUnits(file.blocks, old(space), space);
        }
      }
      var b := file.blocks[k];
      GainsNothing(b);
      var i := 0;
      assert missing[..i] == [];
      while i < |missing|
        invariant 0 <= i <= |missing|
        invariant Valid() && Extends(file, old(file)) && |file.blocks| == |old(file).blocks|
        invariant SameBut(file.blocks, old(file).blocks, k)
        invariant HasBase(file.blocks[k]) && (0 < i || b.Strata? ==> file.blocks[k].Strata?)
        invariant GainsPages(file.blocks[k], b, missing[..i])
        invariant |space.pages| == |old(space).pages| - i && |space.metas| == |old(space).metas| - i
        invariant space.bases == old(space).bases && old(space).nodes == space.nodes + if b.Ssd? then 1 else 0
      {
        var q := missing[i];
        StillMissing(file.blocks[k], b, missing, i, inside, n);
        OverlayStep(file, space, k, q, ssdSize, pmemSize);
        AddOverlayConserves(file, space, k, q, ssdSize, pmemSize);
        ExtendsTrans(AddOverlay(file, k, q, space.pages[0], space.metas[0]), file, old(file));
        GainsNextPage(AddOverlay(file, k, q, space.pages[0], space.metas[0]).blocks[k], file.blocks[k], b, missing, i);
        file := AddOverlay(file, k, q, space.pages[0], space.metas[0]);
        space := space.(pages := space.pages[1..], metas := space.metas[1..]);
        i := i + 1;
      }
      assert missing[..i] == missing;
      ShapeOf(file, space, k, ssdSize, pmemSize);
      NothingMissing(file.blocks[k], b, file.tables, missing, inside, n);
      error := None;
    }

    /** One partly written block: an overlay if it is on the SSD, nothing if it is virtual or written whole. */
    method PrepareBlock(offset: nat, source: seq<byte>, k: nat) returns (error: Option<Errno>)
      requires Valid() && source != [] && TouchesBlock(offset, |source|, k) && k < |file.blocks|
      requires Ready(file.blocks[k], k, LastBlock(offset, source), LastByte(offset, source))
      modifies this
      ensures Valid() && Extends(file, old(file)) && |file.blocks| == |old(file).blocks|
      ensures SameBut(file.blocks, old(file).blocks, k)
      ensures error.None? ==> PagesThere(file.blocks[k], InsideOf(offset, k), |ChunkOf(offset, source, k)|)
      ensures if |ChunkOf(offset, source, k)| == BLOCK then file.blocks[k] == old(file).blocks[k]
              else error.None? && HasBase(old(file).blocks[k]) ==> file.blocks[k].Strata?
      ensures var need := OverlayNeed(old(file).blocks[k], InsideOf(offset, k), |ChunkOf(offset, source, k)|);
              (error.None? ==> Spent(space, old(space), need)) && error == if Enough(old(space), need) then None else Some(ENOSPC)
    {
      hide StoreOk, UnitsOf, Extends, Ready;
      ExtendsItself(file);
      error := None;
      var inside, n := InsideOf(offset, k), |ChunkOf(offset, source, k)|;
      if HasBase(file.blocks[k]) && n != BLOCK {
        error := EnsureStrata(k, inside, n);
      } else if file.blocks[k].Virtual? {
        ReadyIsEnough(file.blocks[k], offset, source, k);
      }
    }

    /** An overlay under every partly written SSD block; `before` and `stock` are what the write started from. */
    method PrepareBlocks(offset: nat, source: seq<byte>, ghost before: File, ghost stock: Space) returns (error: Option<Errno>)
      requires Valid() && source != [] && Extends(file, before) && LastBlock(offset, source) < |file.blocks|
      requires offset / 32768 <= LastBlock(offset, source)
      requires Formed(file.blocks, before.blocks, offset, source, offset / 32768)
      requires ReadyFrom(file.blocks, offset / 32768, LastBlock(offset, source), LastByte(offset, source))
      requires PreparedBelow(file.blocks, offset, source, offset / 32768)
      requires SameNeeds(file.blocks, before.blocks, offset, source, offset / 32768)
      requires |file.blocks| == if LastBlock(offset, source) < |before.blocks| then |before.blocks| else LastBlock(offset, source) + 1
      requires Spent(space, stock, Both(IndexNeed(before.blocks, offset, source), OverlaysNeed(before.blocks, offset, source, offset / 32768)))
      modifies this
      ensures Valid() && Extends(file, before) && |file.blocks| == |old(file).blocks|
      ensures error.None? ==> PreparedBelow(file.blocks, offset, source, LastBlock(offset, source) + 1)
      ensures error.None? ==> Formed(file.blocks, before.blocks, offset, source, LastBlock(offset, source) + 1)
      ensures error.None? ==> Spent(space, stock, WriteNeed(before.blocks, offset, source))
      ensures error == if Enough(stock, WriteNeed(before.blocks, offset, source)) then None else Some(ENOSPC)
    {
      hide StoreOk, UnitsOf, Extends, Formed, Appended, Ready, ReadyFrom, PagesThere, PreparedBelow, TouchesBlock, ChunkOf, InsideOf, Stuck,
        BlockCount, LastBlock, LastByte, FirstBlock, SameBut, FillNeed, AppendNeed, OverlaysNeed, OverlayNeed, SameNeeds, IndexNeed;
      var k, last := offset / 32768, LastBlock(offset, source);
      error := None;
      while k <= last
        invariant offset / 32768 <= k <= last + 1 && error.None? && |file.blocks| == |old(file).blocks|
        invariant Valid() && Extends(file, before) && Formed(file.blocks, before.blocks, offset, source, k)
        invariant ReadyFrom(file.blocks, k, last, LastByte(offset, source)) && PreparedBelow(file.blocks, offset, source, k)
        invariant SameNeeds(file.blocks, before.blocks, offset, source, k)
        invariant Spent(space, stock, Both(IndexNeed(before.blocks, offset, source), OverlaysNeed(before.blocks, offset, source, k)))
      {
        TouchedAndReady(file.blocks, offset, source, k);
        NextOverlay(file.blocks, before.blocks, offset, source, k, last);
        label Before:
        error := PrepareBlock(offset, source, k);
        ExtendsTrans(file, old@Before(file), before);
        if error.Some? {
          return;
        }
        PreparedNext(file.blocks, old@Before(file).blocks, offset, source, k, last, LastByte(offset, source));
        FormedNext(file.blocks, old@Before(file).blocks, before.blocks, offset, source, k);
        SameNeedsNext(file.blocks, old@Before(file).blocks, before.blocks, offset, source, k);
        k := k + 1;
      }
    }

    /** The write's whole preparation: the index first, then an overlay under every partly written SSD block. */
    method Prepare(offset: nat, source: seq<byte>) returns (error: Option<Errno>)
      requires Valid() && source != [] && offset <= file.size
      modifies this
      ensures Valid() && Extends(file, old(file))
      ensures error.None? ==> WritePrepared(file, offset, source)
      ensures error == Prospect(old(file).blocks, old(space), offset, source)
      ensures error.None? ==> Spent(space, old(space), WriteNeed(old(file).blocks, offset, source))
      ensures error.None? ==> Formed(file.blocks, old(file).blocks, offset, source, LastBlock(offset, source) + 1)
      ensures error.None? ==> |file.blocks| == if LastBlock(offset, source) < |old(file).blocks| then |old(file).blocks| else LastBlock(offset, source) + 1
    {
      hide StoreOk, UnitsOf, Extends, Formed, Appended, Ready, ReadyFrom, PagesThere, PreparedBelow, TouchesBlock, ChunkOf, InsideOf, Stuck,
        BlockCount, LastBlock, LastByte, FirstBlock, SameBut, FillNeed, AppendNeed, OverlaysNeed, OverlayNeed, SameNeeds;
      var first, last := offset / 32768, LastBlock(offset, source);
      StartsInIndex(file, space, offset, ssdSize, pmemSize);
      LastByteFits(offset, source);
      error := Acquire(first, last, LastByte(offset, source));
      if error.Some? {
        return;
      }
      NothingTouchedBelow(file.blocks, offset, source);
      AppendedIsFormed(file.blocks, old(file).blocks, offset, source);
      AcquiredSameNeeds(file.blocks, old(file).blocks, offset, source);
      NoOverlaysBelow(old(file).blocks, offset, source, first);
      AllReady(file.blocks, first, last, LastByte(offset, source));
      error := PrepareBlocks(offset, source, old(file), old(space));
      if error.None? {
        PreparedForWrite(file, space, offset, source, ssdSize, pmemSize);
      }
    }
  }

  /** The pages a chunk touches that have no PMEM page, in ascending order. */
  method MissingPages(b: Block, inside: nat, n: nat) returns (missing: seq<nat>)
    requires ChunkOk(inside, n)
    ensures AreMissing(missing, b, inside, n) && |missing| <= PAGES
    ensures b.Ssd? ==> missing != []
    ensures |missing| == Missing(b, inside / 4096, (inside + n - 1) / 4096 + 1)
  {
    hide Missing;
    missing := [];
    MissingStep(b, inside / 4096, inside / 4096);
    var page, last := inside / 4096, (inside + n - 1) / 4096;
    while page <= last
      invariant inside / 4096 <= page <= last + 1 <= PAGES
      invariant |missing| <= page && |missing| == Missing(b, inside / 4096, page)
      invariant forall q :: q in missing <==> inside / 4096 <= q < page && PageAt(b, q) < 0
      invariant forall i :: 0 <= i < |missing| ==> missing[i] < page
      invariant forall i, j :: 0 <= i < j < |missing| ==> missing[i] < missing[j]
    {
      MissingStep(b, inside / 4096, page);
      if PageAt(b, page) < 0 {
        missing := missing + [page];
      }
      page := page + 1;
    }
    forall q | 0 <= q < PAGES ensures q in missing <==> TouchesPage(inside, n, q) && PageAt(b, q) < 0 {
      PageOfChunk(inside, n, q);
    }
    if b.Ssd? {
      assert inside / 4096 in missing;
    }
  }
}
