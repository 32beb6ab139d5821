/** What one write asks of the devices: SSD requests, page merges, PMEM stores and new segment tables. */
module WritePlan {
  import opened Media
  import opened Layout

  /** A STRATA page gets its full pages on the SSD only when the write has this many of them. */
  const SSD_PAGE_THRESHOLD: nat := 6

  /** A page whose segment table is full: its overlay is folded back into its SSD page. */
  datatype Merge = Merge(ssdOff: int, nvmOff: int, table: Table)

  /** A partly written SSD block that is read, patched and written back whole. */
  datatype DirectMerge = DirectMerge(ssdOff: int, inside: nat, data: seq<byte>)

  datatype Plan = Plan(early: seq<Req>, merges: seq<Merge>, directs: seq<DirectMerge>,
                       pmem: seq<Req>, tables: map<int, Table>)

  function NoPlan(): Plan {
    Plan([], [], [], [], map[])
  }

  function Join(p: Plan, q: Plan): Plan {
    Plan(p.early + q.early, p.merges + q.merges, p.directs + q.directs, p.pmem + q.pmem, p.tables + q.tables)
  }

  /** The request vectors after the plans were appended one after the other. */
  function Gather(plans: seq<Plan>): Plan {
    if plans == [] then NoPlan() else Join(Gather(plans[..|plans| - 1]), plans[|plans| - 1])
  }

  // ---- the write requests that depend on what the merge reads return ----

  function Peek(m: seq<byte>, a: int): byte {
    if 0 <= a < |m| then m[a] else 0
  }

  function MergedByte(m: Merge, ssd: seq<byte>, pmem: seq<byte>, i: nat): byte {
    if TableOk(m.table) && Covered(m.table, i) then Peek(pmem, m.nvmOff + i) else Peek(ssd, m.ssdOff + i)
  }

  function MergeReq(m: Merge, ssd: seq<byte>, pmem: seq<byte>): (r: Req)
    ensures r.off == m.ssdOff && |r.data| == PAGE
    ensures forall i :: 0 <= i < PAGE ==> r.data[i] == MergedByte(m, ssd, pmem, i)
  {
    Req(m.ssdOff, seq(PAGE, i requires 0 <= i => MergedByte(m, ssd, pmem, i)))
  }

  function DirectByte(d: DirectMerge, ssd: seq<byte>, i: nat): byte {
    if d.inside <= i < d.inside + |d.data| then d.data[i - d.inside] else Peek(ssd, d.ssdOff + i)
  }

  function DirectReq(d: DirectMerge, ssd: seq<byte>): (r: Req)
    ensures r.off == d.ssdOff && |r.data| == BLOCK
    ensures forall i :: 0 <= i < BLOCK ==> r.data[i] == DirectByte(d, ssd, i)
  {
    Req(d.ssdOff, seq(BLOCK, i requires 0 <= i => DirectByte(d, ssd, i)))
  }

  function MergeReqs(ms: seq<Merge>, ssd: seq<byte>, pmem: seq<byte>): (rs: seq<Req>)
    ensures |rs| == |ms|
    ensures forall i :: 0 <= i < |ms| ==> rs[i] == MergeReq(ms[i], ssd, pmem)
  {
    seq(|ms|, i requires 0 <= i < |ms| => MergeReq(ms[i], ssd, pmem))
  }

  function DirectReqs(ds: seq<DirectMerge>, ssd: seq<byte>): (rs: seq<Req>)
    ensures |rs| == |ds|
    ensures forall i :: 0 <= i < |ds| ==> rs[i] == DirectReq(ds[i], ssd)
  {
    seq(|ds|, i requires 0 <= i < |ds| => DirectReq(ds[i], ssd))
  }

  /** Every SSD request of the plan, the merges computed from `ssd` and `pmem`. */
  function SsdReqs(p: Plan, ssd: seq<byte>, pmem: seq<byte>): seq<Req> {
    p.early + MergeReqs(p.merges, ssd, pmem) + DirectReqs(p.directs, ssd)
  }

  // ---- one page of a virtual block, or of a STRATA block that is partly written ----

  predicate ChunkOk(inside: int, n: int) {
    0 <= inside && 0 < n && inside + n <= BLOCK
  }

  predicate TouchesPage(inside: int, n: int, q: int) {
    q * 4096 < inside + n && inside < (q + 1) * 4096
  }

  function From(inside: int, q: int): int {
    if inside > q * 4096 then inside - q * 4096 else 0
  }

  function To(inside: int, n: int, q: int): int {
    if inside + n < (q + 1) * 4096 then inside + n - q * 4096 else PAGE
  }

  function FullPages(inside: nat, n: nat): nat {
    var first, end := (inside + PAGE - 1) / 4096, (inside + n) / 4096;
    if end > first then end - first else 0
  }

  predicate FullToSsd(inside: nat, n: nat, q: int) {
    FullPages(inside, n) >= SSD_PAGE_THRESHOLD && From(inside, q) == 0 && To(inside, n, q) == PAGE
  }

  function Part(inside: nat, data: seq<byte>, q: int): (part: seq<byte>)
    requires ChunkOk(inside, |data|) && TouchesPage(inside, |data|, q)
    ensures |part| == To(inside, |data|, q) - From(inside, q)
  {
    data[q * 4096 + From(inside, q) - inside..q * 4096 + To(inside, |data|, q) - inside]
  }

  /** The block has what a write of `n` bytes at `inside` needs. */
  predicate Prepared(b: Block, tables: map<int, Table>, inside: int, n: int) {
    && ChunkOk(inside, n)
    && BlockShape(b, tables)
    && ((b.Virtual? || (b.Strata? && n != BLOCK)) ==>
          forall q :: 0 <= q < PAGES && TouchesPage(inside, n, q) ==> PageAt(b, q) >= 0)
  }

  function PagePlan(b: Block, tables: map<int, Table>, inside: nat, data: seq<byte>, q: nat): Plan
    requires ChunkOk(inside, |data|) && TouchesPage(inside, |data|, q)
    requires b.Strata? ==> MetaAt(b, q) in tables && TableOk(tables[MetaAt(b, q)])
    requires !b.Ssd?
  {
    var lo, part := From(inside, q), Part(inside, data, q);
    var store := Req(PageAt(b, q) + lo, part);
    if b.Virtual? then Plan([], [], [], [store], map[])
    else
      var id := MetaAt(b, q);
      var t := tables[id];
      if FullToSsd(inside, |data|, q) then
        Plan([Req(b.base + q * 4096, part)], [], [], [], map[id := EmptyTable()])
      else if t[0] == MAX_SEGMENTS then
        Plan([], [Merge(b.base + q * 4096, PageAt(b, q), t)], [], [store],
             map[id := AddSegment(EmptyTable(), lo, |part|)])
      else
        Plan([], [], [], [store], map[id := AddSegment(t, lo, |part|)])
  }

  /** A page goes to the SSD if it is written whole and the write has six whole pages or more. */
  lemma FullToSsdExactly(inside: nat, n: nat, q: nat)
    requires ChunkOk(inside, n) && TouchesPage(inside, n, q)
    ensures FullToSsd(inside, n, q) <==>
              inside <= q * 4096 && (q + 1) * 4096 <= inside + n && (inside + 4095) / 4096 + 6 <= (inside + n) / 4096
  {
  }

  /** What becomes of a page of a STRATA block: written to the SSD with its table emptied; or stored in PMEM with one more
      segment, a table of twelve being folded into the SSD first. */
  lemma StrataPagePlan(b: Block, tables: map<int, Table>, inside: nat, data: seq<byte>, q: nat)
    requires ChunkOk(inside, |data|) && TouchesPage(inside, |data|, q) && b.Strata? && MetaAt(b, q) in tables && TableOk(tables[MetaAt(b, q)])
    ensures var plan, id := PagePlan(b, tables, inside, data, q), MetaAt(b, q);
            && plan.directs == [] && plan.tables.Keys == {id}
            && if FullToSsd(inside, |data|, q) then |plan.early| == 1 && plan.merges == [] && plan.pmem == [] && plan.tables[id][0] == 0
               else
                 && plan.early == [] && |plan.pmem| == 1
                 && (tables[id][0] == 12 ==> |plan.merges| == 1 && plan.tables[id][0] == 1)
                 && (tables[id][0] < 12 ==> plan.merges == [] && plan.tables[id][0] == tables[id][0] + 1)
  {
  }

  function FirstPage(inside: nat): nat {
    inside / 4096
  }

  function PageCount(inside: nat, n: nat): nat
    requires n > 0
  {
    (inside + n - 1) / 4096 - inside / 4096 + 1
  }

  lemma PageOfChunk(inside: nat, n: nat, q: nat)
    requires ChunkOk(inside, n)
    ensures TouchesPage(inside, n, q) <==> FirstPage(inside) <= q < FirstPage(inside) + PageCount(inside, n)
    ensures TouchesPage(inside, n, q) ==> q < PAGES
  {
  }

  /** The plans of pages `first`, `first + 1`, ... of the chunk, `n` of them. */
  function PagePlans(b: Block, tables: map<int, Table>, inside: nat, data: seq<byte>, n: nat): (plans: seq<Plan>)
    requires Prepared(b, tables, inside, |data|) && !b.Ssd? && (b.Strata? ==> |data| != BLOCK)
    requires n <= PageCount(inside, |data|)
    ensures |plans| == n
  {
    if n == 0 then []
    else
      var q := FirstPage(inside) + n - 1;
      PageOfChunk(inside, |data|, q);
      PagePlans(b, tables, inside, data, n - 1) + [PagePlan(b, tables, inside, data, q)]
  }

  /** STRATA tables that a whole-block write clears. */
  function ClearedTables(b: Block): (cleared: map<int, Table>)
    requires b.Strata? && |b.metas| == PAGES
    ensures forall id :: id in cleared ==> id >= 0 && exists q :: 0 <= q < PAGES && MetaAt(b, q) == id
    ensures forall q :: 0 <= q < PAGES && MetaAt(b, q) >= 0 ==> MetaAt(b, q) in cleared
    ensures forall id :: id in cleared ==> cleared[id] == EmptyTable()
  {
    map q | 0 <= q < PAGES && MetaAt(b, q) >= 0 :: MetaAt(b, q) := EmptyTable()
  }

  /** The plan for the bytes of one block. */
  function BlockPlan(b: Block, tables: map<int, Table>, inside: nat, data: seq<byte>): Plan
    requires Prepared(b, tables, inside, |data|)
  {
    if HasBase(b) && |data| == BLOCK then
      Plan([Req(b.base, data)], [], [], [], if b.Strata? then ClearedTables(b) else map[])
    else if b.Ssd? then
      Plan([], [], [DirectMerge(b.base, inside, data)], [], map[])
    else
      Gather(PagePlans(b, tables, inside, data, PageCount(inside, |data|)))
  }

  // ---- what the plan leaves at each byte, stated without the request vectors ----

  predicate Written(inside: nat, n: nat, i: int) {
    inside <= i < inside + n
  }

  /** The page of byte `i` is folded back to the SSD before its new segment is recorded. */
  predicate Merges(b: Block, tables: map<int, Table>, inside: nat, n: nat, i: int) {
    && b.Strata? && n != BLOCK && 0 <= i < BLOCK
    && TouchesPage(inside, n, i / 4096)
    && !FullToSsd(inside, n, i / 4096)
    && MetaAt(b, i / 4096) in tables && TableOk(tables[MetaAt(b, i / 4096)])
    && tables[MetaAt(b, i / 4096)][0] == MAX_SEGMENTS
  }

  /** The byte the plan writes at SSD offset `base + i`, if it writes there. */
  ghost function SsdTarget(b: Block, tables: map<int, Table>, ssd: seq<byte>, pmem: seq<byte>, inside: nat, data: seq<byte>, i: int): Option<byte>
    requires BlockOk(b, tables, |ssd|, |pmem|) && 0 <= i < BLOCK
  {
    if b.Virtual? then None
    else if b.Ssd? || |data| == BLOCK then
      Some(if Written(inside, |data|, i) then data[i - inside] else ssd[b.base + i])
    else if TouchesPage(inside, |data|, i / 4096) && FullToSsd(inside, |data|, i / 4096) then
      if Written(inside, |data|, i) then Some(data[i - inside]) else None
    else if Merges(b, tables, inside, |data|, i) then Some(BlockByte(b, tables, ssd, pmem, i))
    else None
  }

  /** The byte the plan stores in the PMEM page of byte `i`, if it stores there. */
  ghost function PmemTarget(b: Block, inside: nat, data: seq<byte>, i: int): Option<byte> {
    if 0 <= i < BLOCK && Written(inside, |data|, i)
       && (b.Virtual? || (b.Strata? && |data| != BLOCK && !FullToSsd(inside, |data|, i / 4096)))
    then Some(data[i - inside]) else None
  }

  /** The segment table the commit leaves for page `q`. */
  ghost function TableTarget(b: Block, tables: map<int, Table>, inside: nat, data: seq<byte>, q: nat): Table
    requires b.Strata? && MetaAt(b, q) in tables && TableOk(tables[MetaAt(b, q)]) && ChunkOk(inside, |data|)
  {
    var t := tables[MetaAt(b, q)];
    if |data| == BLOCK then EmptyTable()
    else if !TouchesPage(inside, |data|, q) then t
    else if FullToSsd(inside, |data|, q) then EmptyTable()
    else AddSegment(if t[0] == MAX_SEGMENTS then EmptyTable() else t,
                    From(inside, q), To(inside, |data|, q) - From(inside, q))
  }
}
