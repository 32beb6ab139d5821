/** The write path of one file over its two media: plan, device batches, PMEM stores, journal commit. */
module FileStore {
  import opened Media
  import opened Layout
  import opened WritePlan
  import opened WriteEffect
  import opened PlanOrder
  import opened PlanBounds
  import opened PlanBuilder
  import opened WritePrepare
  import opened Ledger
  import opened Draft
  import FileReader

  const MAX_FILE_SIZE: nat := 0x200_0000_0000_0000
  const PIPELINE_BYTES: nat := 262144

  datatype WriteResult = Wrote(bytes: nat, offset: nat) | WriteFailed(error: Errno)

  // ---- device batches ----

  /** A completion order for `n` requests: whatever `order` says first, then every request. */
  method CompletionOrder(order: seq<nat>, n: nat) returns (schedule: seq<nat>)
    ensures IsSchedule(schedule, n) && forall i :: 0 <= i < n ==> i in schedule
  {
    schedule := SomeOf(order, n);
    var i := 0;
    while i < n
      invariant 0 <= i <= n && IsSchedule(schedule, n) && forall j :: 0 <= j < i ==> j in schedule
    {
      schedule := schedule + [i];
      i := i + 1;
    }
  }

  /** The requests among `n` that `order` names. */
  method SomeOf(order: seq<nat>, n: nat) returns (schedule: seq<nat>)
    ensures IsSchedule(schedule, n)
  {
    schedule := [];
    var i := 0;
    while i < |order|
      invariant 0 <= i <= |order| && IsSchedule(schedule, n)
    {
      if order[i] < n {
        schedule := schedule + [order[i]];
      }
      i := i + 1;
    }
  }

  /** A batch that has completed, in whatever order. */
  method WriteBatch(m: seq<byte>, rs: seq<Req>, order: seq<nat>) returns (m': seq<byte>)
    requires AllInBounds(rs, |m|) && PairwiseApart(rs)
    ensures Settled(m', m, rs)
  {
    hide Settled, AllInBounds, PairwiseApart;
    var schedule := CompletionOrder(order, |rs|);
    m' := PutScheduled(m, rs, schedule);
    forall r | r in rs ensures r in Named(rs, schedule) {
      var i :| 0 <= i < |rs| && rs[i] == r;
      assert i in schedule;
      var k :| 0 <= k < |schedule| && schedule[k] == i;
      assert Named(rs, schedule)[k] == r;
    }
    BatchOrderIsIrrelevant(m, rs, schedule);
    PutAllSettles(m, rs);
  }

  /** What a read sees while a batch is in flight and only some of its requests have landed. */
  method InFlight(m: seq<byte>, rs: seq<Req>, landed: seq<nat>) returns (mid: seq<byte>)
    requires AllInBounds(rs, |m|) && PairwiseApart(rs)
    ensures Torn(mid, m, rs)
  {
    var schedule := SomeOf(landed, |rs|);
    mid := PutScheduled(m, rs, schedule);
    ScheduleSettles(m, rs, schedule);
    SettledIsTorn(mid, m, Named(rs, schedule));
    SomeIsTorn(mid, m, rs, Named(rs, schedule));
  }

  lemma SomeIsTorn(m': seq<byte>, m: seq<byte>, rs: seq<Req>, some: seq<Req>)
    requires Torn(m', m, some) && forall k :: 0 <= k < |some| ==> some[k] in rs
    ensures Torn(m', m, rs)
  {
  }

  /** Two settled batches that share no byte are one settled batch. */
  lemma SettledTwice(m2: seq<byte>, m1: seq<byte>, m: seq<byte>, rs: seq<Req>, ss: seq<Req>)
    requires Settled(m1, m, rs) && Settled(m2, m1, ss) && CrossApart(rs, ss)
    ensures Settled(m2, m, rs + ss)
  {
  }

  function TotalBytes(rs: seq<Req>): nat {
    if rs == [] then 0 else TotalBytes(rs[..|rs| - 1]) + |rs[|rs| - 1].data|
  }

  /** The SSD side of a plan: merge reads, perhaps behind the early writes in flight, then the remaining writes. */
  method RunSsd(plan: Plan, ssd: seq<byte>, pmem: seq<byte>, landed: seq<nat>, order: seq<nat>) returns (ssd': seq<byte>)
    requires MergesOk(plan, |ssd|, |pmem|)
    requires PairwiseApart(SsdReqs(plan, ssd, pmem)) && AllInBounds(SsdReqs(plan, ssd, pmem), |ssd|)
    ensures Settled(ssd', ssd, SsdReqs(plan, ssd, pmem))
  {
    hide Settled, Torn, MergeOk, DirectOk, PairwiseApart, CrossApart, InBounds;
    ghost var merged := MergeReqs(plan.merges, ssd, pmem) + DirectReqs(plan.directs, ssd);
    SplitRequests(plan, ssd, pmem);
    if (plan.merges != [] || plan.directs != []) && TotalBytes(plan.early) >= PIPELINE_BYTES {
      var mid := InFlight(ssd, plan.early, landed);
      MergeReadsUnaffected(plan, ssd, mid, pmem);
      assert |mid| == |ssd| by { TornSize(mid, ssd, plan.early); }
      var writes := Merged(plan, mid, pmem);
      var joined := WriteBatch(ssd, plan.early, landed);
      assert |joined| == |ssd| by { SettledSize(joined, ssd, plan.early); }
      ssd' := WriteBatch(joined, writes, order);
      SettledTwice(ssd', joined, ssd, plan.early, merged);
      assert plan.early + merged == SsdReqs(plan, ssd, pmem);
    } else {
      var writes := Merged(plan, ssd, pmem);
      assert plan.early + writes == SsdReqs(plan, ssd, pmem);
      ssd' := WriteBatch(ssd, plan.early + writes, order);
    }
  }

  method Merged(plan: Plan, ssd: seq<byte>, pmem: seq<byte>) returns (writes: seq<Req>)
    requires MergesOk(plan, |ssd|, |pmem|)
    ensures writes == MergeReqs(plan.merges, ssd, pmem) + DirectReqs(plan.directs, ssd)
  {
    var r := MergeWrites(plan, ssd, pmem);
    writes := r.value;
  }

  lemma TornSize(m': seq<byte>, m: seq<byte>, rs: seq<Req>)
    requires Torn(m', m, rs)
    ensures |m'| == |m|
  {
  }

  lemma SettledSize(m': seq<byte>, m: seq<byte>, rs: seq<Req>)
    requires Settled(m', m, rs)
    ensures |m'| == |m|
  {
  }

  lemma SplitRequests(plan: Plan, ssd: seq<byte>, pmem: seq<byte>)
    requires PairwiseApart(SsdReqs(plan, ssd, pmem)) && AllInBounds(SsdReqs(plan, ssd, pmem), |ssd|)
    ensures var merged := MergeReqs(plan.merges, ssd, pmem) + DirectReqs(plan.directs, ssd);
            && PairwiseApart(plan.early) && PairwiseApart(merged) && CrossApart(plan.early, merged)
            && AllInBounds(plan.early, |ssd|) && AllInBounds(merged, |ssd|)
  {
    var merged := MergeReqs(plan.merges, ssd, pmem) + DirectReqs(plan.directs, ssd);
    assert plan.early + merged == SsdReqs(plan, ssd, pmem);
    SplitApart(plan.early, merged);
    assert forall r :: r in plan.early || r in merged ==> r in SsdReqs(plan, ssd, pmem);
  }

  /** The PMEM stores, one after the other. */
  method RunPmem(pmem: seq<byte>, stores: seq<Req>) returns (pmem': seq<byte>)
    requires AllInBounds(stores, |pmem|) && PairwiseApart(stores)
    ensures Settled(pmem', pmem, stores)
  {
    hide Settled, PairwiseApart, Put;
    pmem' := pmem;
    var i := 0;
    while i < |stores|
      invariant 0 <= i <= |stores|
      invariant AllInBounds(stores[..i], |pmem|) && |pmem'| == |pmem| && pmem' == PutAll(pmem, stores[..i])
    {
      assert stores[i] in stores;
      pmem' := Put(pmem', stores[i]);
      assert stores[..i + 1][..i] == stores[..i];
      assert forall r :: r in stores[..i + 1] ==> r in stores;
      i := i + 1;
    }
    assert stores[..i] == stores;
    PutAllSettles(pmem, stores);
  }

  // ---- planning the write, block by block ----

  /** Bytes of the source that the first `n` blocks of the write take. */
  function Taken(offset: nat, len: nat, n: nat): nat {
    var end := (FirstBlock(offset) + n) * 32768;
    if n == 0 || end < offset then 0 else if end - offset < len then end - offset else len
  }

  lemma BlockStep(offset: nat, source: seq<byte>, n: nat)
    requires source != [] && n <= BlockCount(offset, |source|)
    ensures n == BlockCount(offset, |source|) <==> Taken(offset, |source|, n) == |source|
    ensures n < BlockCount(offset, |source|) ==>
              var c, k := Taken(offset, |source|, n), FirstBlock(offset) + n;
              && c < |source| && TouchesBlock(offset, |source|, k) && InsideOf(offset, k) < BLOCK
              && Taken(offset, |source|, n + 1) == (if |source| - c < BLOCK - InsideOf(offset, k) then |source| else c + BLOCK - InsideOf(offset, k))
              && source[c..Taken(offset, |source|, n + 1)] == ChunkOf(offset, source, k)
  {
  }

  lemma NextBlockPlan(f: File, offset: nat, source: seq<byte>, n: nat)
    requires WritePrepared(f, offset, source) && n < BlockCount(offset, |source|)
    ensures var k := FirstBlock(offset) + n;
            && BlockPrepared(f, offset, source, k)
            && Gather(BlockPlans(f, offset, source, n + 1)) ==
               Join(Gather(BlockPlans(f, offset, source, n)), BlockPlan(f.blocks[k], f.tables, InsideOf(offset, k), ChunkOf(offset, source, k)))
  {
  }

  /** The part of the source that goes to the block after the first `n`. */
  method NextChunk(offset: nat, source: seq<byte>, consumed: nat, n: nat) returns (inside: nat, chunk: seq<byte>)
    requires source != [] && n < BlockCount(offset, |source|) && consumed == Taken(offset, |source|, n)
    ensures TouchesBlock(offset, |source|, FirstBlock(offset) + n)
    ensures inside == InsideOf(offset, FirstBlock(offset) + n) && chunk == ChunkOf(offset, source, FirstBlock(offset) + n)
    ensures consumed + |chunk| == Taken(offset, |source|, n + 1)
  {
    hide Taken, BlockCount, ChunkOf, TouchesBlock, FirstBlock;
    BlockStep(offset, source, n);
    var start := (FirstBlock(offset) + n) * 32768;
    inside := (if offset > start then offset else start) - start;
    var length := if |source| - consumed < BLOCK - inside then |source| - consumed else BLOCK - inside;
    chunk := source[consumed..consumed + length];
  }

  lemma NothingTakenYet(f: File, offset: nat, source: seq<byte>)
    requires WritePrepared(f, offset, source)
    ensures source != [] && Taken(offset, |source|, 0) == 0 && Gather(BlockPlans(f, offset, source, 0)) == NoPlan()
  {
  }

  /** The planning loop of the write. */
  method PlanWrite(f: File, offset: nat, source: seq<byte>) returns (plan: Plan)
    requires WritePrepared(f, offset, source)
    ensures plan == PlanOf(f, offset, source)
  {
    hide WritePrepared, BlockPlan, BlockPlans, Gather, Join, NoPlan, Prepared, ChunkOf, InsideOf, TouchesBlock, Taken, BlockCount, FirstBlock;
    NothingTakenYet(f, offset, source);
    var count := BlockCount(offset, |source|);
    plan := NoPlan();
    var consumed, n := 0, 0;
    while n < count
      invariant 0 <= n <= count && consumed == Taken(offset, |source|, n)
      invariant plan == Gather(BlockPlans(f, offset, source, n))
    {
      var inside, chunk := NextChunk(offset, source, consumed, n);
      NextBlockPlan(f, offset, source, n);
      var k := FirstBlock(offset) + n;
      var step := PlanPrepared(f.blocks[k], f.tables, inside, chunk);
      plan, consumed, n := Join(plan, step), consumed + |chunk|, n + 1;
    }
  }

  method PlanPrepared(b: Block, tables: map<int, Table>, inside: nat, data: seq<byte>) returns (step: Plan)
    requires Prepared(b, tables, inside, |data|)
    ensures step == BlockPlan(b, tables, inside, data)
  {
    var r := PlanBlock(b, tables, inside, data);
    step := r.value;
  }

  // ---- overwrites that leave the mapping alone ----

  /** The block can take its part of the write without a transaction. */
  predicate Stable(b: Block, chunk: nat, len: nat) {
    b.Virtual? || (b.Ssd? && (chunk == BLOCK || len > BLOCK))
  }

  ghost predicate StableWrite(f: File, offset: nat, source: seq<byte>) {
    forall k :: 0 <= k < |f.blocks| && TouchesBlock(offset, |source|, k) ==> Stable(f.blocks[k], |ChunkOf(offset, source, k)|, |source|)
  }

  /** Every block that the bytes reach is virtual, or an SSD block that they cover or that they reach in more than a block. */
  ghost predicate InPlace(blocks: seq<Block>, offset: nat, length: nat) {
    forall k :: 0 <= k < |blocks| && k * 32768 < offset + length && offset < (k + 1) * 32768 ==>
      blocks[k].Virtual? || (blocks[k].Ssd? && (length > 32768 || (offset == k * 32768 && length == 32768)))
  }

  lemma InPlaceIsStable(f: File, offset: nat, source: seq<byte>)
    requires source != []
    ensures StableWrite(f, offset, source) <==> InPlace(f.blocks, offset, |source|)
  {
  }

  method IsStable(f: File, offset: nat, source: seq<byte>) returns (stable: bool)
    requires source != [] && offset + |source| <= |f.blocks| * 32768
    ensures stable <==> StableWrite(f, offset, source)
  {
    hide Stable, ChunkOf;
    var k, last := offset / 32768, (offset + |source| - 1) / 32768;
    while k <= last
      invariant offset / 32768 <= k <= last + 1
      invariant forall j :: 0 <= j < k && j < |f.blocks| && TouchesBlock(offset, |source|, j) ==> Stable(f.blocks[j], |ChunkOf(offset, source, j)|, |source|)
    {
      assert TouchesBlock(offset, |source|, k);
      if !Stable(f.blocks[k], |ChunkOf(offset, source, k)|, |source|) {
        return false;
      }
      k := k + 1;
    }
    return true;
  }

  /** A stable overwrite inside the file is prepared as it stands. */
  lemma StableIsPrepared(f: File, offset: nat, source: seq<byte>, ssdSize: nat, pmemSize: nat)
    requires FileOk(f, ssdSize, pmemSize) && source != [] && offset + |source| <= f.size && StableWrite(f, offset, source)
    ensures WritePrepared(f, offset, source)
  {
    hide PagesApart, MetasApart, SsdApart;
    forall k | 0 <= k < |f.blocks| && TouchesBlock(offset, |source|, k) ensures BlockPrepared(f, offset, source, k) {
      assert BlockOk(f.blocks[k], f.tables, ssdSize, pmemSize);
      assert Stable(f.blocks[k], |ChunkOf(offset, source, k)|, |source|);
      var inside, n := InsideOf(offset, k), |ChunkOf(offset, source, k)|;
      if f.blocks[k].Virtual? {
        forall q | 0 <= q < PAGES && TouchesPage(inside, n, q) ensures PageAt(f.blocks[k], q) >= 0 {
          var i := if inside > q * 4096 then inside else q * 4096;
          var x := k * 32768 + i;
          assert i / 4096 == q && x / 32768 == k && x % 32768 == i;
          assert Readable(f.blocks[x / 32768], x % 32768);
        }
      }
    }
  }

  /** It changes no segment table, so there is nothing to commit. */
  lemma StableKeepsTables(f: File, offset: nat, source: seq<byte>)
    requires WritePrepared(f, offset, source) && StableWrite(f, offset, source)
    ensures PlanOf(f, offset, source).tables == map[]
  {
    hide PlanOf, Prepared;
    forall id ensures id !in PlanOf(f, offset, source).tables {
      if id in PlanOf(f, offset, source).tables {
        var k, q := WriteTablesFrom(f, offset, source, id);
        assert false;
      }
    }
  }

  // ---- from the plan to the committed file ----

  /** A prepared write carried out and committed. `landed` and `order` stand for the device: which early writes the
      merge reads already see, and in which order each batch completes. */
  method Perform(g: File, ssd: seq<byte>, pmem: seq<byte>, offset: nat, source: seq<byte>, landed: seq<nat>, order: seq<nat>)
    returns (g': File, ssd': seq<byte>, pmem': seq<byte>)
    requires FileOk(g, |ssd|, |pmem|) && WritePrepared(g, offset, source) && offset <= g.size
    ensures |ssd'| == |ssd| && |pmem'| == |pmem| && g' == Committed(g, offset, source)
    ensures FileOk(g', |ssd|, |pmem|)
    ensures View(g', ssd', pmem') == Splice(View(g, ssd, pmem), offset, source)
  {
    hide PlanOf, WritePrepared, PairwiseApart, Settled, MergesOk, AllInBounds, SsdReqs, PagesApart, MetasApart, SsdApart, BlocksOk, Backed;
    var plan := PlanWrite(g, offset, source);
    WriteSsdApart(g, ssd, pmem, offset, source);
    WriteSsdInBounds(g, ssd, pmem, offset, source);
    WritePmemApart(g, offset, source);
    WritePmemInBounds(g, |ssd|, |pmem|, offset, source);
    WriteMergesOk(g, offset, source, |ssd|, |pmem|);
    ssd' := RunSsd(plan, ssd, pmem, landed, order);
    pmem' := RunPmem(pmem, plan.pmem);
    SettledSize(ssd', ssd, SsdReqs(plan, ssd, pmem));
    SettledSize(pmem', pmem, plan.pmem);
    var end := offset + |source|;
    g' := File(if end > g.size then end else g.size, g.blocks, g.tables + plan.tables);
    CommittedView(g, ssd, ssd', pmem, pmem', offset, source);
  }

  // ---- transfers that fail ----

  /** A device error in the middle of a write: the bytes of each medium that have been stored by then. */
  datatype Fault = Fault(ssd: nat -> bool, pmem: nat -> bool)

  function Mixed(m: seq<byte>, done: seq<byte>, stored: nat -> bool): (m': seq<byte>)
    requires |done| == |m|
    ensures |m'| == |m| && forall a :: 0 <= a < |m| ==> m'[a] == if stored(a) then done[a] else m[a]
  {
    seq(|m|, a requires 0 <= a < |m| => if stored(a) then done[a] else m[a])
  }

  lemma MixedIsTorn(m: seq<byte>, done: seq<byte>, stored: nat -> bool, rs: seq<Req>)
    requires Settled(done, m, rs)
    ensures Torn(Mixed(m, done, stored), m, rs)
  {
    SettledIsTorn(done, m, rs);
    var m' := Mixed(m, done, stored);
    forall a | 0 <= a < |m| && m'[a] != m[a] ensures exists r :: r in rs && Covers(r, a) && m'[a] == r.data[a - r.off] {
      assert m'[a] == done[a];
    }
  }

  /** A prepared write that fails on the way: the media hold any part of it, nothing is committed. */
  method Break(g: File, ssd: seq<byte>, pmem: seq<byte>, offset: nat, source: seq<byte>, fault: Fault) returns (ssd': seq<byte>, pmem': seq<byte>)
    requires FileOk(g, |ssd|, |pmem|) && WritePrepared(g, offset, source)
    ensures |ssd'| == |ssd| && |pmem'| == |pmem|
    ensures Torn(ssd', ssd, SsdReqs(PlanOf(g, offset, source), ssd, pmem)) && Torn(pmem', pmem, PlanOf(g, offset, source).pmem)
  {
    hide PlanOf, WritePrepared, PairwiseApart, Settled, Torn, MergesOk, AllInBounds, SsdReqs, PagesApart, MetasApart, SsdApart, BlocksOk, Backed;
    var plan := PlanWrite(g, offset, source);
    WriteSsdApart(g, ssd, pmem, offset, source);
    WriteSsdInBounds(g, ssd, pmem, offset, source);
    WritePmemApart(g, offset, source);
    WritePmemInBounds(g, |ssd|, |pmem|, offset, source);
    WriteMergesOk(g, offset, source, |ssd|, |pmem|);
    var ssd1 := RunSsd(plan, ssd, pmem, [], []);
    var pmem1 := RunPmem(pmem, plan.pmem);
    SettledSize(ssd1, ssd, SsdReqs(plan, ssd, pmem));
    SettledSize(pmem1, pmem, plan.pmem);
    MixedIsTorn(ssd, ssd1, fault.ssd, SsdReqs(plan, ssd, pmem));
    MixedIsTorn(pmem, pmem1, fault.pmem, plan.pmem);
    ssd', pmem' := Mixed(ssd, ssd1, fault.ssd), Mixed(pmem, pmem1, fault.pmem);
  }

  /** The old contents, with some bytes of the write in place. */
  ghost predicate OldOrNew(v': seq<byte>, v: seq<byte>, offset: nat, source: seq<byte>) {
    && |v'| == |v|
    && forall x :: 0 <= x < |v| ==> v'[x] == v[x] || (offset <= x < offset + |source| && v'[x] == source[x - offset])
  }

  lemma BrokenIsOldOrNew(f: File, g: File, ssd: seq<byte>, ssd': seq<byte>, pmem: seq<byte>, pmem': seq<byte>, offset: nat, source: seq<byte>)
    requires FileOk(f, |ssd|, |pmem|) && FileOk(g, |ssd|, |pmem|) && Extends(g, f) && WritePrepared(g, offset, source)
    requires Torn(ssd', ssd, SsdReqs(PlanOf(g, offset, source), ssd, pmem)) && Torn(pmem', pmem, PlanOf(g, offset, source).pmem)
    requires |ssd'| == |ssd| && |pmem'| == |pmem|
    ensures OldOrNew(View(f, ssd', pmem'), View(f, ssd, pmem), offset, source)
  {
    hide Torn, PlanOf, SsdReqs, WritePrepared, FileOk, Extends, ByteAt;
    forall x | 0 <= x < f.size
      ensures || View(f, ssd', pmem')[x] == View(f, ssd, pmem)[x]
              || (offset <= x < offset + |source| && View(f, ssd', pmem')[x] == source[x - offset])
    {
      CrashBeforeCommit(f, g, ssd, ssd', pmem, pmem', offset, source, x);
    }
  }

  lemma CommitKeepsStore(g: File, g': File, space: Space, ssdSize: nat, pmemSize: nat)
    requires StoreOk(g, space, ssdSize, pmemSize) && FileOk(g', ssdSize, pmemSize) && g'.blocks == g.blocks
    ensures StoreOk(g', space, ssdSize, pmemSize)
  {
  }

  lemma StoreIsFile(f: File, space: Space, ssdSize: nat, pmemSize: nat)
    requires StoreOk(f, space, ssdSize, pmemSize)
    ensures FileOk(f, ssdSize, pmemSize)
  {
  }

  /** The write is an overwrite that leaves the mapping alone. */
  ghost predicate StaysPut(f: File, offset: nat, source: seq<byte>, append: bool) {
    !append && offset + |source| <= f.size && StableWrite(f, offset, source)
  }

  /** What a write that is neither empty nor too big comes to. */
  ghost function Answer(f: File, space: Space, offset: nat, source: seq<byte>, append: bool, fault: Option<Fault>): WriteResult
    requires source != []
  {
    var prospect := if StaysPut(f, offset, source, append) then None else Prospect(f.blocks, space, offset, source);
    if prospect.Some? then WriteFailed(prospect.value) else if fault.Some? then WriteFailed(EIO) else Wrote(|source|, offset)
  }

  lemma AnswerIsOneOf(f: File, space: Space, offset: nat, source: seq<byte>, append: bool, fault: Option<Fault>)
    requires source != []
    ensures Answer(f, space, offset, source, append, fault) in {Wrote(|source|, offset), WriteFailed(EIO), WriteFailed(ENOSPC)}
  {
  }

  predicate TooBig(offset: nat, source: seq<byte>) {
    offset > MAX_FILE_SIZE || |source| > MAX_FILE_SIZE - offset
  }

  const ZERO_CHUNK: nat := 1048576

  function Zeros(n: nat): (z: seq<byte>)
    ensures |z| == n && forall i :: 0 <= i < n ==> z[i] == 0
  {
    seq(n, i => 0)
  }

  /** The next chunk on the way from the old end to `size`. */
  function NextZeros(size: nat, cursor: nat): (z: seq<byte>)
    requires cursor < size
    ensures 0 < |z| <= size - cursor && (|z| == ZERO_CHUNK || |z| == size - cursor)
  {
    Zeros(if ZERO_CHUNK < size - cursor then ZERO_CHUNK else size - cursor)
  }

  /** The byte array cut or padded with zeros to `size`. */
  function Resized(v: seq<byte>, size: nat): (v': seq<byte>)
    ensures |v'| == size
  {
    if size <= |v| then v[..size] else v + Zeros(size - |v|)
  }

  lemma GrowByZeros(v: seq<byte>, cursor: nat, chunk: nat)
    requires |v| <= cursor
    ensures Splice(Resized(v, cursor), cursor, Zeros(chunk)) == Resized(v, cursor + chunk)
  {
  }

  lemma ShrinkKeeps(f: File, space: Space, ssd: seq<byte>, pmem: seq<byte>, size: nat)
    requires StoreOk(f, space, |ssd|, |pmem|) && size <= f.size
    ensures StoreOk(f.(size := size), space, |ssd|, |pmem|)
    ensures View(f.(size := size), ssd, pmem) == View(f, ssd, pmem)[..size]
  {
  }

  class Store {
    var ssd: seq<byte>
    var pmem: seq<byte>
    var file: File
    var space: Space
    /** The storage this file started with; nothing is ever lost from it or handed out twice. */
    ghost const units: Units

    ghost predicate Valid()
      reads this
    {
      StoreOk(file, space, |ssd|, |pmem|) && UnitsOf(file.blocks, space) == units
    }

    /** The file as its readers see it. */
    ghost function Contents(): (v: seq<byte>)
      requires Valid()
      reads this
      ensures |v| == file.size
    {
      View(file, ssd, pmem)
    }

    /** An empty file over two media with fresh space. */
    constructor (ssd: seq<byte>, pmem: seq<byte>, space: Space)
      requires SpaceOk([], space, |ssd|, |pmem|)
      ensures Valid() && Contents() == [] && units == UnitsOf([], space)
      ensures file == File(0, [], map[]) && this.space == space
    {
      this.ssd, this.pmem, this.space, file := ssd, pmem, space, File(0, [], map[]);
      units := UnitsOf([], space);
    }

    /** A read gives the bytes of the file from `offset` on, as many as there are and as fit. */
    method Read(offset: nat, destination: array<byte>) returns (length: nat)
      requires Valid()
      modifies destination
      ensures length == if offset >= file.size then 0
                        else if destination.Length < file.size - offset then destination.Length else file.size - offset
      ensures offset < file.size ==> destination[..length] == Contents()[offset..offset + length]
      ensures destination[length..] == old(destination[length..])
    {
      hide StoreOk, UnitsOf, FileOk, View;
      StoreIsFile(file, space, |ssd|, |pmem|);
      length := FileReader.Read(file, ssd, pmem, offset, destination);
    }

    /** An overwrite that touches no mapping: no transaction. */
    method Overwrite(offset: nat, source: seq<byte>, landed: seq<nat>, order: seq<nat>, fault: Option<Fault>) returns (error: Option<Errno>)
      requires Valid() && source != [] && offset + |source| <= file.size && StableWrite(file, offset, source)
      modifies this
      ensures Valid() && file == old(file) && space == old(space)
      ensures error == if fault.Some? then Some(EIO) else None
      ensures error.None? ==> Contents() == Splice(old(Contents()), offset, source)
      ensures error.Some? ==> OldOrNew(Contents(), old(Contents()), offset, source)
    {
      hide StoreOk, UnitsOf, FileOk, StableWrite, WritePrepared, PlanOf, View, OldOrNew, Torn, SsdReqs, Extends;
      StoreIsFile(file, space, |ssd|, |pmem|);
      StableIsPrepared(file, offset, source, |ssd|, |pmem|);
      StableKeepsTables(file, offset, source);
      if fault.Some? {
        var ssd', pmem' := Break(file, ssd, pmem, offset, source, fault.value);
        ExtendsItself(file);
        BrokenIsOldOrNew(file, file, ssd, ssd', pmem, pmem', offset, source);
        ssd, pmem := ssd', pmem';
        return Some(EIO);
      }
      var g, ssd', pmem' := Perform(file, ssd, pmem, offset, source, landed, order);
      assert g.tables == file.tables;
      ssd, pmem := ssd', pmem';
      error := None;
    }

    /** A write that may allocate: prepared in a transaction, dropped with it if that or a transfer fails. */
    method WriteThrough(offset: nat, source: seq<byte>, landed: seq<nat>, order: seq<nat>, fault: Option<Fault>) returns (error: Option<Errno>)
      requires Valid() && source != [] && offset <= file.size
      modifies this
      ensures Valid()
      ensures error.None? ==> fault.None? && Contents() == Splice(old(Contents()), offset, source)
      ensures error.Some? ==> file == old(file) && space == old(space) && OldOrNew(Contents(), old(Contents()), offset, source)
      ensures error.Some? && fault.None? ==> ssd == old(ssd) && pmem == old(pmem)
      ensures var prospect := Prospect(old(file).blocks, old(space), offset, source);
              error == if prospect.None? && fault.Some? then Some(EIO) else prospect
      ensures error.None? ==> Formed(file.blocks, old(file).blocks, offset, source, LastBlock(offset, source) + 1)
      ensures error.None? ==> |file.blocks| == if LastBlock(offset, source) < |old(file).blocks| then |old(file).blocks| else LastBlock(offset, source) + 1
      ensures error.None? ==> Spent(space, old(space), WriteNeed(old(file).blocks, offset, source))
    {
      hide StoreOk, UnitsOf, FileOk, WritePrepared, PlanOf, Extends, Prospect, View, OldOrNew, Torn, SsdReqs, Formed, WriteNeed, LastBlock, BlockCount;
      var transaction := new Transaction(file, space, |ssd|, |pmem|);
      error := transaction.Prepare(offset, source);
      StoreIsFile(file, space, |ssd|, |pmem|);
      if error.Some? {
        NothingIsOldOrNew(Contents(), offset, source);
        return;
      }
      StoreIsFile(transaction.file, transaction.space, |ssd|, |pmem|);
      if fault.Some? {
        var ssd', pmem' := Break(transaction.file, ssd, pmem, offset, source, fault.value);
        BrokenIsOldOrNew(file, transaction.file, ssd, ssd', pmem, pmem', offset, source);
        ssd, pmem := ssd', pmem';
        return Some(EIO);
      }
      ExtendsKeepsView(transaction.file, file, ssd, pmem);
      assert transaction.file.size == file.size by { ExtendsKeepsSize(transaction.file, file); }
      var g, ssd', pmem' := Perform(transaction.file, ssd, pmem, offset, source, landed, order);
      CommitKeepsStore(transaction.file, g, transaction.space, |ssd|, |pmem|);
      file, space, ssd, pmem := g, transaction.space, ssd', pmem';
    }

    /** `fault` is a device error on the way, if there is one. */
    method Write(requested: nat, source: seq<byte>, append: bool, landed: seq<nat>, order: seq<nat>, fault: Option<Fault>) returns (r: WriteResult)
      requires Valid()
      modifies this
      ensures Valid()
      ensures var offset := if append then old(file).size else requested;
              r == WriteFailed(EFBIG) <==> source != [] && offset <= old(file).size && offset + |source| > 0x200_0000_0000_0000
      ensures !append && source != [] && requested + |source| <= old(file).size && requested + |source| <= 0x200_0000_0000_0000
              && InPlace(old(file).blocks, requested, |source|) ==>
                file == old(file) && space == old(space) && r == if fault.Some? then WriteFailed(EIO) else Wrote(|source|, requested)
      ensures var offset := if append then old(file).size else requested;
              if offset > old(file).size || source == [] then
                r == Wrote(0, offset) && Contents() == old(Contents())
              else if TooBig(offset, source) then
                r == WriteFailed(EFBIG) && Contents() == old(Contents())
              else
                && r == Answer(old(file), old(space), offset, source, append, fault)
                && (r.Wrote? ==> Contents() == Splice(old(Contents()), offset, source))
                && (r.WriteFailed? ==> file == old(file) && space == old(space) && OldOrNew(Contents(), old(Contents()), offset, source))
                && (r.WriteFailed? && fault.None? ==> Contents() == old(Contents()))
                && (r.Wrote? && StaysPut(old(file), offset, source, append) ==> file == old(file) && space == old(space))
                && (r.Wrote? && !StaysPut(old(file), offset, source, append) ==>
                      Spent(space, old(space), WriteNeed(old(file).blocks, offset, source)))
                && (r.Wrote? && |source| <= BLOCK ==> Formed(file.blocks, old(file).blocks, offset, source, LastBlock(offset, source) + 1))
                && (r.Wrote? ==> |file.blocks| == if LastBlock(offset, source) < |old(file).blocks| then |old(file).blocks| else LastBlock(offset, source) + 1)
    {
      hide StoreOk, UnitsOf, FileOk, WritePrepared, PlanOf, Prospect, View, OldOrNew, Formed, WriteNeed, StableWrite, LastBlock, BlockCount;
      var offset := if append then file.size else requested;
      if offset > file.size || source == [] {
        return Wrote(0, offset);
      }
      if TooBig(offset, source) {
        return WriteFailed(EFBIG);
      }
      AnswerIsOneOf(file, space, offset, source, append, fault);
      InPlaceIsStable(file, offset, source);
      var stable := !append && offset + |source| <= file.size;
      if stable {
        SizeIsIndexed(file, space, |ssd|, |pmem|);
        stable := IsStable(file, offset, source);
      }
      if stable {
        StableIsFormed(file, offset, source);
        var error := Overwrite(offset, source, landed, order, fault);
        if error.Some? {
          return WriteFailed(error.value);
        }
      } else {
        var error := WriteThrough(offset, source, landed, order, fault);
        if error.Some? {
          return WriteFailed(error.value);
        }
      }
      r := Wrote(|source|, offset);
    }

    /** Shrinking only moves the size; growing writes zeros from the old end on, a megabyte at a time. */
    method Truncate(size: nat, landed: seq<nat>, order: seq<nat>, faults: nat -> Option<Fault>) returns (error: Option<Errno>)
      requires Valid()
      modifies this
      ensures Valid()
      ensures size > 0x200_0000_0000_0000 <==> error == Some(EFBIG)
      ensures error.None? ==> Contents() == Resized(old(Contents()), size)
      ensures error.Some? ==> |old(Contents())| <= |Contents()| && Contents() == Resized(old(Contents()), |Contents()|)
      ensures error.Some? && size <= MAX_FILE_SIZE ==> |Contents()| < size && (|Contents()| - |old(Contents())|) % 1048576 == 0
      ensures error.Some? && size <= MAX_FILE_SIZE ==>
                file.size < size && WriteFailed(error.value) == Answer(file, space, file.size, NextZeros(size, file.size), false, faults(file.size))
      ensures size <= |old(Contents())| ==> error.None? || size > MAX_FILE_SIZE
    {
      hide StoreOk, UnitsOf, View, Formed, OldOrNew, Splice, LastBlock, LastByte, BlockCount, Answer, StaysPut, WriteNeed;
      if size > MAX_FILE_SIZE {
        assert Contents() == Resized(old(Contents()), |Contents()|);
        return Some(EFBIG);
      }
      if size <= file.size {
        ShrinkKeeps(file, space, ssd, pmem, size);
        file := file.(size := size);
        return None;
      }
      error := None;
      var cursor := file.size;
      while cursor < size
        invariant cursor <= size && error.None? && Valid() && file.size == cursor >= |old(Contents())|
        invariant Contents() == Resized(old(Contents()), cursor)
        invariant cursor < size ==> (cursor - |old(Contents())|) % 1048576 == 0
      {
        var zeros := NextZeros(size, cursor);
        var chunk := |zeros|;
        label Before:
        AnswerIsOneOf(file, space, cursor, zeros, false, faults(cursor));
        var written := Write(cursor, zeros, false, landed, order, faults(cursor));
        if written.WriteFailed? {
          assert Contents() == old@Before(Contents()) by { BehindIsOld(Contents(), old@Before(Contents()), cursor, zeros); }
          return Some(written.error);
        }
        GrowByZeros(old(Contents()), cursor, chunk);
        cursor := cursor + chunk;
      }
    }
  }

  lemma NothingIsOldOrNew(v: seq<byte>, offset: nat, source: seq<byte>)
    ensures OldOrNew(v, v, offset, source)
  {
  }

  /** A failed write behind the end leaves the contents alone. */
  lemma BehindIsOld(v': seq<byte>, v: seq<byte>, offset: nat, source: seq<byte>)
    requires OldOrNew(v', v, offset, source) && offset >= |v|
    ensures v' == v
  {
  }

  lemma StableIsFormed(f: File, offset: nat, source: seq<byte>)
    requires source != [] && offset + |source| <= |f.blocks| * 32768 && StableWrite(f, offset, source)
    ensures |source| <= BLOCK ==> Formed(f.blocks, f.blocks, offset, source, LastBlock(offset, source) + 1)
    ensures LastBlock(offset, source) < |f.blocks|
  {
  }

  lemma ExtendsKeepsSize(f': File, f: File)
    requires Extends(f', f)
    ensures f'.size == f.size
  {
  }

  lemma SizeIsIndexed(f: File, space: Space, ssdSize: nat, pmemSize: nat)
    requires StoreOk(f, space, ssdSize, pmemSize)
    ensures f.size <= |f.blocks| * 32768
  {
  }

  // ---- crashes ----

  /** A crash before the commit record: the journal restores the old index `f` while the media hold any part of the
      requests planned for the grown index `g`. Readers see old bytes outside the write and old or new ones inside. */
  lemma CrashBeforeCommit(f: File, g: File, ssd: seq<byte>, ssd': seq<byte>, pmem: seq<byte>, pmem': seq<byte>,
                          offset: nat, source: seq<byte>, x: int)
    requires FileOk(f, |ssd|, |pmem|) && FileOk(g, |ssd|, |pmem|) && Extends(g, f) && WritePrepared(g, offset, source)
    requires Torn(ssd', ssd, SsdReqs(PlanOf(g, offset, source), ssd, pmem)) && Torn(pmem', pmem, PlanOf(g, offset, source).pmem)
    requires 0 <= x < f.size
    ensures |ssd'| == |ssd| && |pmem'| == |pmem|
    ensures || View(f, ssd', pmem')[x] == View(f, ssd, pmem)[x]
            || (offset <= x < offset + |source| && View(f, ssd', pmem')[x] == source[x - offset])
  {
    hide Torn, PlanOf, SsdReqs, WritePrepared, PagesApart, MetasApart, SsdApart, BlockOk, Readable, Extends, BlockByte;
    TornSize(ssd', ssd, SsdReqs(PlanOf(g, offset, source), ssd, pmem));
    TornSize(pmem', pmem, PlanOf(g, offset, source).pmem);
    ExtendsKeepsSize(g, f);
    ExtendsKeepsView(g, f, ssd, pmem);
    ExtendsKeepsView(g, f, ssd', pmem');
    CrashedByte(g, ssd, ssd', pmem, pmem', offset, source, x);
    assert View(g, ssd, pmem)[x] == ByteAt(g, ssd, pmem, x) && View(g, ssd', pmem')[x] == ByteAt(g, ssd', pmem', x);
  }

  // ---- an append that cannot be prepared ----

  /** A file that ends in a whole SSD block can be appended to; after any partial overwrite of that block it cannot,
      by any append that ends inside the next block, however much space there is. */
  lemma OverwriteBlocksAppend(f: File, space: Space, q: nat, n: nat, ssdSize: nat, pmemSize: nat)
    requires StoreOk(f, space, ssdSize, pmemSize) && space.pages != [] && space.metas != []
    requires f.blocks != [] && f.blocks[|f.blocks| - 1].Ssd? && f.size == |f.blocks| * 32768 && q < PAGES && 0 < n < BLOCK
    ensures !Stuck(f.blocks, LastBlock(f.size, Zeros(n)), LastByte(f.size, Zeros(n)))
    ensures var f' := AddOverlay(f, |f.blocks| - 1, q, space.pages[0], space.metas[0]);
            Extends(f', f) && Stuck(f'.blocks, LastBlock(f'.size, Zeros(n)), LastByte(f'.size, Zeros(n)))
  {
    hide StoreOk, Extends;
    AddOverlayKeeps(f, space, |f.blocks| - 1, q, ssdSize, pmemSize);
    assert LastBlock(f.size, Zeros(n)) == |f.blocks| && LastByte(f.size, Zeros(n)) == n - 1;
  }

  lemma FirstBlockFacts(source: seq<byte>)
    requires 0 < |source| <= BLOCK
    ensures LastBlock(0, source) == 0 && LastByte(0, source) == |source| - 1
    ensures TouchesBlock(0, |source|, 0) && InsideOf(0, 0) == 0 && ChunkOf(0, source, 0) == source
  {
  }

  lemma OneOverlay(blocks: seq<Block>, source: seq<byte>)
    requires 0 < |source| <= BLOCK
    ensures OverlaysNeed(blocks, 0, source, 1) == if blocks == [] then Need(0, 0, 0, 0) else OverlayNeed(blocks[0], 0, |source|)
  {
    hide OverlayNeed;
    FirstBlockFacts(source);
    assert OverlaysNeed(blocks, 0, source, 0) == Need(0, 0, 0, 0);
  }

  /** One whole block takes one SSD block of the stock. */
  lemma WholeBlockProspect(space: Space, block: seq<byte>)
    requires |block| == BLOCK && |space.bases| >= 1
    ensures WriteNeed([], 0, block) == Need(0, 1, 0, 0) && Prospect([], space, 0, block) == None
  {
    hide OverlaysNeed, LastBlock, LastByte;
    FirstBlockFacts(block);
    OneOverlay([], block);
    assert FillNeed([], 0, 0, 0, BLOCK - 1) == 0;
  }

  lemma FirstIndexNeed(blocks: seq<Block>, source: seq<byte>)
    requires |blocks| == 1 && blocks[0].Ssd? && |source| == 1
    ensures IndexNeed(blocks, 0, source) == Need(0, 0, 0, 0) && !Stuck(blocks, LastBlock(0, source), LastByte(0, source))
  {
    hide FillNeed, AppendNeed, LastBlock, LastByte;
    FirstBlockFacts(source);
    AppendNeedFacts(blocks, 0, 0);
    FillNone(blocks, 0, 0, 0);
    FillStep(blocks, 0, 0, 0, 0);
  }

  lemma FirstOverlayNeed(blocks: seq<Block>, source: seq<byte>)
    requires |blocks| == 1 && blocks[0].Ssd? && |source| == 1
    ensures OverlaysNeed(blocks, 0, source, LastBlock(0, source) + 1) == Need(1, 0, 1, 1)
  {
    hide OverlaysNeed, OverlayNeed, LastBlock;
    FirstBlockFacts(source);
    OneOverlay(blocks, source);
    OneByteOverlay(blocks[0]);
  }

  /** One byte over an SSD block takes a page, a table and an index node. */
  lemma OneByteProspect(blocks: seq<Block>, space: Space, offset: nat, source: seq<byte>)
    requires offset == 0 && |blocks| == 1 && blocks[0].Ssd? && |source| == 1
    requires |space.pages| >= 1 && |space.metas| >= 1 && space.nodes >= 1
    ensures WriteNeed(blocks, offset, source) == Need(1, 0, 1, 1) && Prospect(blocks, space, offset, source) == None
  {
    hide OverlaysNeed, IndexNeed, Stuck, LastBlock, LastByte;
    FirstIndexNeed(blocks, source);
    FirstOverlayNeed(blocks, source);
  }

  lemma OneByteOverlay(b: Block)
    requires b.Ssd?
    ensures OverlayNeed(b, 0, 1) == Need(1, 0, 1, 1)
  {
    hide Missing;
    MissingStep(b, 0, 0);
  }

  lemma SecondBlockFacts(source: seq<byte>)
    requires |source| == 1
    ensures LastBlock(BLOCK, source) == 1 && LastByte(BLOCK, source) == 0 && BLOCK / 32768 == 1
  {
  }

  /** One byte behind a STRATA block is refused. */
  lemma BehindStrataProspect(blocks: seq<Block>, space: Space, offset: nat, source: seq<byte>)
    requires |blocks| == 1 && blocks[0].Strata? && offset == BLOCK && |source| == 1 && |space.pages| >= 1
    ensures Prospect(blocks, space, offset, source) == Some(EIO)
  {
    hide FillNeed, AppendNeed, OverlaysNeed, LastBlock, LastByte;
    SecondBlockFacts(source);
    assert Stuck(blocks, LastBlock(offset, source), LastByte(offset, source));
    AppendNeedFacts(blocks, 1, 0);
    FillNone(blocks, 1, 1, 0);
    assert IndexNeed(blocks, offset, source).pages == 1;
  }

  /** The same as three writes to a new store: a whole block, one byte over it, one byte behind it, which is refused
      whatever space there is for it. */
  method StuckRun(ssd: seq<byte>, pmem: seq<byte>, space: Space, block: seq<byte>, over: byte, behind: byte)
    returns (store: Store, r1: WriteResult, r2: WriteResult, r3: WriteResult)
    requires SpaceOk([], space, |ssd|, |pmem|) && |block| == BLOCK
    requires |space.pages| >= 2 && |space.bases| >= 1 && |space.metas| >= 1 && space.nodes >= 1
    ensures store.Valid() && r1 == Wrote(BLOCK, 0) && r2 == Wrote(1, 0) && r3 == WriteFailed(EIO)
    ensures store.Contents() == [over] + block[1..]
  {
    hide StoreOk, UnitsOf, View, SpaceOk, Prospect, WriteNeed, LastBlock, LastByte, TouchesBlock, ChunkOf, OldOrNew;
    store := new Store(ssd, pmem, space);
    WholeBlockProspect(space, block);
    FirstBlockFacts(block);
    FirstBlockFacts([over]);
    NotStable(store.file, 0, block);
    r1 := store.Write(0, block, false, [], [], None);
    assert store.file.blocks[0].Ssd? && |store.file.blocks| == 1 && store.file.size == BLOCK;
    OneByteProspect(store.file.blocks, store.space, 0, [over]);
    PartialNotStable(store.file, over);
    r2 := store.Write(0, [over], false, [], [], None);
    assert store.file.blocks[0].Strata? && |store.file.blocks| == 1 && store.file.size == BLOCK;
    BehindStrataProspect(store.file.blocks, store.space, BLOCK, [behind]);
    NotStable(store.file, BLOCK, [behind]);
    r3 := store.Write(BLOCK, [behind], false, [], [], None);
  }

  lemma NotStable(f: File, offset: nat, source: seq<byte>)
    requires offset + |source| > f.size
    ensures !StaysPut(f, offset, source, false)
  {
  }

  lemma PartialNotStable(f: File, over: byte)
    requires f.blocks != [] && f.blocks[0].Ssd?
    ensures !StaysPut(f, 0, [over], false)
  {
    assert TouchesBlock(0, 1, 0) && |ChunkOf(0, [over], 0)| == 1;
  }
}
