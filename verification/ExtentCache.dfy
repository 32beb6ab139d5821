/** The extent cache: runs of SSD blocks merged into extents, looked up by binary search, updated in one pass. */
module ExtentCache {
  import opened Media
  import opened Layout

  const MAX_I64: int := 0x7FFF_FFFF_FFFF_FFFF

  /** `count` blocks from block `first` on; only an SSD mapping moves along with the block number. */
  datatype Extent = Extent(first: nat, count: nat, mapping: Block)

  datatype Snapshot = Snapshot(size: nat, extents: seq<Extent>)

  predicate InExtent(e: Extent, b: nat) {
    e.first <= b < e.first + e.count
  }

  function Shifted(mapping: Block, delta: nat): Block {
    if mapping.Ssd? then Ssd(mapping.base + delta * 32768) else mapping
  }

  function MappingOf(e: Extent, b: nat): Block
    requires InExtent(e, b)
  {
    Shifted(e.mapping, b - e.first)
  }

  /** The block map the extents stand for. */
  function At(extents: seq<Extent>, b: nat): Option<Block> {
    if extents == [] then None
    else
      var e := extents[|extents| - 1];
      if InExtent(e, b) then Some(MappingOf(e, b)) else At(extents[..|extents| - 1], b)
  }

  function EndOf(extents: seq<Extent>): nat {
    if extents == [] then 0 else extents[|extents| - 1].first + extents[|extents| - 1].count
  }

  /** In order, without overlap or gap inside; only SSD runs are longer than one block. */
  ghost predicate ExtentsOk(extents: seq<Extent>) {
    && (forall i :: 0 <= i < |extents| ==> extents[i].count > 0 && (extents[i].mapping.Ssd? || extents[i].count == 1))
    && (forall i, j :: 0 <= i < j < |extents| ==> extents[i].first + extents[i].count <= extents[j].first)
  }

  lemma {:induction false} NothingPastTheEnd(extents: seq<Extent>, b: nat)
    requires ExtentsOk(extents) && b >= EndOf(extents)
    ensures At(extents, b) == None
  {
    if extents != [] {
      var front := extents[..|extents| - 1];
      assert front != [] ==> EndOf(front) <= extents[|extents| - 1].first;
      NothingPastTheEnd(front, b);
    }
  }

  /** In a sorted list of extents the one that holds the block decides. */
  lemma {:induction false} AtIs(extents: seq<Extent>, i: nat, b: nat)
    requires ExtentsOk(extents) && i < |extents| && InExtent(extents[i], b)
    ensures At(extents, b) == Some(MappingOf(extents[i], b))
  {
    if i < |extents| - 1 {
      AtIs(extents[..|extents| - 1], i, b);
    }
  }

  lemma {:induction false} AtIsNone(extents: seq<Extent>, b: nat)
    requires forall i :: 0 <= i < |extents| ==> !InExtent(extents[i], b)
    ensures At(extents, b) == None
  {
    if extents != [] {
      AtIsNone(extents[..|extents| - 1], b);
    }
  }

  // ---- appending ----

  predicate Mergeable(previous: Extent, block: nat, mapping: Block) {
    && previous.mapping.Ssd? && mapping.Ssd?
    && previous.first + previous.count == block
    && previous.mapping.base >= 0 && mapping.base >= 0
    && previous.count <= (MAX_I64 - previous.mapping.base) / 32768
    && previous.mapping.base + previous.count * 32768 == mapping.base
  }

  /** No extent continues the one before it: every run is as long as it can be. */
  ghost predicate Maximal(extents: seq<Extent>) {
    forall i :: 0 < i < |extents| ==> !Mergeable(extents[i - 1], extents[i].first, extents[i].mapping)
  }

  /** One more extent at the end, merged into the last one where it continues it. */
  method Append(extents: seq<Extent>, e: Extent) returns (r: seq<Extent>)
    requires ExtentsOk(extents) && EndOf(extents) <= e.first && (e.mapping.Ssd? || e.count <= 1)
    ensures ExtentsOk(r) && EndOf(r) == if e.count == 0 then EndOf(extents) else e.first + e.count
    ensures forall b: nat :: At(r, b) == if InExtent(e, b) then Some(MappingOf(e, b)) else At(extents, b)
    ensures Maximal(extents) ==> Maximal(r)
    ensures var last := if extents == [] then Extent(0, 0, e.mapping) else extents[|extents| - 1];
            var continues := extents != [] && last.first + last.count == e.first && last.mapping.Ssd? && e.mapping.Ssd? && last.mapping.base >= 0
                             && e.mapping.base == last.mapping.base + last.count * 32768 <= 0x7FFF_FFFF_FFFF_FFFF;
            |r| == if e.count == 0 || continues then |extents| else |extents| + 1
  {
    if e.count == 0 {
      return extents;
    }
    if extents != [] && Mergeable(extents[|extents| - 1], e.first, e.mapping) {
      var last := extents[|extents| - 1];
      r := extents[|extents| - 1 := last.(count := last.count + e.count)];
      MergedAt(extents, e, r);
    } else {
      r := extents + [e];
      AppendedAt(extents, e);
    }
  }

  lemma AppendedAt(extents: seq<Extent>, e: Extent)
    requires ExtentsOk(extents) && EndOf(extents) <= e.first && e.count > 0 && (e.mapping.Ssd? || e.count == 1)
    ensures ExtentsOk(extents + [e])
    ensures forall b: nat :: At(extents + [e], b) == if InExtent(e, b) then Some(MappingOf(e, b)) else At(extents, b)
  {
  }

  lemma MergeFacts(previous: Extent, e: Extent)
    requires Mergeable(previous, e.first, e.mapping)
    ensures previous.mapping.Ssd? && e.mapping == Ssd(previous.mapping.base + previous.count * 32768)
    ensures e.first == previous.first + previous.count
  {
  }

  lemma MergedAtBlock(extents: seq<Extent>, e: Extent, r: seq<Extent>, b: nat)
    requires extents != [] && Mergeable(extents[|extents| - 1], e.first, e.mapping)
    requires var last := extents[|extents| - 1]; r == extents[|extents| - 1 := last.(count := last.count + e.count)]
    ensures At(r, b) == if InExtent(e, b) then Some(MappingOf(e, b)) else At(extents, b)
  {
  }

  lemma MergedAt(extents: seq<Extent>, e: Extent, r: seq<Extent>)
    requires ExtentsOk(extents) && extents != [] && Mergeable(extents[|extents| - 1], e.first, e.mapping) && e.count > 0
    requires var last := extents[|extents| - 1]; r == extents[|extents| - 1 := last.(count := last.count + e.count)]
    ensures ExtentsOk(r) && EndOf(r) == e.first + e.count
    ensures forall b: nat :: At(r, b) == if InExtent(e, b) then Some(MappingOf(e, b)) else At(extents, b)
  {
    hide Mergeable, At;
    MergeFacts(extents[|extents| - 1], e);
    forall b: nat ensures At(r, b) == if InExtent(e, b) then Some(MappingOf(e, b)) else At(extents, b) {
      MergedAtBlock(extents, e, r, b);
    }
  }

  // ---- lookup ----

  /** Binary search for the last extent that starts at or before the block. */
  method Lookup(extents: seq<Extent>, b: nat) returns (r: Option<Block>)
    requires ExtentsOk(extents)
    ensures r == At(extents, b)
  {
    var lo, hi := 0, |extents|;
    while lo < hi
      invariant 0 <= lo <= hi <= |extents|
      invariant forall i :: 0 <= i < lo ==> extents[i].first <= b
      invariant forall i :: hi <= i < |extents| ==> b < extents[i].first
    {
      var mid := (lo + hi) / 2;
      if b < extents[mid].first {
        assert forall i :: mid <= i < |extents| ==> extents[mid].first <= extents[i].first;
        hi := mid;
      } else {
        assert forall i :: 0 <= i <= mid ==> extents[i].first <= extents[mid].first;
        lo := mid + 1;
      }
    }
    if lo == 0 {
      AtIsNone(extents, b);
      return None;
    }
    var e := extents[lo - 1];
    if b - e.first >= e.count {
      assert forall i :: 0 <= i < lo - 1 ==> extents[i].first + extents[i].count <= e.first;
      AtIsNone(extents, b);
      return None;
    }
    AtIs(extents, lo - 1, b);
    r := Some(MappingOf(e, b));
  }

  // ---- building a snapshot from the index ----

  function BlocksOf(size: nat): nat {
    (size + 32767) / 32768
  }

  /** The blocks of a file are those that start below its size. */
  lemma BlocksOfSize(size: nat, b: nat)
    ensures b < BlocksOf(size) <==> b * 32768 < size
    ensures BlocksOf(size) <= b <==> size <= b * 32768
  {
  }

  /** The snapshot shows exactly the blocks of the file, as the index has them. */
  ghost predicate Agrees(extents: seq<Extent>, blocks: seq<Block>, n: nat) {
    forall b: nat :: At(extents, b) == if b < n && b < |blocks| then Some(blocks[b]) else None
  }

  /** None is the error of a block that is not in the index. */
  method Build(blocks: seq<Block>, size: nat) returns (r: Option<Snapshot>)
    ensures r.Some? <==> size <= |blocks| * 32768
    ensures r.Some? ==> forall b: nat :: At(r.value.extents, b) == if b * 32768 < size then Some(blocks[b]) else None
    ensures r.Some? ==> r.value.size == size && ExtentsOk(r.value.extents) && Agrees(r.value.extents, blocks, BlocksOf(size))
    ensures r.Some? ==> Maximal(r.value.extents)
  {
    var extents: seq<Extent> := [];
    var b, count := 0, BlocksOf(size);
    while b < count
      invariant 0 <= b <= count && b <= |blocks|
      invariant ExtentsOk(extents) && EndOf(extents) <= b && Agrees(extents, blocks, b) && Maximal(extents)
    {
      if b >= |blocks| {
        return None;
      }
      extents := Append(extents, Extent(b, 1, blocks[b]));
      b := b + 1;
    }
    r := Some(Snapshot(size, extents));
  }

  // ---- updating a snapshot ----

  predicate InRange(first: nat, replacements: seq<Block>, b: nat) {
    first <= b < first + |replacements|
  }

  /** The block map after blocks `first..` have been replaced and the file has `n` blocks. */
  function UpdatedAt(extents: seq<Extent>, n: nat, first: nat, replacements: seq<Block>, b: nat): Option<Block> {
    if b >= n then None
    else if InRange(first, replacements, b) then Some(replacements[b - first])
    else At(extents, b)
  }

  method AppendClipped(out: seq<Extent>, e: Extent, n: nat) returns (r: seq<Extent>)
    requires ExtentsOk(out) && EndOf(out) <= e.first && e.count > 0 && (e.mapping.Ssd? || e.count == 1)
    ensures ExtentsOk(r) && EndOf(r) <= e.first + e.count
    ensures forall b: nat :: At(r, b) == if InExtent(e, b) && b < n then Some(MappingOf(e, b)) else At(out, b)
    ensures Maximal(out) ==> Maximal(r)
  {
    if e.first >= n {
      return out;
    }
    var count := if e.count < n - e.first then e.count else n - e.first;
    r := Append(out, e.(count := count));
  }

  method InsertReplacements(out: seq<Extent>, n: nat, first: nat, replacements: seq<Block>) returns (r: seq<Extent>)
    requires ExtentsOk(out) && EndOf(out) <= first
    ensures ExtentsOk(r) && EndOf(r) <= first + |replacements|
    ensures forall b: nat :: At(r, b) == if InRange(first, replacements, b) && b < n then Some(replacements[b - first]) else At(out, b)
    ensures Maximal(out) ==> Maximal(r)
  {
    hide At, Maximal;
    r := out;
    var i := 0;
    while i < |replacements|
      invariant 0 <= i <= |replacements| && ExtentsOk(r) && EndOf(r) <= first + i
      invariant forall b: nat :: At(r, b) == if first <= b < first + i && b < n then Some(replacements[b - first]) else At(out, b)
      invariant Maximal(out) ==> Maximal(r)
    {
      r := AppendClipped(r, Extent(first + i, 1, replacements[i]), n);
      i := i + 1;
    }
  }

  /** The part of the new snapshot that the first extents of the old one and, once inserted, the replacements give. */
  ghost predicate SoFar(out: seq<Extent>, done: seq<Extent>, n: nat, first: nat, replacements: seq<Block>, inserted: bool) {
    && ExtentsOk(out) && Maximal(out)
    && (replacements == [] ==> inserted)
    && (!inserted ==> EndOf(done) <= first)
    && (!inserted || replacements == [] ==> EndOf(out) <= EndOf(done))
    && (inserted ==> EndOf(out) <= first + |replacements| || EndOf(out) <= EndOf(done))
    && (inserted && replacements != [] ==> done == [] || EndOf(done) > first)
    && forall b: nat :: At(out, b) ==
         if b < n && InRange(first, replacements, b) then (if inserted then Some(replacements[b - first]) else None)
         else if b < n then At(done, b) else None
  }

  lemma ShiftTwice(mapping: Block, d: nat, e: nat)
    ensures Shifted(Shifted(mapping, d), e) == Shifted(mapping, d + e)
  {
  }

  /** Prefix and suffix of an extent cut by the replaced blocks. */
  method Cut(e: Extent, first: nat, end: nat) returns (prefix: Option<Extent>, suffix: Option<Extent>)
    requires e.first < end && first < e.first + e.count && first < end
    ensures prefix.Some? <==> e.first < first
    ensures suffix.Some? <==> e.first + e.count > end
    ensures prefix.Some? ==> prefix.value.first == e.first && prefix.value.count == first - e.first
    ensures suffix.Some? ==> suffix.value.first == end && suffix.value.count == e.first + e.count - end
    ensures prefix.Some? ==> prefix.value.mapping == e.mapping
    ensures suffix.Some? ==> (suffix.value.mapping.Ssd? <==> e.mapping.Ssd?)
    ensures forall b: nat :: prefix.Some? && InExtent(prefix.value, b) ==> InExtent(e, b) && MappingOf(prefix.value, b) == MappingOf(e, b)
    ensures forall b: nat :: suffix.Some? && InExtent(suffix.value, b) ==> InExtent(e, b) && MappingOf(suffix.value, b) == MappingOf(e, b)
  {
    prefix, suffix := None, None;
    if e.first < first {
      prefix := Some(e.(count := first - e.first));
    }
    if e.first + e.count > end {
      var delta := end - e.first;
      suffix := Some(Extent(end, e.first + e.count - end, Shifted(e.mapping, delta)));
      forall b: nat | InExtent(suffix.value, b) ensures MappingOf(suffix.value, b) == MappingOf(e, b) {
        ShiftTwice(e.mapping, delta, b - end);
      }
    }
  }

  lemma NextAt(done: seq<Extent>, e: Extent)
    requires ExtentsOk(done) && EndOf(done) <= e.first && e.count > 0 && (e.mapping.Ssd? || e.count == 1)
    ensures forall b: nat :: At(done + [e], b) == if InExtent(e, b) then Some(MappingOf(e, b)) else At(done, b)
    ensures forall b: nat :: b >= EndOf(done) ==> At(done, b) == None
    ensures EndOf(done + [e]) == e.first + e.count
  {
    hide ExtentsOk, At;
    AppendedAt(done, e);
    forall b: nat | b >= EndOf(done) ensures At(done, b) == None {
      NothingPastTheEnd(done, b);
    }
  }

  /** One turn of the loop: extent `e` of the old snapshot. */
  method Step(out: seq<Extent>, ghost done: seq<Extent>, e: Extent, n: nat, first: nat, replacements: seq<Block>, inserted: bool)
    returns (r: seq<Extent>, inserted': bool)
    requires SoFar(out, done, n, first, replacements, inserted)
    requires ExtentsOk(done) && EndOf(done) <= e.first && e.count > 0 && (e.mapping.Ssd? || e.count == 1)
    requires inserted && replacements != [] ==> done != []
    ensures SoFar(r, done + [e], n, first, replacements, inserted')
  {
    hide At, ExtentsOk, Maximal, MappingOf;
    NextAt(done, e);
    var end := first + |replacements|;
    r, inserted' := out, inserted;
    if replacements == [] || e.first + e.count <= first {
      r := AppendClipped(r, e, n);
      return;
    }
    var prefix, suffix := None, Some(e);
    if e.first < end {
      prefix, suffix := Cut(e, first, end);
    }
    if prefix.Some? {
      r := AppendClipped(r, prefix.value, n);
    }
    if !inserted {
      r := InsertReplacements(r, n, first, replacements);
      inserted' := true;
    }
    if suffix.Some? {
      r := AppendClipped(r, suffix.value, n);
    }
  }

  /** The new snapshot refines the update of the block map: replaced blocks, clipped to the new size, the rest kept. */
  method Update(current: Snapshot, newSize: nat, first: nat, replacements: seq<Block>) returns (updated: Snapshot)
    requires ExtentsOk(current.extents)
    ensures updated.size == newSize && ExtentsOk(updated.extents) && Maximal(updated.extents)
    ensures forall b: nat :: At(updated.extents, b) == UpdatedAt(current.extents, BlocksOf(newSize), first, replacements, b)
    ensures forall b: nat :: At(updated.extents, b) ==
              if b * 32768 >= newSize then None
              else if first <= b < first + |replacements| then Some(replacements[b - first])
              else At(current.extents, b)
  {
    hide At;
    var n, extents := BlocksOf(newSize), current.extents;
    var out: seq<Extent>, inserted := [], replacements == [];
    EmptyAt();
    var i := 0;
    while i < |extents|
      invariant 0 <= i <= |extents| && SoFar(out, extents[..i], n, first, replacements, inserted)
      invariant inserted && replacements != [] ==> i > 0
    {
      assert ExtentsOk(extents[..i]) && EndOf(extents[..i]) <= extents[i].first;
      out, inserted := Step(out, extents[..i], extents[i], n, first, replacements, inserted);
      assert extents[..i + 1] == extents[..i] + [extents[i]];
      i := i + 1;
    }
    assert extents[..i] == extents;
    if !inserted {
      out := InsertReplacements(out, n, first, replacements);
    }
    updated := Snapshot(newSize, out);
  }

  // ---- one snapshot per block map ----

  /** Device offsets are not negative and fit in 64 bits. */
  ghost predicate Addressable(extents: seq<Extent>) {
    forall b: nat :: At(extents, b).Some? && At(extents, b).value.Ssd? ==> 0 <= At(extents, b).value.base <= MAX_I64
  }

  ghost predicate SameMap(xs: seq<Extent>, ys: seq<Extent>) {
    forall b: nat :: At(xs, b) == At(ys, b)
  }

  lemma LastIs(extents: seq<Extent>, b: nat)
    requires ExtentsOk(extents) && extents != [] && InExtent(extents[|extents| - 1], b)
    ensures At(extents, b) == Some(MappingOf(extents[|extents| - 1], b))
  {
  }

  lemma SameEnd(xs: seq<Extent>, ys: seq<Extent>)
    requires ExtentsOk(xs) && ExtentsOk(ys) && SameMap(xs, ys)
    ensures EndOf(xs) <= EndOf(ys) && (xs == [] ==> ys == [])
  {
    hide At;
    if xs != [] {
      LastIs(xs, EndOf(xs) - 1);
      if EndOf(ys) < EndOf(xs) {
        NothingPastTheEnd(ys, EndOf(xs) - 1);
      }
    } else if ys != [] {
      LastIs(ys, EndOf(ys) - 1);
      EmptyAt();
    }
  }

  /** A longer last run on one side makes the last two runs on the other side mergeable. */
  lemma Continues(x: Extent, p: Extent, y: Extent)
    requires x.count > 1 && x.mapping.Ssd? && p.count > 0 && y.count > 0
    requires x.first < y.first == p.first + p.count && y.first < x.first + x.count
    requires MappingOf(x, y.first - 1) == MappingOf(p, y.first - 1) && MappingOf(x, y.first) == MappingOf(y, y.first)
    requires p.mapping.Ssd? && y.mapping.Ssd? ==> 0 <= p.mapping.base && 0 <= y.mapping.base <= MAX_I64
    ensures Mergeable(p, y.first, y.mapping)
  {
  }

  /** The last run of a maximal list starts no later than that of any list for the same block map. */
  lemma LastStarts(xs: seq<Extent>, ys: seq<Extent>)
    requires ExtentsOk(xs) && ExtentsOk(ys) && SameMap(xs, ys) && Maximal(ys) && Addressable(ys)
    requires xs != [] && ys != [] && EndOf(xs) == EndOf(ys)
    ensures ys[|ys| - 1].first <= xs[|xs| - 1].first
  {
    hide Mergeable, MappingOf;
    var x, y := xs[|xs| - 1], ys[|ys| - 1];
    if x.first < y.first {
      var before, c := ys[..|ys| - 1], y.first - 1;
      LastIs(xs, c);
      LastIs(xs, y.first);
      LastIs(ys, y.first);
      assert At(ys, c) == At(before, c);
      if EndOf(before) <= c {
        NothingPastTheEnd(before, c);
      }
      var p := ys[|ys| - 2];
      LastIs(before, c);
      AtIs(ys, |ys| - 2, p.first);
      OwnBase(p);
      OwnBase(y);
      assert At(ys, p.first) == Some(p.mapping) && At(ys, y.first) == Some(y.mapping);
      Continues(x, p, y);
    }
  }

  lemma OwnBase(e: Extent)
    requires e.count > 0
    ensures MappingOf(e, e.first) == e.mapping
  {
  }

  /** Taking the common last run off leaves lists for the same block map. */
  lemma SameFronts(xs: seq<Extent>, ys: seq<Extent>, b: nat)
    requires ExtentsOk(xs) && ExtentsOk(ys) && SameMap(xs, ys) && xs != [] && ys != []
    requires xs[|xs| - 1].first == ys[|ys| - 1].first && EndOf(xs) == EndOf(ys)
    ensures At(xs[..|xs| - 1], b) == At(ys[..|ys| - 1], b)
    ensures At(ys[..|ys| - 1], b).Some? ==> At(ys[..|ys| - 1], b) == At(ys, b)
  {
    if b >= xs[|xs| - 1].first {
      NothingPastTheEnd(xs[..|xs| - 1], b);
      NothingPastTheEnd(ys[..|ys| - 1], b);
    } else {
      assert At(xs, b) == At(xs[..|xs| - 1], b) && At(ys, b) == At(ys[..|ys| - 1], b);
    }
  }

  lemma FrontIsCanonical(xs: seq<Extent>, ys: seq<Extent>)
    requires ExtentsOk(xs) && ExtentsOk(ys) && Maximal(xs) && SameMap(xs, ys) && Addressable(xs) && xs != [] && ys != []
    requires xs[|xs| - 1].first == ys[|ys| - 1].first && EndOf(xs) == EndOf(ys)
    ensures var fx, fy := xs[..|xs| - 1], ys[..|ys| - 1];
            ExtentsOk(fx) && Maximal(fx) && Addressable(fx) && SameMap(fx, fy)
  {
    hide At, Mergeable, MappingOf;
    var fx, fy := xs[..|xs| - 1], ys[..|ys| - 1];
    SameMapBack(xs, ys);
    forall b: nat ensures At(fx, b) == At(fy, b) && (At(fx, b).Some? ==> At(fx, b) == At(xs, b)) {
      SameFronts(ys, xs, b);
    }
  }

  lemma SameLast(xs: seq<Extent>, ys: seq<Extent>)
    requires ExtentsOk(xs) && ExtentsOk(ys) && SameMap(xs, ys) && xs != [] && ys != []
    requires xs[|xs| - 1].first == ys[|ys| - 1].first && EndOf(xs) == EndOf(ys)
    ensures xs[|xs| - 1] == ys[|ys| - 1]
  {
    hide At, MappingOf;
    LastIs(xs, xs[|xs| - 1].first);
    LastIs(ys, ys[|ys| - 1].first);
    OwnBase(xs[|xs| - 1]);
    OwnBase(ys[|ys| - 1]);
  }

  /** The extents are a canonical form: two maximal lists for the same block map are the same list. */
  lemma {:induction false} CanonicalIsUnique(xs: seq<Extent>, ys: seq<Extent>)
    requires ExtentsOk(xs) && ExtentsOk(ys) && Maximal(xs) && Maximal(ys)
    requires SameMap(xs, ys) && Addressable(xs) && Addressable(ys)
    ensures xs == ys
    decreases |xs|
  {
    hide ExtentsOk, Maximal, SameMap, Addressable, EndOf;
    SameMapBack(xs, ys);
    SameEnd(xs, ys);
    SameEnd(ys, xs);
    if xs != [] {
      LastStarts(xs, ys);
      LastStarts(ys, xs);
      SameLast(xs, ys);
      FrontIsCanonical(xs, ys);
      FrontIsCanonical(ys, xs);
      CanonicalIsUnique(xs[..|xs| - 1], ys[..|ys| - 1]);
      assert xs == xs[..|xs| - 1] + [xs[|xs| - 1]] && ys == ys[..|ys| - 1] + [ys[|ys| - 1]];
    }
  }

  lemma SameMapBack(xs: seq<Extent>, ys: seq<Extent>)
    requires SameMap(xs, ys)
    ensures SameMap(ys, xs)
  {
  }

  /** Updating a snapshot gives the very snapshot that rebuilding it from the new index gives. */
  lemma UpdateIsRebuild(updated: Snapshot, rebuilt: Snapshot, before: seq<Extent>, first: nat, replacements: seq<Block>, blocks: seq<Block>)
    requires updated.size == rebuilt.size && BlocksOf(rebuilt.size) <= |blocks|
    requires ExtentsOk(updated.extents) && Maximal(updated.extents) && ExtentsOk(rebuilt.extents) && Maximal(rebuilt.extents)
    requires forall b: nat :: At(updated.extents, b) == UpdatedAt(before, BlocksOf(updated.size), first, replacements, b)
    requires Agrees(rebuilt.extents, blocks, BlocksOf(rebuilt.size))
    requires forall b: nat :: b < BlocksOf(rebuilt.size) ==>
               UpdatedAt(before, BlocksOf(rebuilt.size), first, replacements, b) == Some(blocks[b])
    requires forall b: nat :: b < |blocks| && blocks[b].Ssd? ==> 0 <= blocks[b].base <= MAX_I64
    ensures updated == rebuilt
  {
    hide At, ExtentsOk, Maximal;
    CanonicalIsUnique(updated.extents, rebuilt.extents);
  }

  lemma EmptyAt()
    ensures forall b: nat :: At([], b) == None
  {
  }
}
