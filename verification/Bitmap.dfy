/** The sharded bitmap allocator: nothing handed out twice, nothing lost, full only when it is full. */
module Bitmap {
  import opened Arithmetic
  import opened Media

  // ---- bits in bytes, most significant first ----

  function Mask(k: nat): (m: bv8)
    requires k < 8
    ensures m != 0
  {
    if k == 0 then 0x80 else if k == 1 then 0x40 else if k == 2 then 0x20 else if k == 3 then 0x10
    else if k == 4 then 0x08 else if k == 5 then 0x04 else if k == 6 then 0x02 else 0x01
  }

  predicate Bit(bytes: seq<bv8>, b: nat)
    requires b < |bytes| * 8
  {
    bytes[b / 8] & Mask(b % 8) != 0
  }

  function WithBit(bytes: seq<bv8>, b: nat): (r: seq<bv8>)
    requires b < |bytes| * 8
    ensures |r| == |bytes|
  {
    bytes[b / 8 := bytes[b / 8] | Mask(b % 8)]
  }

  function WithoutBit(bytes: seq<bv8>, b: nat): (r: seq<bv8>)
    requires b < |bytes| * 8
    ensures |r| == |bytes|
  {
    bytes[b / 8 := bytes[b / 8] & !Mask(b % 8)]
  }

  /** Setting or clearing a bit touches that bit alone. */
  lemma BitChanges(bytes: seq<bv8>, b: nat, c: nat)
    requires b < |bytes| * 8 && c < |bytes| * 8
    ensures Bit(WithBit(bytes, b), c) == (c == b || Bit(bytes, c))
    ensures Bit(WithoutBit(bytes, b), c) == (c != b && Bit(bytes, c))
  {
  }

  /** Clearing a bit that was just set where it was clear gives back the same bytes. */
  lemma ClearUndoesSet(bytes: seq<bv8>, b: nat)
    requires b < |bytes| * 8 && !Bit(bytes, b)
    ensures WithoutBit(WithBit(bytes, b), b) == bytes
  {
  }

  function CountBits(bytes: seq<bv8>, n: nat): (count: nat)
    requires n <= |bytes| * 8
    ensures count <= n
  {
    if n == 0 then 0 else CountBits(bytes, n - 1) + if Bit(bytes, n - 1) then 1 else 0
  }

  lemma {:induction false} CountChanges(bytes: seq<bv8>, b: nat, n: nat)
    requires b < |bytes| * 8 && n <= |bytes| * 8
    ensures !Bit(bytes, b) ==> CountBits(WithBit(bytes, b), n) == CountBits(bytes, n) + if b < n then 1 else 0
    ensures Bit(bytes, b) ==> CountBits(WithoutBit(bytes, b), n) == CountBits(bytes, n) - if b < n then 1 else 0
  {
    hide Bit, WithBit, WithoutBit;
    if n > 0 {
      CountChanges(bytes, b, n - 1);
      BitChanges(bytes, b, n - 1);
    }
  }

  lemma {:induction false} FullCount(bytes: seq<bv8>, n: nat)
    requires n <= |bytes| * 8 && forall b :: 0 <= b < n ==> Bit(bytes, b)
    ensures CountBits(bytes, n) == n
  {
    hide Bit;
    if n > 0 {
      FullCount(bytes, n - 1);
    }
  }

  /** The bits of `list` set one after the other. */
  function WithAll(bytes: seq<bv8>, list: seq<nat>): (r: seq<bv8>)
    requires forall i :: 0 <= i < |list| ==> list[i] < |bytes| * 8
    ensures |r| == |bytes|
  {
    if list == [] then bytes else WithBit(WithAll(bytes, list[..|list| - 1]), list[|list| - 1])
  }

  lemma {:induction false} AllChanges(bytes: seq<bv8>, list: seq<nat>, c: nat)
    requires (forall i :: 0 <= i < |list| ==> list[i] < |bytes| * 8) && c < |bytes| * 8
    ensures Bit(WithAll(bytes, list), c) == (c in list || Bit(bytes, c))
  {
    hide Bit, WithBit;
    if list != [] {
      AllChanges(bytes, list[..|list| - 1], c);
      BitChanges(WithAll(bytes, list[..|list| - 1]), list[|list| - 1], c);
      assert list == list[..|list| - 1] + [list[|list| - 1]];
    }
  }

  // ---- changes persisted one by one ----

  datatype Change = Change(bit: nat, taken: bool)

  /** The durable bitmap after the changes, each a read and a write of the byte its bit is in. */
  function Persisted(bytes: seq<bv8>, changes: seq<Change>): (r: seq<bv8>)
    requires forall i :: 0 <= i < |changes| ==> changes[i].bit < |bytes| * 8
    ensures |r| == |bytes|
  {
    if changes == [] then bytes
    else
      var c, before := changes[|changes| - 1], Persisted(bytes, changes[..|changes| - 1]);
      if c.taken then WithBit(before, c.bit) else WithoutBit(before, c.bit)
  }

  /** What the last change of a bit says, or what it was: bits that share a byte do not disturb each other. */
  function LastSaid(bytes: seq<bv8>, changes: seq<Change>, b: nat): bool
    requires b < |bytes| * 8
  {
    if changes == [] then Bit(bytes, b)
    else if changes[|changes| - 1].bit == b then changes[|changes| - 1].taken
    else LastSaid(bytes, changes[..|changes| - 1], b)
  }

  lemma {:induction false} PersistedIsLastSaid(bytes: seq<bv8>, changes: seq<Change>, b: nat)
    requires (forall i :: 0 <= i < |changes| ==> changes[i].bit < |bytes| * 8) && b < |bytes| * 8
    ensures Bit(Persisted(bytes, changes), b) == LastSaid(bytes, changes, b)
  {
    hide Bit, WithBit, WithoutBit;
    if changes != [] {
      var front := changes[..|changes| - 1];
      PersistedIsLastSaid(bytes, front, b);
      BitChanges(Persisted(bytes, front), changes[|changes| - 1].bit, b);
    }
  }

  /** Two bitmaps agree after the same changes on every bit that was changed or was the same. */
  lemma {:induction false} ReplayedAgree(a: seq<bv8>, b: seq<bv8>, changes: seq<Change>, c: nat)
    requires |a| == |b| && (forall i :: 0 <= i < |changes| ==> changes[i].bit < |a| * 8) && c < |a| * 8
    requires (exists i :: 0 <= i < |changes| && changes[i].bit == c) || Bit(a, c) == Bit(b, c)
    ensures LastSaid(a, changes, c) == LastSaid(b, changes, c)
    decreases |changes|
  {
    if changes != [] && changes[|changes| - 1].bit != c {
      var front := changes[..|changes| - 1];
      if i :| 0 <= i < |changes| && changes[i].bit == c {
        assert front[i].bit == c;
      }
      ReplayedAgree(a, b, front, c);
    }
  }

  // ---- recovery ----

  /** How many of the first `k` bits of a byte are set. */
  function Ones(byte: bv8, k: nat): nat
    requires k <= 8
  {
    if k == 0 then 0 else Ones(byte, k - 1) + if byte & Mask(k - 1) != 0 then 1 else 0
  }

  lemma BitOfByte(bytes: seq<bv8>, i: nat, k: nat)
    requires i < |bytes| && k < 8
    ensures Bit(bytes, i * 8 + k) <==> bytes[i] & Mask(k) != 0
  {
    assert (i * 8 + k) / 8 == i && (i * 8 + k) % 8 == k;
  }

  lemma {:induction false} CountByte(bytes: seq<bv8>, i: nat, k: nat)
    requires i < |bytes| && k <= 8
    ensures CountBits(bytes, i * 8 + k) == CountBits(bytes, i * 8) + Ones(bytes[i], k)
  {
    hide Bit, Mask;
    if k > 0 {
      CountByte(bytes, i, k - 1);
      BitOfByte(bytes, i, k - 1);
    }
  }

  /** A bitmap in memory and on the device, with its counter. */
  class Images {
    var memory: seq<bv8>
    var durable: seq<bv8>
    var used: nat

    constructor (loaded: seq<bv8>, count: nat)
      ensures memory == loaded && durable == loaded && used == count
    {
      memory, durable, used := loaded, loaded, count;
    }

    method PersistChange(block: int, taken: bool) returns (ok: bool)
      requires |memory| == |durable|
      modifies this`durable
      ensures ok <==> 0 <= block < |old(durable)| * 8
      ensures durable == if ok then Persisted(old(durable), [Change(block, taken)]) else old(durable)
    {
      if block < 0 || block >= |durable| * 8 {
        return false;
      }
      assert [Change(block, taken)][..0] == [];
      durable := if taken then WithBit(durable, block) else WithoutBit(durable, block);
      ok := true;
    }

    /** During recovery a change goes into both. */
    method ReplayChange(block: int, taken: bool) returns (ok: bool)
      requires |memory| == |durable|
      modifies this`memory, this`durable
      ensures ok <==> 0 <= block < |old(memory)| * 8
      ensures memory == if ok then Persisted(old(memory), [Change(block, taken)]) else old(memory)
      ensures durable == if ok then Persisted(old(durable), [Change(block, taken)]) else old(durable)
    {
      if block < 0 || block >= |memory| * 8 {
        return false;
      }
      assert [Change(block, taken)][..0] == [];
      memory := if taken then WithBit(memory, block) else WithoutBit(memory, block);
      ok := PersistChange(block, taken);
    }

    /** The counter is counted anew, byte by byte. */
    method RecomputeCount()
      modifies this`used
      ensures used == CountBits(memory, |memory| * 8)
    {
      hide Bit, Ones;
      var count, offset := 0, 0;
      while offset < |memory|
        invariant 0 <= offset <= |memory| && count == CountBits(memory, offset * 8)
      {
        CountByte(memory, offset, 8);
        count := count + Ones(memory[offset], 8);
        offset := offset + 1;
      }
      used := count;
    }

    /** The changes of the journal replayed up to the first bad one: in memory and on the device every bit that was changed is
        what its last change said, and the counter is right again. */
    method Replay(changes: seq<Change>) returns (ok: bool)
      requires |memory| == |durable|
      modifies this
      ensures |memory| == |durable| == |old(memory)|
      ensures ok <==> forall i :: 0 <= i < |changes| ==> changes[i].bit < |old(memory)| * 8
      ensures ok ==> used == CountBits(memory, |memory| * 8)
      ensures old(memory) == old(durable) ==> memory == durable
      ensures ok ==> forall b :: 0 <= b < |memory| * 8 ==>
                Bit(memory, b) == LastSaid(old(memory), changes, b) && Bit(durable, b) == LastSaid(old(durable), changes, b)
    {
      hide Bit, WithBit, WithoutBit, CountBits, LastSaid;
      var k := 0;
      while k < |changes|
        invariant 0 <= k <= |changes| && |memory| == |durable| == |old(memory)|
        invariant forall i :: 0 <= i < k ==> changes[i].bit < |old(memory)| * 8
        invariant memory == Persisted(old(memory), changes[..k]) && durable == Persisted(old(durable), changes[..k])
      {
        ok := ReplayChange(changes[k].bit, changes[k].taken);
        if !ok {
          return;
        }
        PersistedOneMore(old(memory), changes, k);
        PersistedOneMore(old(durable), changes, k);
        k := k + 1;
      }
      assert changes[..k] == changes;
      RecomputeCount();
      forall b | 0 <= b < |memory| * 8
        ensures Bit(memory, b) == LastSaid(old(memory), changes, b) && Bit(durable, b) == LastSaid(old(durable), changes, b)
      {
        PersistedIsLastSaid(old(memory), changes, b);
        PersistedIsLastSaid(old(durable), changes, b);
      }
      ok := true;
    }

    /** The next used bit after `after`, or -1 if there is none. */
    method NextAllocated(after: int) returns (r: int)
      requires after >= -1
      ensures r == -1 || (after < r < |memory| * 8 && Bit(memory, r))
      ensures forall b :: after < b < (if r == -1 then |memory| * 8 else r) ==> !Bit(memory, b)
    {
      var bit := after + 1;
      while bit < |memory| * 8
        invariant after < bit && (bit <= |memory| * 8 || bit == after + 1)
        invariant forall b :: after < b < bit && b < |memory| * 8 ==> !Bit(memory, b)
      {
        if Bit(memory, bit) {
          return bit;
        }
        bit := bit + 1;
      }
      r := -1;
    }
  }

  lemma PersistedOneMore(bytes: seq<bv8>, changes: seq<Change>, k: nat)
    requires k < |changes| && forall i :: 0 <= i <= k ==> changes[i].bit < |bytes| * 8
    ensures Persisted(bytes, changes[..k + 1]) == Persisted(Persisted(bytes, changes[..k]), [changes[k]])
  {
    assert changes[..k + 1][..k] == changes[..k] && [changes[k]][..0] == [];
  }

  // ---- shards ----

  /** Bounds of the worker's own part of the bitmap. */
  lemma ShardBounds(total: nat, worker: nat, shards: nat)
    requires worker < shards
    ensures 0 <= total * worker / shards <= total * (worker + 1) / shards <= total
  {
    ProductLe(total, worker, worker + 1);
    ProductLe(total, worker + 1, shards);
    QuotientMonotone(total * worker, total * (worker + 1), shards);
    QuotientBound(total * (worker + 1), total, shards);
  }

  function ShardFirst(total: nat, worker: nat, shards: nat): nat
    requires shards > 0
  {
    total * worker / shards
  }

  lemma ShardsAscend(total: nat, v: nat, w: nat, shards: nat)
    requires shards > 0 && v <= w
    ensures ShardFirst(total, v, shards) <= ShardFirst(total, w, shards)
  {
    ProductLe(total, v, w);
    QuotientMonotone(total * v, total * w, shards);
  }

  lemma ShardEnds(total: nat, shards: nat)
    requires shards > 0
    ensures ShardFirst(total, 0, shards) == 0 && ShardFirst(total, shards, shards) == total
  {
    RestOfSum(total, 0, shards);
    QuotientRest(total * shards, shards);
    var d := total * shards / shards - total;
    assert d * shards == (total * shards / shards) * shards - total * shards;
    SmallMultiple(d, shards);
  }

  predicate InShard(total: nat, w: nat, shards: nat, b: nat)
    requires shards > 0
  {
    ShardFirst(total, w, shards) <= b < ShardFirst(total, w + 1, shards)
  }

  /** Every bit lies in exactly one shard. */
  lemma ShardsTile(total: nat, shards: nat, b: nat) returns (w: nat)
    requires shards > 0 && b < total
    ensures w < shards && InShard(total, w, shards, b)
    ensures forall v :: 0 <= v < shards && InShard(total, v, shards, b) ==> v == w
  {
    hide ShardFirst;
    ShardEnds(total, shards);
    w := 0;
    while ShardFirst(total, w + 1, shards) <= b
      invariant w < shards && ShardFirst(total, w, shards) <= b
      decreases shards - w
    {
      w := w + 1;
    }
    forall v | 0 <= v < shards && InShard(total, v, shards, b) ensures v == w {
      if v < w {
        ShardsAscend(total, v + 1, w, shards);
      } else if w < v {
        ShardsAscend(total, w + 1, v, shards);
      }
    }
  }

  /** Position `j` of a scan that starts anywhere and goes round. */
  function RoundBit(base: nat, start: nat, n: nat, j: nat): nat
    requires n > 0
  {
    base + (start + j) % n
  }

  ghost predicate TakenRound(bytes: seq<bv8>, base: nat, start: nat, n: nat, i: nat)
    requires n > 0
  {
    forall j :: 0 <= j < i ==> RoundBit(base, start, n, j) < |bytes| * 8 && Bit(bytes, RoundBit(base, start, n, j))
  }

  lemma OwnTaken(bytes: seq<bv8>, begin: nat, start: nat, span: nat)
    requires span > 0 && TakenRound(bytes, begin, start, span, span) && begin + span <= |bytes| * 8
    ensures forall b :: begin <= b < begin + span ==> Bit(bytes, b)
  {
    hide Bit;
    forall b | begin <= b < begin + span ensures Bit(bytes, b) {
      var j := RoundReaches(start, span, b - begin);
      assert RoundBit(begin, start, span, j) == b;
    }
  }

  ghost predicate TakenElsewhere(bytes: seq<bv8>, begin: nat, end: nat, total: nat, i: nat)
    requires total > 0
  {
    forall j :: 0 <= j < i ==>
      && RoundBit(0, end, total, j) < |bytes| * 8
      && (begin <= RoundBit(0, end, total, j) < end || Bit(bytes, RoundBit(0, end, total, j)))
  }

  lemma AllTaken(bytes: seq<bv8>, begin: nat, end: nat, total: nat)
    requires total == |bytes| * 8 && total > 0 && begin <= end <= total && TakenElsewhere(bytes, begin, end, total, total)
    requires forall b :: begin <= b < end ==> Bit(bytes, b)
    ensures forall b :: 0 <= b < total ==> Bit(bytes, b)
  {
    hide Bit;
    forall b | 0 <= b < total ensures Bit(bytes, b) {
      var j := RoundReaches(end, total, b);
      assert RoundBit(0, end, total, j) == b;
    }
  }

  /** A round visits no position twice. */
  lemma RoundVisitsOnce(base: nat, start: nat, n: nat, i: nat, j: nat)
    requires i < j < n
    ensures RoundBit(base, start, n, i) != RoundBit(base, start, n, j)
  {
    RestsDiffer(start + i, start + j, n);
    RestIsRemainder(start + i, n);
    RestIsRemainder(start + j, n);
  }

  lemma RoundBitBelow(base: nat, start: nat, n: nat, j: nat)
    requires n > 0
    ensures base <= RoundBit(base, start, n, j) < base + n
  {
  }

  // ---- the allocator ----

  class Allocator {
    var bytes: seq<bv8>
    var used: nat
    var cursors: seq<nat>

    ghost predicate Valid()
      reads this
    {
      cursors != [] && used == CountBits(bytes, |bytes| * 8)
    }

    method Claim(b: nat) returns (ok: bool)
      requires Valid() && b < |bytes| * 8
      modifies this
      ensures Valid() && cursors == old(cursors) && (ok <==> !Bit(old(bytes), b))
      ensures bytes == if ok then WithBit(old(bytes), b) else old(bytes)
      ensures used == if ok then old(used) + 1 else old(used)
    {
      if Bit(bytes, b) {
        return false;
      }
      CountChanges(bytes, b, |bytes| * 8);
      bytes := WithBit(bytes, b);
      used := used + 1;
      ok := true;
    }

    /** The first clear bit of the worker's own shard, from its cursor on. */
    method ScanOwn(begin: nat, start: nat, span: nat) returns (r: Option<nat>)
      requires Valid() && begin + span <= |bytes| * 8
      modifies this
      ensures Valid()
      ensures r.Some? ==> r.value < |old(bytes)| * 8 && !Bit(old(bytes), r.value) && bytes == WithBit(old(bytes), r.value) && used == old(used) + 1
      ensures r.None? ==> bytes == old(bytes) && used == old(used) && forall b :: begin <= b < begin + span ==> Bit(bytes, b)
    {
      hide CountBits, Bit, WithBit, RoundBit;
      var i := 0;
      while i < span
        invariant 0 <= i <= span && bytes == old(bytes) && used == old(used) && Valid()
        invariant span > 0 ==> TakenRound(bytes, begin, start, span, i)
      {
        var b := RoundBit(begin, start, span, i);
        RoundBitBelow(begin, start, span, i);
        var ok := Claim(b);
        if ok {
          return Some(b);
        }
        i := i + 1;
      }
      if span > 0 {
        OwnTaken(bytes, begin, start, span);
      }
      r := None;
    }

    /** The first clear bit of any other shard. */
    method ScanOthers(begin: nat, end: nat) returns (r: Option<nat>)
      requires Valid() && begin <= end <= |bytes| * 8 && forall b :: begin <= b < end ==> Bit(bytes, b)
      modifies this
      ensures Valid()
      ensures r.Some? ==> r.value < |old(bytes)| * 8 && !Bit(old(bytes), r.value) && bytes == WithBit(old(bytes), r.value) && used == old(used) + 1
      ensures r.None? ==> bytes == old(bytes) && used == old(used) && forall b :: 0 <= b < |bytes| * 8 ==> Bit(bytes, b)
    {
      hide CountBits, Bit, WithBit, RoundBit;
      var total, i := |bytes| * 8, 0;
      while i < total
        invariant 0 <= i <= total && bytes == old(bytes) && used == old(used) && Valid()
        invariant total > 0 ==> TakenElsewhere(bytes, begin, end, total, i)
      {
        var b := RoundBit(0, end, total, i);
        RoundBitBelow(0, end, total, i);
        if !(begin <= b < end) {
          var ok := Claim(b);
          if ok {
            return Some(b);
          }
        }
        i := i + 1;
      }
      if total > 0 {
        AllTaken(bytes, begin, end, total);
      }
      r := None;
    }

    /** None is ENOSPC: every bit is taken. */
    method AllocateOne(worker: nat) returns (r: Option<nat>)
      requires Valid()
      modifies this
      ensures Valid()
      ensures r.Some? ==> r.value < |old(bytes)| * 8 && !Bit(old(bytes), r.value) && bytes == WithBit(old(bytes), r.value) && used == old(used) + 1
      ensures r.None? ==> bytes == old(bytes) && used == old(used) && used == |bytes| * 8
    {
      hide CountBits, Bit, WithBit;
      var total, shards := |bytes| * 8, |cursors|;
      var own := worker % shards;
      ShardBounds(total, own, shards);
      var begin, end := total * own / shards, total * (own + 1) / shards;
      var start := cursors[own];
      cursors := cursors[own := start + 1];
      r := ScanOwn(begin, start, end - begin);
      if r.None? {
        r := ScanOthers(begin, end);
        if r.None? {
          FullCount(bytes, total);
        }
      }
    }

    /** 0, 4 for an address out of range, 6 for a bit that is not set. */
    method Dealloc(b: int) returns (code: nat)
      requires Valid()
      modifies this
      ensures Valid() && cursors == old(cursors) && |bytes| == |old(bytes)|
      ensures code == if b < 0 || b >= |old(bytes)| * 8 then 4 else if Bit(old(bytes), b) then 0 else 6
      ensures bytes == if code == 0 then WithoutBit(old(bytes), b) else old(bytes)
      ensures used == if code == 0 then old(used) - 1 else old(used)
    {
      if b < 0 || b >= |bytes| * 8 {
        return 4;
      }
      if !Bit(bytes, b) {
        return 6;
      }
      CountChanges(bytes, b, |bytes| * 8);
      bytes := WithoutBit(bytes, b);
      used := used - 1;
      code := 0;
    }

    /** All of `n` or none: None is ENOSPC, with every bit claimed on the way given back. */
    method Alloc(n: nat, worker: nat) returns (r: Option<seq<nat>>)
      requires Valid()
      modifies this
      ensures Valid()
      ensures r.Some? <==> n <= |old(bytes)| * 8 - old(used)
      ensures r.None? ==> bytes == old(bytes)
      ensures r.Some? ==> |r.value| == n && Allotted(old(bytes), r.value) && bytes == WithAll(old(bytes), r.value)
    {
      hide CountBits, Bit, WithBit;
      var list: seq<nat> := [];
      while |list| < n
        invariant |list| <= n && Valid() && Allotted(old(bytes), list)
        invariant bytes == WithAll(old(bytes), list) && used == old(used) + |list|
        decreases n - |list|
      {
        var b := AllocateOne(worker);
        if b.None? {
          GiveBack(list, old(bytes));
          return None;
        }
        MoreAllotted(old(bytes), list, b.value);
        list := list + [b.value];
      }
      CountBound(bytes);
      r := Some(list);
    }

    /** The bits claimed last go back first. */
    method GiveBack(list: seq<nat>, ghost before: seq<bv8>)
      requires Valid() && Allotted(before, list) && bytes == WithAll(before, list)
      modifies this
      ensures Valid() && bytes == before && used == old(used) - |list|
    {
      hide CountBits, Bit, WithBit, WithoutBit;
      var k := |list|;
      assert list[..k] == list;
      while k > 0
        invariant 0 <= k <= |list| && Valid() && Allotted(before, list[..k])
        invariant bytes == WithAll(before, list[..k]) && used == old(used) - (|list| - k)
      {
        k := k - 1;
        LastAllotted(before, list[..k + 1]);
        assert list[..k + 1][..k] == list[..k];
        var code := Dealloc(list[k]);
      }
    }
  }

  /** The bits of `list` are different bits that were all clear. */
  ghost predicate Allotted(bytes: seq<bv8>, list: seq<nat>) {
    && (forall i :: 0 <= i < |list| ==> list[i] < |bytes| * 8 && !Bit(bytes, list[i]))
    && (forall i, j :: 0 <= i < j < |list| ==> list[i] != list[j])
  }

  lemma MoreAllotted(bytes: seq<bv8>, list: seq<nat>, b: nat)
    requires Allotted(bytes, list) && b < |bytes| * 8 && !Bit(WithAll(bytes, list), b)
    ensures Allotted(bytes, list + [b]) && WithAll(bytes, list + [b]) == WithBit(WithAll(bytes, list), b)
  {
    hide Bit, WithBit;
    AllChanges(bytes, list, b);
    assert (list + [b])[..|list|] == list;
  }

  lemma LastAllotted(bytes: seq<bv8>, list: seq<nat>)
    requires Allotted(bytes, list) && list != []
    ensures var front, b := list[..|list| - 1], list[|list| - 1];
            && Allotted(bytes, front) && Bit(WithAll(bytes, list), b)
            && WithoutBit(WithAll(bytes, list), b) == WithAll(bytes, front)
  {
    hide Bit, WithBit, WithoutBit;
    var front, b := list[..|list| - 1], list[|list| - 1];
    AllChanges(bytes, list, b);
    AllChanges(bytes, front, b);
    assert b !in front;
    ClearUndoesSet(WithAll(bytes, front), b);
  }

  lemma CountBound(bytes: seq<bv8>)
    ensures CountBits(bytes, |bytes| * 8) <= |bytes| * 8
  {
  }
}
