/** The read path: blocks are copied from PMEM, from the SSD, or from an SSD block with its overlay laid over it. */
module FileReader {
  import opened Media
  import opened Layout
  import opened WritePlan
  import opened PlanBuilder

  ghost predicate ByteShown(s: seq<byte>, i: int, b: Block, tables: map<int, Table>, ssd: seq<byte>, pmem: seq<byte>, inside: nat)
    requires BlockOk(b, tables, |ssd|, |pmem|) && 0 <= i < |s|
  {
    Readable(b, inside + i) && s[i] == BlockByte(b, tables, ssd, pmem, inside + i)
  }

  /** `s` is what the block holds from byte `inside` on. */
  ghost predicate Shows(s: seq<byte>, b: Block, tables: map<int, Table>, ssd: seq<byte>, pmem: seq<byte>, inside: nat)
    requires BlockOk(b, tables, |ssd|, |pmem|)
  {
    forall i :: 0 <= i < |s| ==> ByteShown(s, i, b, tables, ssd, pmem, inside)
  }

  predicate ReadableRange(b: Block, inside: int, n: int) {
    forall i :: inside <= i < inside + n ==> Readable(b, i)
  }

  /** Everything outside `dest[at..at + n]` is as it was. */
  ghost predicate Elsewhere(now: seq<byte>, before: seq<byte>, at: nat, n: nat) {
    |now| == |before| && forall j :: 0 <= j < |now| && !(at <= j < at + n) ==> now[j] == before[j]
  }

  method ReadVirtual(b: Block, tables: map<int, Table>, ssd: seq<byte>, pmem: seq<byte>, inside: nat, n: nat, dest: array<byte>, at: nat)
    requires BlockOk(b, tables, |ssd|, |pmem|) && b.Virtual? && ChunkOk(inside, n) && ReadableRange(b, inside, n)
    requires at + n <= dest.Length
    modifies dest
    ensures Shows(dest[at..at + n], b, tables, ssd, pmem, inside) && Elsewhere(dest[..], old(dest[..]), at, n)
  {
    var consumed := 0;
    while consumed < n
      invariant 0 <= consumed <= n
      invariant Shows(dest[at..at + consumed], b, tables, ssd, pmem, inside) && Elsewhere(dest[..], old(dest[..]), at, n)
    {
      var position := inside + consumed;
      var page, inPage := position / 4096, position % 4096;
      var part := if n - consumed < PAGE - inPage then n - consumed else PAGE - inPage;
      assert Readable(b, position);
      CopyPage(b, tables, ssd, pmem, inside, consumed, part, dest, at);
      consumed := consumed + part;
    }
  }

  /** One page's part of a virtual block. */
  method CopyPage(b: Block, tables: map<int, Table>, ssd: seq<byte>, pmem: seq<byte>, inside: nat, consumed: nat, part: nat,
                  dest: array<byte>, at: nat)
    requires BlockOk(b, tables, |ssd|, |pmem|) && b.Virtual? && inside + consumed + part <= BLOCK && 0 < part
    requires (inside + consumed) % 4096 + part <= PAGE && Readable(b, inside + consumed)
    requires at + consumed + part <= dest.Length
    requires Shows(dest[at..at + consumed], b, tables, ssd, pmem, inside)
    modifies dest
    ensures Shows(dest[at..at + consumed + part], b, tables, ssd, pmem, inside)
    ensures Elsewhere(dest[..], old(dest[..]), at + consumed, part)
  {
    var page, inPage := (inside + consumed) / 4096, (inside + consumed) % 4096;
    var from, to := PageAt(b, page) + inPage, at + consumed;
    ghost var before := dest[..];
    forall j | to <= j < to + part {
      dest[j] := pmem[from + (j - to)];
    }
    ghost var now := dest[at..at + consumed + part];
    forall i | 0 <= i < |now| ensures ByteShown(now, i, b, tables, ssd, pmem, inside) {
      if i < consumed {
        assert ByteShown(before[at..at + consumed], i, b, tables, ssd, pmem, inside);
      } else {
        assert (inside + i) / 4096 == page && (inside + i) % 4096 == inPage + (i - consumed);
      }
    }
  }

  /** An SSD block brought into memory with its overlay, if it has one, laid over it. */
  method LoadBlock(b: Block, tables: map<int, Table>, ssd: seq<byte>, pmem: seq<byte>) returns (block: array<byte>)
    requires BlockOk(b, tables, |ssd|, |pmem|) && HasBase(b)
    ensures fresh(block) && block.Length == BLOCK && Shows(block[..], b, tables, ssd, pmem, 0)
  {
    block := new byte[BLOCK](i requires 0 <= i < BLOCK => ssd[b.base + i]);
    var page := 0;
    while page < PAGES
      invariant 0 <= page <= PAGES && fresh(block) && block.Length == BLOCK
      invariant Shows(block[..page * 4096], b, tables, ssd, pmem, 0)
      invariant forall i :: page * 4096 <= i < BLOCK ==> block[i] == ssd[b.base + i]
    {
      LoadPage(b, tables, ssd, pmem, page, block);
      page := page + 1;
    }
    assert block[..BLOCK] == block[..];
  }

  method LoadPage(b: Block, tables: map<int, Table>, ssd: seq<byte>, pmem: seq<byte>, page: nat, block: array<byte>)
    requires BlockOk(b, tables, |ssd|, |pmem|) && HasBase(b) && page < PAGES && block.Length == BLOCK
    requires Shows(block[..page * 4096], b, tables, ssd, pmem, 0)
    requires forall i :: page * 4096 <= i < BLOCK ==> block[i] == ssd[b.base + i]
    modifies block
    ensures Shows(block[..(page + 1) * 4096], b, tables, ssd, pmem, 0)
    ensures forall i :: (page + 1) * 4096 <= i < BLOCK ==> block[i] == ssd[b.base + i]
  {
    ghost var before := block[..];
    if PageAt(b, page) >= 0 {
      var ok := OverlayPage(block, page * 4096, PageAt(b, page), tables[MetaAt(b, page)], pmem);
    }
    ghost var now := block[..(page + 1) * 4096];
    forall i | 0 <= i < |now| ensures ByteShown(now, i, b, tables, ssd, pmem, 0) {
      if i < page * 4096 {
        assert ByteShown(before[..page * 4096], i, b, tables, ssd, pmem, 0);
      } else {
        assert i / 4096 == page && page * 4096 + i % 4096 == i;
        assert before[i] == ssd[b.base + i];
      }
    }
  }

  /** Bytes `inside..inside + n` of a block into `dest[at..]`. */
  method ReadBlock(b: Block, tables: map<int, Table>, ssd: seq<byte>, pmem: seq<byte>, inside: nat, n: nat, dest: array<byte>, at: nat)
    requires BlockOk(b, tables, |ssd|, |pmem|) && ChunkOk(inside, n) && ReadableRange(b, inside, n) && at + n <= dest.Length
    modifies dest
    ensures Shows(dest[at..at + n], b, tables, ssd, pmem, inside) && Elsewhere(dest[..], old(dest[..]), at, n)
  {
    if b.Virtual? {
      ReadVirtual(b, tables, ssd, pmem, inside, n, dest, at);
    } else if b.Ssd? && n == BLOCK {
      forall j | at <= j < at + n {
        dest[j] := ssd[b.base + (j - at)];
      }
      ghost var now := dest[at..at + n];
      forall i | 0 <= i < n ensures ByteShown(now, i, b, tables, ssd, pmem, inside) {
      }
    } else {
      var block := LoadBlock(b, tables, ssd, pmem);
      ghost var loaded := block[..];
      forall j | at <= j < at + n {
        dest[j] := block[inside + (j - at)];
      }
      ghost var now := dest[at..at + n];
      forall i | 0 <= i < n ensures ByteShown(now, i, b, tables, ssd, pmem, inside) {
        assert ByteShown(loaded, inside + i, b, tables, ssd, pmem, 0);
      }
    }
  }

  // ---- the file ----

  ghost predicate ReadSoFar(s: seq<byte>, view: seq<byte>, offset: nat) {
    offset + |s| <= |view| && s == view[offset..offset + |s|]
  }

  lemma NextRead(f: File, ssd: seq<byte>, pmem: seq<byte>, offset: nat, before: seq<byte>, more: seq<byte>)
    requires FileOk(f, |ssd|, |pmem|) && ReadSoFar(before, View(f, ssd, pmem), offset)
    requires offset + |before| + |more| <= f.size && (offset + |before|) % 32768 + |more| <= BLOCK
    requires 0 < |more| && Shows(more, f.blocks[(offset + |before|) / 32768], f.tables, ssd, pmem, (offset + |before|) % 32768)
    ensures ReadSoFar(before + more, View(f, ssd, pmem), offset)
  {
    hide PagesApart, MetasApart, SsdApart, BlockByte, Readable, BlockOk;
    RangeIsBacked(f, |ssd|, |pmem|, offset + |before|, |more|);
    var view, x := View(f, ssd, pmem), offset + |before|;
    var b := f.blocks[x / 32768];
    forall i | 0 <= i < |more| ensures more[i] == view[x + i] {
      assert ByteShown(more, i, b, f.tables, ssd, pmem, x % 32768);
      assert (x + i) / 32768 == x / 32768 && (x + i) % 32768 == x % 32768 + i;
      assert view[x + i] == ByteAt(f, ssd, pmem, x + i);
    }
  }

  lemma RangeIsBacked(f: File, ssdSize: nat, pmemSize: nat, x: nat, n: nat)
    requires FileOk(f, ssdSize, pmemSize) && x + n <= f.size && x % 32768 + n <= BLOCK && 0 < n
    ensures x / 32768 < |f.blocks| && BlockOk(f.blocks[x / 32768], f.tables, ssdSize, pmemSize)
    ensures ReadableRange(f.blocks[x / 32768], x % 32768, n)
  {
    hide PagesApart, MetasApart, SsdApart, Readable, BlockOk;
    var k, inside := x / 32768, x % 32768;
    forall i | inside <= i < inside + n ensures Readable(f.blocks[k], i) {
      var y := x + (i - inside);
      assert y / 32768 == k && y % 32768 == i;
      assert Readable(f.blocks[y / 32768], y % 32768);
    }
  }

  /** A read fills the destination with the flat view, up to the end of the file. */
  method Read(f: File, ssd: seq<byte>, pmem: seq<byte>, offset: nat, destination: array<byte>) returns (length: nat)
    requires FileOk(f, |ssd|, |pmem|)
    modifies destination
    ensures length == if offset >= f.size then 0
                      else if destination.Length < f.size - offset then destination.Length else f.size - offset
    ensures offset < f.size ==> destination[..length] == View(f, ssd, pmem)[offset..offset + length]
    ensures destination[length..] == old(destination[length..])
  {
    hide FileOk, BlockOk, Shows, ReadableRange, View;
    if offset >= f.size || destination.Length == 0 {
      return 0;
    }
    length := if destination.Length < f.size - offset then destination.Length else f.size - offset;
    var consumed := 0;
    while consumed < length
      invariant 0 <= consumed <= length
      invariant ReadSoFar(destination[..consumed], View(f, ssd, pmem), offset)
      invariant Elsewhere(destination[..], old(destination[..]), 0, length)
    {
      var x := offset + consumed;
      var k, inside := x / 32768, x % 32768;
      var chunk := if BLOCK - inside < length - consumed then BLOCK - inside else length - consumed;
      RangeIsBacked(f, |ssd|, |pmem|, x, chunk);
      ghost var before := destination[..];
      ReadBlock(f.blocks[k], f.tables, ssd, pmem, inside, chunk, destination, consumed);
      assert before[..consumed] == destination[..consumed];
      assert destination[..consumed] + destination[consumed..consumed + chunk] == destination[..consumed + chunk];
      NextRead(f, ssd, pmem, offset, destination[..consumed], destination[consumed..consumed + chunk]);
      consumed := consumed + chunk;
    }
  }
}
