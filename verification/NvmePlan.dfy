/** Cutting a byte-granular request into LBA-aligned NVMe commands. */
module NvmePlan {
  import opened Arithmetic
  import opened Media

  const MAX_U64: nat := 0xFFFF_FFFF_FFFF_FFFF

  datatype Segment = Segment(devOff: nat, devLen: nat, userOff: nat, userLen: nat, bounceOff: nat, readFirst: bool)

  datatype IoPlan = IoPlan(segments: seq<Segment>, begin: nat, end: nat)

  datatype PlanResult = Planned(plan: IoPlan) | InvalidArgument | ValueTooLarge

  // ---- alignment ----

  predicate Aligned(x: nat, lba: nat)
    requires lba > 0
  {
    Rest(x, lba) == 0
  }

  lemma {:induction false} MultipleIsAligned(k: nat, lba: nat)
    requires lba > 0
    ensures k * lba >= 0 && Aligned(k * lba, lba)
  {
    if k > 0 {
      MultipleIsAligned(k - 1, lba);
      assert k * lba == (k - 1) * lba + lba;
    }
  }

  lemma {:induction false} AlignedSum(x: nat, y: nat, lba: nat)
    requires lba > 0 && Aligned(x, lba) && Aligned(y, lba)
    ensures Aligned(x + y, lba) && (x >= y ==> Aligned(x - y, lba))
    decreases y
  {
    if y >= lba {
      AlignedSum(x + lba, y - lba, lba);
      if x >= y {
        AlignedSum(x - lba, y - lba, lba);
      }
    }
  }

  function Down(x: nat, lba: nat): nat
    requires lba > 0
  {
    x - Rest(x, lba)
  }

  lemma {:induction false} RoundDown(x: nat, lba: nat)
    requires lba > 0
    ensures Down(x, lba) <= x < Down(x, lba) + lba && Aligned(Down(x, lba), lba)
    ensures Aligned(x, lba) <==> x == Down(x, lba)
    decreases x
  {
    if x >= lba {
      RoundDown(x - lba, lba);
      assert Down(x, lba) == Down(x - lba, lba) + lba;
    }
  }

  /** Two aligned positions less than one LBA apart are the same. */
  lemma {:induction false} AlignedGap(x: nat, y: nat, lba: nat)
    requires lba > 0 && Aligned(x, lba) && Aligned(y, lba) && x < y
    ensures x + lba <= y
    decreases x
  {
    if x >= lba {
      AlignedGap(x - lba, y - lba, lba);
    }
  }

  // ---- what a plan must be ----

  /** The part of the request inside the device window of the segment, exactly. */
  predicate ExactPart(s: Segment, offset: nat, length: nat) {
    && s.bounceOff == (if offset > s.devOff then offset - s.devOff else 0)
    && s.bounceOff + s.userLen == (if offset + length < s.devOff + s.devLen then offset + length - s.devOff else s.devLen)
    && s.devOff + s.bounceOff == offset + s.userOff
    && 0 < s.userLen
  }

  predicate SegmentOk(s: Segment, write: bool, offset: nat, length: nat, lba: nat, limit: nat)
    requires lba > 0
  {
    && Aligned(s.devOff, lba) && Aligned(s.devLen, lba) && 0 < s.devLen <= limit
    && ExactPart(s, offset, length)
    && (s.readFirst <==> write && s.userLen < s.devLen)
    && (s.userLen < s.devLen ==> s.devLen == lba)
  }

  function DeviceEnd(segments: seq<Segment>, begin: nat): nat {
    if segments == [] then begin else segments[|segments| - 1].devOff + segments[|segments| - 1].devLen
  }

  predicate Contiguous(segments: seq<Segment>, begin: nat) {
    && (segments != [] ==> segments[0].devOff == begin)
    && forall i :: 0 <= i < |segments| - 1 ==> segments[i + 1].devOff == segments[i].devOff + segments[i].devLen
  }

  /** Aligned commands within the limit that follow each other on the device and cover the request, no more than its two
      end blocks being partial. */
  ghost predicate PlanOk(plan: IoPlan, write: bool, offset: nat, length: nat, lba: nat, limit: nat)
    requires lba > 0
  {
    && Aligned(plan.begin, lba) && Aligned(plan.end, lba)
    && plan.begin <= offset < plan.begin + lba
    && plan.end - lba < offset + length <= plan.end
    && Contiguous(plan.segments, plan.begin) && DeviceEnd(plan.segments, plan.begin) == plan.end
    && (forall i :: 0 <= i < |plan.segments| ==> SegmentOk(plan.segments[i], write, offset, length, lba, limit))
    && (forall i :: 0 < i < |plan.segments| - 1 ==> !plan.segments[i].readFirst)
  }

  function RoundUp(x: nat, lba: nat): nat
    requires lba > 0
  {
    if Aligned(x, lba) then x else x + (lba - Rest(x, lba))
  }

  lemma RoundUpFacts(x: nat, lba: nat)
    requires lba > 0
    ensures x <= RoundUp(x, lba) < x + lba && Aligned(RoundUp(x, lba), lba) && Aligned(lba, lba)
    ensures RoundUp(x, lba) == if x == Down(x, lba) then x else Down(x, lba) + lba
  {
    RoundDown(x, lba);
    MultipleIsAligned(1, lba);
    AlignedSum(Down(x, lba), lba, lba);
  }

  // ---- building the plan ----

  /** Segments that follow each other from `begin` to `at`; only the first may be partial. */
  ghost predicate SoFar(segments: seq<Segment>, begin: nat, at: nat, write: bool, offset: nat, length: nat, lba: nat, limit: nat)
    requires lba > 0
  {
    && Contiguous(segments, begin) && DeviceEnd(segments, begin) == at
    && (forall i :: 0 <= i < |segments| ==> SegmentOk(segments[i], write, offset, length, lba, limit))
    && (forall i :: 0 < i < |segments| ==> !segments[i].readFirst)
  }

  lemma AppendSegment(segments: seq<Segment>, s: Segment, begin: nat, at: nat, write: bool, offset: nat, length: nat, lba: nat, limit: nat)
    requires lba > 0 && SoFar(segments, begin, at, write, offset, length, lba, limit)
    requires SegmentOk(s, write, offset, length, lba, limit) && s.devOff == at
    ensures Contiguous(segments + [s], begin) && DeviceEnd(segments + [s], begin) == at + s.devLen
    ensures forall i :: 0 <= i < |segments| + 1 ==> SegmentOk((segments + [s])[i], write, offset, length, lba, limit)
    ensures forall i :: 0 < i < |segments| ==> !(segments + [s])[i].readFirst
    ensures !s.readFirst || segments == [] ==> SoFar(segments + [s], begin, at + s.devLen, write, offset, length, lba, limit)
  {
    hide SegmentOk;
  }

  function MakeSegment(write: bool, offset: nat, devOff: nat, devLen: nat, from: nat, to: nat): Segment
    requires devOff <= from <= to && offset <= from
  {
    Segment(devOff, devLen, from - offset, to - from, from - devOff, write && (from != devOff || to != devOff + devLen))
  }

  /** The partial block in front, if the request starts inside one. */
  method Head(write: bool, offset: nat, length: nat, lba: nat, limit: nat) returns (segments: seq<Segment>, cursor: nat, ghost at: nat)
    requires 0 < lba <= limit && length > 0
    ensures SoFar(segments, Down(offset, lba), at, write, offset, length, lba, limit)
    ensures offset <= cursor <= offset + length
    ensures cursor == at || (cursor == offset + length < at == Down(offset, lba) + lba)
    ensures Aligned(at, lba)
  {
    hide Aligned, Down;
    RoundDown(offset, lba);
    RoundUpFacts(offset, lba);
    RestIsRemainder(offset, lba);
    cursor, at, segments := offset, offset, [];
    if cursor % lba != 0 {
      var devOff := Down(cursor, lba);
      var segmentEnd := if offset + length < devOff + lba then offset + length else devOff + lba;
      var s := MakeSegment(write, offset, devOff, lba, cursor, segmentEnd);
      AppendSegment([], s, devOff, devOff, write, offset, length, lba, limit);
      segments, cursor, at := [s], segmentEnd, devOff + lba;
      AlignedSum(devOff, lba, lba);
      assert [] + [s] == [s];
    }
  }

  /** The whole blocks, in transfers of at most the limit. */
  method Middle(write: bool, offset: nat, length: nat, lba: nat, limit: nat, head: seq<Segment>, begin: nat, start: nat, alignedEnd: nat)
    returns (segments: seq<Segment>)
    requires 0 < lba <= limit && length > 0
    requires SoFar(head, begin, start, write, offset, length, lba, limit)
    requires offset <= start <= alignedEnd <= offset + length && Aligned(start, lba) && Aligned(alignedEnd, lba)
    ensures SoFar(segments, begin, alignedEnd, write, offset, length, lba, limit)
  {
    hide SoFar, Aligned, ExactPart, SegmentOk;
    var maxTransfer := MaxTransfer(limit, lba);
    segments := head;
    var cursor := start;
    while cursor < alignedEnd
      invariant start <= cursor <= alignedEnd && Aligned(cursor, lba)
      invariant SoFar(segments, begin, cursor, write, offset, length, lba, limit)
      decreases alignedEnd - cursor
    {
      var remaining := alignedEnd - cursor;
      var chunk := if remaining < maxTransfer then remaining else maxTransfer;
      AlignedSum(alignedEnd, cursor, lba);
      AlignedSum(cursor, chunk, lba);
      var s := MakeSegment(write, offset, cursor, chunk, cursor, cursor + chunk);
      WholeSegment(write, offset, length, lba, limit, cursor, chunk);
      AppendSegment(segments, s, begin, cursor, write, offset, length, lba, limit);
      segments, cursor := segments + [s], cursor + chunk;
    }
  }

  /** The transfer limit in whole blocks. */
  method MaxTransfer(limit: nat, lba: nat) returns (transfer: nat)
    requires 0 < lba <= limit
    ensures 0 < transfer <= limit < transfer + lba && Aligned(transfer, lba)
  {
    transfer := (limit / lba) * lba;
    QuotientRest(limit, lba);
    MultipleIsAligned(limit / lba, lba);
    MulAtLeast(limit / lba, lba);
  }

  lemma WholeSegment(write: bool, offset: nat, length: nat, lba: nat, limit: nat, cursor: nat, chunk: nat)
    requires 0 < lba && 0 < chunk <= limit && offset <= cursor && cursor + chunk <= offset + length && Aligned(cursor, lba) && Aligned(chunk, lba)
    ensures SegmentOk(MakeSegment(write, offset, cursor, chunk, cursor, cursor + chunk), write, offset, length, lba, limit)
  {
  }

  lemma TailSegment(write: bool, offset: nat, length: nat, lba: nat, limit: nat, cursor: nat)
    requires 0 < lba <= limit && offset <= cursor < offset + length < cursor + lba && Aligned(cursor, lba) && Aligned(lba, lba)
    ensures SegmentOk(MakeSegment(write, offset, cursor, lba, cursor, offset + length), write, offset, length, lba, limit)
  {
  }

  method PlanIo(write: bool, offset: nat, length: nat, lba: nat, maxTransfer: nat) returns (r: PlanResult)
    ensures r.InvalidArgument? <==> lba == 0 || maxTransfer < lba
    ensures r.ValueTooLarge? <==>
              lba != 0 && maxTransfer >= lba && (offset + length > 0xFFFF_FFFF_FFFF_FFFF || (length > 0 && RoundUp(offset + length, lba) > 0xFFFF_FFFF_FFFF_FFFF))
    ensures r.Planned? && length == 0 ==> r.plan == IoPlan([], offset, offset)
    ensures r.Planned? && length > 0 ==> PlanOk(r.plan, write, offset, length, lba, maxTransfer)
  {
    hide SegmentOk, ExactPart, Contiguous, DeviceEnd, Aligned, Down, RoundUp, PlanOk, SoFar;
    if lba == 0 || maxTransfer < lba {
      return InvalidArgument;
    }
    if length > MAX_U64 - offset {
      return ValueTooLarge;
    }
    var logicalEnd := offset + length;
    if length == 0 {
      return Planned(IoPlan([], offset, offset));
    }
    var begin, end := Down(offset, lba), RoundUp(logicalEnd, lba);
    if end > MAX_U64 {
      return ValueTooLarge;
    }
    var segments, cursor, at := Head(write, offset, length, lba, maxTransfer);
    var alignedEnd := Down(logicalEnd, lba);
    EndFacts(offset, length, lba, cursor, at);
    if cursor < alignedEnd {
      segments := Middle(write, offset, length, lba, maxTransfer, segments, begin, cursor, alignedEnd);
      cursor := alignedEnd;
      at := alignedEnd;
    }
    if cursor < logicalEnd {
      var s := MakeSegment(write, offset, cursor, lba, cursor, logicalEnd);
      TailSegment(write, offset, length, lba, maxTransfer, cursor);
      WithTail(segments, s, begin, end, write, offset, length, lba, maxTransfer);
      segments := segments + [s];
    } else {
      WithoutTail(segments, begin, end, write, offset, length, lba, maxTransfer);
    }
    r := Planned(IoPlan(segments, begin, end));
  }

  ghost predicate EndsOk(begin: nat, end: nat, offset: nat, length: nat, lba: nat)
    requires lba > 0
  {
    Aligned(begin, lba) && Aligned(end, lba) && begin <= offset < begin + lba && end - lba < offset + length <= end
  }

  lemma WithTail(segments: seq<Segment>, s: Segment, begin: nat, end: nat, write: bool, offset: nat, length: nat, lba: nat, limit: nat)
    requires lba > 0 && EndsOk(begin, end, offset, length, lba) && SoFar(segments, begin, s.devOff, write, offset, length, lba, limit)
    requires SegmentOk(s, write, offset, length, lba, limit) && s.devOff + s.devLen == end
    ensures PlanOk(IoPlan(segments + [s], begin, end), write, offset, length, lba, limit)
  {
    hide SegmentOk, Aligned;
    AppendSegment(segments, s, begin, s.devOff, write, offset, length, lba, limit);
  }

  lemma WithoutTail(segments: seq<Segment>, begin: nat, end: nat, write: bool, offset: nat, length: nat, lba: nat, limit: nat)
    requires lba > 0 && EndsOk(begin, end, offset, length, lba) && SoFar(segments, begin, end, write, offset, length, lba, limit)
    ensures PlanOk(IoPlan(segments, begin, end), write, offset, length, lba, limit)
  {
  }

  /** Where the aligned part ends, whatever the head left. */
  lemma EndFacts(offset: nat, length: nat, lba: nat, cursor: nat, at: nat)
    requires 0 < lba && length > 0 && Aligned(at, lba) && offset <= cursor <= offset + length
    requires cursor == at || (cursor == offset + length < at == Down(offset, lba) + lba)
    ensures var end := offset + length;
            && Down(end, lba) <= end < Down(end, lba) + lba && Aligned(Down(end, lba), lba) && Aligned(lba, lba)
            && EndsOk(Down(offset, lba), RoundUp(end, lba), offset, length, lba)
            && RoundUp(end, lba) == (if end == Down(end, lba) then end else Down(end, lba) + lba)
            && (cursor == end < at ==> at == RoundUp(end, lba) && Down(end, lba) <= cursor)
            && (cursor == at ==> at <= Down(end, lba))
  {
    hide Aligned, Down, RoundUp;
    var end := offset + length;
    RoundDown(end, lba);
    RoundDown(offset, lba);
    RoundUpFacts(end, lba);
    if cursor == at && at > Down(end, lba) {
      AlignedGap(Down(end, lba), at, lba);
    }
    if cursor == end < at {
      if at < RoundUp(end, lba) {
        AlignedGap(at, RoundUp(end, lba), lba);
      } else if RoundUp(end, lba) < at {
        AlignedGap(RoundUp(end, lba), at, lba);
      }
    }
  }

  // ---- what the commands of a plan do ----

  /** Device offset where segment `n` starts; the end of the plan for the one past the last. */
  function Bound(plan: IoPlan, n: nat): nat {
    if n < |plan.segments| then plan.segments[n].devOff else plan.end
  }

  lemma BoundStep(plan: IoPlan, n: nat, write: bool, offset: nat, length: nat, lba: nat, limit: nat)
    requires lba > 0 && PlanOk(plan, write, offset, length, lba, limit) && n < |plan.segments|
    ensures Bound(plan, n + 1) == plan.segments[n].devOff + plan.segments[n].devLen > Bound(plan, n)
  {
  }

  lemma SegmentIsThere(s: Segment, write: bool, offset: nat, length: nat, lba: nat, limit: nat)
    requires lba > 0 && SegmentOk(s, write, offset, length, lba, limit)
    ensures s.devLen > 0 && ExactPart(s, offset, length) && s.bounceOff + s.userLen <= s.devLen && s.userOff + s.userLen <= length
    ensures !s.readFirst && write ==> s.bounceOff == 0 && s.userLen == s.devLen
  {
  }

  lemma {:induction false} BoundsInside(plan: IoPlan, n: nat, write: bool, offset: nat, length: nat, lba: nat, limit: nat)
    requires lba > 0 && PlanOk(plan, write, offset, length, lba, limit) && n <= |plan.segments|
    ensures plan.begin <= Bound(plan, n) <= plan.end
    ensures n == 0 ==> Bound(plan, n) == plan.begin
    decreases |plan.segments| - n
  {
    hide SegmentOk, Aligned;
    if n < |plan.segments| {
      BoundStep(plan, n, write, offset, length, lba, limit);
      BoundsInside(plan, n + 1, write, offset, length, lba, limit);
      BoundBelow(plan, n, write, offset, length, lba, limit);
    } else if n > 0 {
      BoundBelow(plan, n, write, offset, length, lba, limit);
    } else {
      assert plan.segments == [];
    }
  }

  lemma {:induction false} BoundBelow(plan: IoPlan, n: nat, write: bool, offset: nat, length: nat, lba: nat, limit: nat)
    requires lba > 0 && PlanOk(plan, write, offset, length, lba, limit) && n <= |plan.segments| && plan.segments != []
    ensures plan.begin <= Bound(plan, n)
  {
    hide SegmentOk, Aligned;
    if n > 0 {
      BoundBelow(plan, n - 1, write, offset, length, lba, limit);
      BoundStep(plan, n - 1, write, offset, length, lba, limit);
    }
  }

  /** What goes into the device window of a segment: the user's bytes where they belong, the old ones around them. */
  function WindowBytes(s: Segment, window: seq<byte>, data: seq<byte>): (bytes: seq<byte>)
    requires |window| == s.devLen && s.bounceOff + s.userLen <= s.devLen && s.userOff + s.userLen <= |data|
    ensures |bytes| == s.devLen
  {
    window[..s.bounceOff] + data[s.userOff..s.userOff + s.userLen] + window[s.bounceOff + s.userLen..]
  }

  lemma WindowByte(s: Segment, window: seq<byte>, offset: nat, data: seq<byte>, a: nat)
    requires |window| == s.devLen && ExactPart(s, offset, |data|) && s.bounceOff + s.userLen <= s.devLen && s.userOff + s.userLen <= |data|
    requires s.devOff <= a < s.devOff + s.devLen
    ensures WindowBytes(s, window, data)[a - s.devOff] ==
            if Covers(Req(offset, data), a) then data[a - offset] else window[a - s.devOff]
  {
  }

  /** What the user's buffer holds after the first `n` commands of a read. */
  function ReadParts(m: seq<byte>, plan: IoPlan, n: nat): seq<byte>
    requires n <= |plan.segments|
    requires forall i :: 0 <= i < n ==> plan.segments[i].devOff + plan.segments[i].devLen <= |m|
                                        && plan.segments[i].bounceOff + plan.segments[i].userLen <= plan.segments[i].devLen
  {
    if n == 0 then []
    else
      var s := plan.segments[n - 1];
      ReadParts(m, plan, n - 1) + m[s.devOff..s.devOff + s.devLen][s.bounceOff..s.bounceOff + s.userLen]
  }

  function ReadUpTo(plan: IoPlan, n: nat, offset: nat, length: nat): nat {
    if Bound(plan, n) < offset then offset else if Bound(plan, n) < offset + length then Bound(plan, n) else offset + length
  }

  lemma SegmentsFit(plan: IoPlan, i: nat, write: bool, offset: nat, length: nat, lba: nat, limit: nat, size: nat)
    requires lba > 0 && PlanOk(plan, write, offset, length, lba, limit) && plan.end <= size && i < |plan.segments|
    ensures var s := plan.segments[i];
            s.devOff + s.devLen <= size && s.bounceOff + s.userLen <= s.devLen && ExactPart(s, offset, length) && s.userOff + s.userLen <= length
  {
    hide PlanOk, SegmentOk;
    BoundStep(plan, i, write, offset, length, lba, limit);
    BoundsInside(plan, i + 1, write, offset, length, lba, limit);
    assert SegmentOk(plan.segments[i], write, offset, length, lba, limit) by { AnySegmentOk(plan, i, write, offset, length, lba, limit); }
    SegmentIsThere(plan.segments[i], write, offset, length, lba, limit);
  }

  lemma AnySegmentOk(plan: IoPlan, n: nat, write: bool, offset: nat, length: nat, lba: nat, limit: nat)
    requires lba > 0 && PlanOk(plan, write, offset, length, lba, limit) && n < |plan.segments|
    ensures SegmentOk(plan.segments[n], write, offset, length, lba, limit)
  {
  }

  lemma PartIsSlice(m: seq<byte>, plan: IoPlan, n: nat, offset: nat, length: nat)
    requires n < |plan.segments| && Bound(plan, n + 1) == plan.segments[n].devOff + plan.segments[n].devLen
    requires var s := plan.segments[n]; ExactPart(s, offset, length) && s.devOff + s.devLen <= |m| && s.bounceOff + s.userLen <= s.devLen
    ensures var s, lo, hi := plan.segments[n], ReadUpTo(plan, n, offset, length), ReadUpTo(plan, n + 1, offset, length);
            offset <= lo <= hi <= |m| && m[s.devOff..s.devOff + s.devLen][s.bounceOff..s.bounceOff + s.userLen] == m[lo..hi]
  {
    var s := plan.segments[n];
    assert ReadUpTo(plan, n, offset, length) == s.devOff + s.bounceOff;
    assert ReadUpTo(plan, n + 1, offset, length) == s.devOff + s.bounceOff + s.userLen;
    SliceOfSlice(m, s.devOff, s.devOff + s.devLen, s.bounceOff, s.bounceOff + s.userLen);
  }

  lemma SliceOfSlice(m: seq<byte>, a: nat, b: nat, c: nat, d: nat)
    requires a <= b <= |m| && c <= d <= b - a
    ensures m[a..b][c..d] == m[a + c..a + d]
  {
    var x := m[a..b];
    assert forall i :: 0 <= i < d - c ==> x[c..d][i] == x[c + i] == m[a + (c + i)];
  }

  /** The commands of a read fill the user's buffer with the bytes asked for, in order and without gaps. */
  lemma {:induction false} ReadPartsTile(m: seq<byte>, plan: IoPlan, n: nat, offset: nat, length: nat, lba: nat, limit: nat)
    requires lba > 0 && PlanOk(plan, false, offset, length, lba, limit) && plan.end <= |m| && n <= |plan.segments|
    ensures forall i :: 0 <= i < n ==> plan.segments[i].devOff + plan.segments[i].devLen <= |m|
                                       && plan.segments[i].bounceOff + plan.segments[i].userLen <= plan.segments[i].devLen
    ensures offset <= ReadUpTo(plan, n, offset, length) <= |m|
    ensures ReadParts(m, plan, n) == m[offset..ReadUpTo(plan, n, offset, length)]
    ensures n == |plan.segments| ==> ReadParts(m, plan, n) == m[offset..offset + length]
  {
    hide PlanOk, SegmentOk, Aligned, ExactPart, ReadUpTo, Bound;
    forall i | 0 <= i < n
      ensures plan.segments[i].devOff + plan.segments[i].devLen <= |m|
      ensures plan.segments[i].bounceOff + plan.segments[i].userLen <= plan.segments[i].devLen
    {
      SegmentsFit(plan, i, false, offset, length, lba, limit, |m|);
    }
    ReadEnds(plan, offset, length, lba, limit);
    if n > 0 {
      ReadPartsTile(m, plan, n - 1, offset, length, lba, limit);
      SegmentsFit(plan, n - 1, false, offset, length, lba, limit, |m|);
      BoundStep(plan, n - 1, false, offset, length, lba, limit);
      PartIsSlice(m, plan, n - 1, offset, length);
    }
  }

  lemma ReadEnds(plan: IoPlan, offset: nat, length: nat, lba: nat, limit: nat)
    requires lba > 0 && PlanOk(plan, false, offset, length, lba, limit)
    ensures ReadUpTo(plan, 0, offset, length) == offset <= plan.end
    ensures ReadUpTo(plan, |plan.segments|, offset, length) == offset + length
  {
  }

  /** The medium after the first `n` commands of a write, each window read, patched and written back. */
  function WriteParts(m: seq<byte>, plan: IoPlan, data: seq<byte>, n: nat): (m': seq<byte>)
    requires n <= |plan.segments|
    requires forall i :: 0 <= i < n ==> SegmentFits(plan.segments[i], |m|, |data|)
    ensures |m'| == |m|
  {
    if n == 0 then m
    else
      var s, before := plan.segments[n - 1], WriteParts(m, plan, data, n - 1);
      assert SegmentFits(s, |m|, |data|);
      Put(before, Req(s.devOff, WindowBytes(s, before[s.devOff..s.devOff + s.devLen], data)))
  }

  predicate SegmentFits(s: Segment, size: nat, length: nat) {
    s.devOff + s.devLen <= size && s.bounceOff + s.userLen <= s.devLen && s.userOff + s.userLen <= length
  }

  lemma PartPut(before: seq<byte>, s: Segment, offset: nat, data: seq<byte>, a: nat)
    requires SegmentFits(s, |before|, |data|) && ExactPart(s, offset, |data|) && a < |before|
    ensures Put(before, Req(s.devOff, WindowBytes(s, before[s.devOff..s.devOff + s.devLen], data)))[a] ==
            if s.devOff <= a < s.devOff + s.devLen && Covers(Req(offset, data), a) then data[a - offset] else before[a]
  {
    hide WindowBytes, ExactPart;
    if s.devOff <= a < s.devOff + s.devLen {
      WindowByte(s, before[s.devOff..s.devOff + s.devLen], offset, data, a);
    }
  }

  /** The commands of a write put the user's bytes where they belong and give every other byte of their windows back. */
  lemma {:induction false} WritePartsPut(m: seq<byte>, plan: IoPlan, n: nat, offset: nat, data: seq<byte>, lba: nat, limit: nat, a: nat)
    requires lba > 0 && PlanOk(plan, true, offset, |data|, lba, limit) && plan.end <= |m| && n <= |plan.segments| && a < |m|
    ensures forall i :: 0 <= i < n ==> SegmentFits(plan.segments[i], |m|, |data|)
    ensures WriteParts(m, plan, data, n)[a] == if Covers(Req(offset, data), a) && a < Bound(plan, n) then data[a - offset] else m[a]
  {
    hide PlanOk, SegmentOk, Aligned, WindowBytes, ExactPart, Put;
    forall i | 0 <= i < n ensures SegmentFits(plan.segments[i], |m|, |data|) {
      SegmentsFit(plan, i, true, offset, |data|, lba, limit, |m|);
    }
    if n == 0 {
      BoundsInside(plan, 0, true, offset, |data|, lba, limit);
      BeginFacts(plan, offset, |data|, lba, limit);
    } else {
      WritePartsPut(m, plan, n - 1, offset, data, lba, limit, a);
      SegmentsFit(plan, n - 1, true, offset, |data|, lba, limit, |m|);
      BoundStep(plan, n - 1, true, offset, |data|, lba, limit);
      PartPut(WriteParts(m, plan, data, n - 1), plan.segments[n - 1], offset, data, a);
    }
  }

  lemma BeginFacts(plan: IoPlan, offset: nat, length: nat, lba: nat, limit: nat)
    requires lba > 0 && PlanOk(plan, true, offset, length, lba, limit)
    ensures plan.begin <= offset && offset + length <= plan.end
  {
  }

  /** A write plan carried out from end to end is the plain byte write. */
  lemma WritePlanIsPut(m: seq<byte>, plan: IoPlan, offset: nat, data: seq<byte>, lba: nat, limit: nat)
    requires lba > 0 && PlanOk(plan, true, offset, |data|, lba, limit) && plan.end <= |m|
    ensures forall i :: 0 <= i < |plan.segments| ==> SegmentFits(plan.segments[i], |m|, |data|)
    ensures offset + |data| <= |m| && WriteParts(m, plan, data, |plan.segments|) == Put(m, Req(offset, data))
  {
    hide PlanOk;
    BeginFacts(plan, offset, |data|, lba, limit);
    forall i | 0 <= i < |plan.segments| ensures SegmentFits(plan.segments[i], |m|, |data|) {
      SegmentsFit(plan, i, true, offset, |data|, lba, limit, |m|);
    }
    forall a | 0 <= a < |m| ensures WriteParts(m, plan, data, |plan.segments|)[a] == Put(m, Req(offset, data))[a] {
      WritePartsPut(m, plan, |plan.segments|, offset, data, lba, limit, a);
    }
  }
}
