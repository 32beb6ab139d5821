/** Concurrent NVMe writes under ticket order: every run leaves the medium as if the writes had run one by one. */
module NvmeWrites {
  import opened Media
  import opened NvmePlan

  datatype Config = Config(lba: nat, limit: nat)

  /** Where a write stands inside its current segment. */
  datatype Phase = Ready | ReadInflight | ReadDone(raw: seq<byte>) | WriteReady(buf: seq<byte>) | WriteInflight(buf: seq<byte>)

  /** How a write ended: done, failed while it ran, or failed before it was granted. */
  datatype End = Done | Broken | Cancelled

  datatype Stage = Waiting | Running(segment: nat, phase: Phase) | Complete(end: End)

  /** A write: its bytes, and which of them a failure has kept from the medium. */
  datatype Ask = Ask(off: int, data: seq<byte>, lost: set<int>)

  predicate Asks(r: Ask, a: int) {
    r.off <= a < r.off + |r.data|
  }

  /** The write puts its byte at `a`. */
  predicate Takes(r: Ask, a: int) {
    Asks(r, a) && a !in r.lost
  }

  /** A flush: the number of writes accepted before it, and whether it has been sent to the device. */
  datatype Fence = Fence(before: nat, issued: bool)

  /** Every write ever accepted, in ticket order, with its plan and its stage. */
  datatype State = State(medium: seq<byte>, reqs: seq<Ask>, plans: seq<IoPlan>, stages: seq<Stage>, fences: seq<Fence>)

  datatype Event =
    | Accept(req: Req, plan: IoPlan)
    | Grant(j: nat)
    | SubmitRead(j: nat)
    | DeviceRead(j: nat)
    | ReadComplete(j: nat)
    | SubmitWrite(j: nat)
    | DeviceWrite(j: nat, lo: nat, hi: nat)
    | WriteComplete(j: nat)
    | Finish(j: nat)
    | Fail(j: nat)
    | SubmitFlush
    | IssueFlush(k: nat)

  ghost predicate WriteOk(c: Config, r: Ask, plan: IoPlan, size: nat) {
    && c.lba > 0 && 0 <= r.off && r.data != []
    && PlanOk(plan, true, r.off, |r.data|, c.lba, c.limit)
    && plan.end <= size
  }

  predicate Overlap(p: IoPlan, q: IoPlan) {
    p.begin < q.end && q.begin < p.end
  }

  ghost predicate Shaped(c: Config, s: State) {
    && |s.plans| == |s.reqs| && |s.stages| == |s.reqs|
    && forall j :: 0 <= j < |s.reqs| ==> WriteOk(c, s.reqs[j], s.plans[j], |s.medium|)
  }

  /** No earlier ticket that is still in the queue overlaps `j`. */
  ghost predicate Grantable(s: State, j: nat)
    requires j < |s.plans| && |s.stages| == |s.plans|
  {
    forall i :: 0 <= i < j && !s.stages[i].Complete? ==> !Overlap(s.plans[i], s.plans[j])
  }

  ghost predicate FenceReady(s: State, fence: nat) {
    forall i :: 0 <= i < |s.stages| && i < fence ==> s.stages[i].Complete?
  }

  predicate RunningAt(s: State, j: nat) {
    && j < |s.stages| && j < |s.plans| && s.stages[j].Running?
    && s.stages[j].segment < |s.plans[j].segments|
  }

  function Current(s: State, j: nat): Segment
    requires RunningAt(s, j)
  {
    s.plans[j].segments[s.stages[j].segment]
  }

  function SetPhase(s: State, j: nat, phase: Phase): State
    requires RunningAt(s, j)
  {
    s.(stages := s.stages[j := Running(s.stages[j].segment, phase)])
  }

  /** The medium as the device would give it for the current window of `j`. */
  function Window(s: State, j: nat): (w: seq<byte>)
    requires RunningAt(s, j) && Current(s, j).devOff + Current(s, j).devLen <= |s.medium|
    ensures |w| == Current(s, j).devLen
  {
    s.medium[Current(s, j).devOff..Current(s, j).devOff + Current(s, j).devLen]
  }

  /** One step of the pollers or of the device; None if the step is not possible. */
  ghost function Apply(c: Config, s: State, e: Event): Option<State>
    requires Shaped(c, s)
  {
    match e
    case Accept(req, plan) =>
      if WriteOk(c, Ask(req.off, req.data, {}), plan, |s.medium|)
      then Some(s.(reqs := s.reqs + [Ask(req.off, req.data, {})], plans := s.plans + [plan], stages := s.stages + [Waiting])) else None
    case Grant(j) =>
      if j < |s.stages| && s.stages[j].Waiting? && Grantable(s, j) then Some(s.(stages := s.stages[j := Running(0, Ready)])) else None
    case SubmitRead(j) =>
      if RunningAt(s, j) && s.stages[j].phase.Ready? && Current(s, j).readFirst then Some(SetPhase(s, j, ReadInflight)) else None
    case DeviceRead(j) =>
      if RunningAt(s, j) && s.stages[j].phase.ReadInflight? && Current(s, j).devOff + Current(s, j).devLen <= |s.medium|
      then Some(SetPhase(s, j, ReadDone(Window(s, j)))) else None
    case ReadComplete(j) =>
      if RunningAt(s, j) && s.stages[j].phase.ReadDone? && Patchable(Current(s, j), s.stages[j].phase.raw, s.reqs[j].data)
      then Some(SetPhase(s, j, WriteReady(WindowBytes(Current(s, j), s.stages[j].phase.raw, s.reqs[j].data)))) else None
    case SubmitWrite(j) =>
      if RunningAt(s, j) && s.stages[j].phase.WriteReady? then Some(SetPhase(s, j, WriteInflight(s.stages[j].phase.buf)))
      else if RunningAt(s, j) && s.stages[j].phase.Ready? && !Current(s, j).readFirst && Current(s, j).userOff + Current(s, j).userLen <= |s.reqs[j].data|
      then Some(SetPhase(s, j, WriteInflight(s.reqs[j].data[Current(s, j).userOff..Current(s, j).userOff + Current(s, j).userLen])))
      else None
    case DeviceWrite(j, lo, hi) =>
      if RunningAt(s, j) && s.stages[j].phase.WriteInflight? && lo <= hi <= |s.stages[j].phase.buf|
         && Current(s, j).devOff + hi <= |s.medium|
      then Some(s.(medium := Put(s.medium, Req(Current(s, j).devOff + lo, s.stages[j].phase.buf[lo..hi])))) else None
    case WriteComplete(j) =>
      if RunningAt(s, j) && s.stages[j].phase.WriteInflight? && Current(s, j).devOff + Current(s, j).devLen <= |s.medium|
         && Window(s, j) == s.stages[j].phase.buf
      then Some(s.(stages := s.stages[j := Running(s.stages[j].segment + 1, Ready)])) else None
    case Finish(j) =>
      if j < |s.stages| && s.stages[j].Running? && s.stages[j].segment == |s.plans[j].segments|
      then Some(s.(stages := s.stages[j := Complete(Done)])) else None
    case Fail(j) =>
      if j < |s.stages| && !s.stages[j].Complete? then
        var broken := s.stages[j].Running?;
        Some(s.(reqs := s.reqs[j := Failed(s.medium, s.reqs[j], broken)], stages := s.stages[j := Complete(if broken then Broken else Cancelled)]))
      else None
    case SubmitFlush => Some(s.(fences := s.fences + [Fence(|s.reqs|, false)]))
    case IssueFlush(k) =>
      if k < |s.fences| && FenceReady(s, s.fences[k].before)
      then Some(s.(fences := s.fences[k := Fence(s.fences[k].before, true)])) else None
  }

  /** The write as the failure leaves it: lost is whatever byte of it is not on the medium, or all if it had not begun. */
  function Failed(medium: seq<byte>, r: Ask, broken: bool): Ask
    requires 0 <= r.off && r.off + |r.data| <= |medium|
  {
    r.(lost := set a | r.off <= a < r.off + |r.data| && (broken ==> medium[a] != r.data[a - r.off]))
  }

  /** Not begun, or never to begin. */
  predicate Still(stage: Stage) {
    stage.Waiting? || stage == Complete(Cancelled)
  }

  predicate Patchable(s: Segment, raw: seq<byte>, data: seq<byte>) {
    |raw| == s.devLen && s.bounceOff + s.userLen <= s.devLen && s.userOff + s.userLen <= |data|
  }

  // ---- the sequential meaning ----

  /** Byte `a` after the first `n` requests, one after the other. */
  function SeqValue(m: seq<byte>, reqs: seq<Ask>, n: nat, a: nat): byte
    requires n <= |reqs| && a < |m|
  {
    if n == 0 then m[a]
    else if Takes(reqs[n - 1], a) then reqs[n - 1].data[a - reqs[n - 1].off]
    else SeqValue(m, reqs, n - 1, a)
  }

  /** The medium after one write, as far as it got. */
  function Landed(m: seq<byte>, r: Ask): (m': seq<byte>)
    ensures |m'| == |m|
  {
    seq(|m|, a requires 0 <= a < |m| => if Takes(r, a) then r.data[a - r.off] else m[a])
  }

  /** The writes one after the other. */
  function Serial(m: seq<byte>, reqs: seq<Ask>): (m': seq<byte>)
    ensures |m'| == |m|
  {
    if reqs == [] then m else Landed(Serial(m, reqs[..|reqs| - 1]), reqs[|reqs| - 1])
  }

  lemma {:induction false} SeqValueIsSerial(m: seq<byte>, reqs: seq<Ask>, n: nat, a: nat)
    requires n <= |reqs| && a < |m|
    ensures SeqValue(m, reqs, n, a) == Serial(m, reqs[..n])[a]
  {
    if n > 0 {
      SeqValueIsSerial(m, reqs, n - 1, a);
      assert reqs[..n][..n - 1] == reqs[..n - 1] && reqs[..n][n - 1] == reqs[n - 1];
      assert Serial(m, reqs[..n]) == Landed(Serial(m, reqs[..n - 1]), reqs[n - 1]);
    }
  }

  /** The requests as they were accepted. */
  function Plain(reqs: seq<Ask>): (r: seq<Req>)
    ensures |r| == |reqs| && forall i :: 0 <= i < |reqs| ==> r[i] == Req(reqs[i].off, reqs[i].data)
  {
    if reqs == [] then [] else Plain(reqs[..|reqs| - 1]) + [Req(reqs[|reqs| - 1].off, reqs[|reqs| - 1].data)]
  }

  lemma LandedIsPut(m: seq<byte>, r: Ask)
    requires r.lost == {} && InBounds(Req(r.off, r.data), |m|)
    ensures Landed(m, r) == Put(m, Req(r.off, r.data))
  {
  }

  /** Without failures the writes are plain writes. */
  lemma {:induction false} SerialIsPutAll(m: seq<byte>, reqs: seq<Ask>)
    requires AllInBounds(Plain(reqs), |m|) && forall i :: 0 <= i < |reqs| ==> reqs[i].lost == {}
    ensures Serial(m, reqs) == PutAll(m, Plain(reqs))
  {
    hide Landed, Put;
    if reqs != [] {
      var front, last := reqs[..|reqs| - 1], reqs[|reqs| - 1];
      assert Plain(reqs) == Plain(front) + [Req(last.off, last.data)];
      assert Plain(reqs)[..|reqs| - 1] == Plain(front);
      SerialIsPutAll(m, front);
      LandedIsPut(Serial(m, front), last);
    }
  }

  lemma {:induction false} SeqValueMore(m: seq<byte>, reqs: seq<Ask>, more: seq<Ask>, n: nat, a: nat)
    requires n <= |reqs| <= |more| && a < |m| && more[..|reqs|] == reqs
    ensures SeqValue(m, more, n, a) == SeqValue(m, reqs, n, a)
  {
    if n > 0 {
      assert more[n - 1] == more[..|reqs|][n - 1] == reqs[n - 1];
      SeqValueMore(m, reqs, more, n - 1, a);
    }
  }

  /** Requests that do not cover `a` leave its value alone. */
  lemma {:induction false} SeqValueSkips(m: seq<byte>, reqs: seq<Ask>, n: nat, k: nat, a: nat)
    requires n <= k <= |reqs| && a < |m|
    requires forall i :: n <= i < k ==> !Takes(reqs[i], a)
    ensures SeqValue(m, reqs, k, a) == SeqValue(m, reqs, n, a)
    decreases k
  {
    if n < k {
      SeqValueSkips(m, reqs, n, k - 1, a);
    }
  }

  // ---- the invariant ----

  predicate InEnvelope(plan: IoPlan, a: nat) {
    plan.begin <= a < plan.end
  }

  /** At byte `a` exactly the first `n` tickets have gone through and no later one has started. */
  ghost predicate Through(s: State, n: nat, a: nat)
    requires |s.plans| == |s.stages|
  {
    && (forall i :: 0 <= i < n && i < |s.plans| && InEnvelope(s.plans[i], a) ==> s.stages[i].Complete?)
    && (forall i :: n <= i < |s.plans| && InEnvelope(s.plans[i], a) ==> Still(s.stages[i]))
  }

  ghost predicate Ordered(s: State)
    requires |s.plans| == |s.stages|
  {
    forall i, j :: 0 <= i < j < |s.plans| && Overlap(s.plans[i], s.plans[j]) && !s.stages[i].Complete? ==> Still(s.stages[j])
  }

  ghost predicate Quiet(m: seq<byte>, s: State)
    requires |s.plans| == |s.stages| == |s.reqs| && |s.medium| == |m|
  {
    forall n, a :: 0 <= n <= |s.reqs| && 0 <= a < |m| && Through(s, n, a) ==> s.medium[a] == SeqValue(m, s.reqs, n, a)
  }

  /** Byte `a` of the envelope of the running write `j`: new behind its current window, old ahead of it. */
  ghost predicate ByteOk(m: seq<byte>, s: State, j: nat, a: nat)
    requires j < |s.plans| && |s.plans| == |s.stages| == |s.reqs| && |s.medium| == |m| && a < |m| && s.stages[j].Running?
  {
    var seg := s.stages[j].segment;
    if a < Bound(s.plans[j], seg) then s.medium[a] == SeqValue(m, s.reqs, j + 1, a)
    else || s.medium[a] == SeqValue(m, s.reqs, j, a)
         || (s.stages[j].phase.WriteInflight? && a < Bound(s.plans[j], seg + 1) && s.medium[a] == SeqValue(m, s.reqs, j + 1, a))
  }

  /** Buffer `buf` holds the bytes that `n` requests leave in the window at `off`. */
  ghost predicate Holds(m: seq<byte>, reqs: seq<Ask>, n: nat, buf: seq<byte>, off: nat, len: nat)
    requires n <= |reqs|
  {
    && |buf| == len && off + len <= |m|
    && forall a :: off <= a < off + len ==> buf[a - off] == SeqValue(m, reqs, n, a)
  }

  ghost predicate PhaseOk(m: seq<byte>, s: State, j: nat)
    requires j < |s.plans| && |s.plans| == |s.stages| == |s.reqs| && s.stages[j].Running?
  {
    var seg, phase := s.stages[j].segment, s.stages[j].phase;
    && seg <= |s.plans[j].segments|
    && (seg == |s.plans[j].segments| ==> phase.Ready?)
    && (seg < |s.plans[j].segments| ==>
          var w := s.plans[j].segments[seg];
          && (phase.ReadDone? ==> Holds(m, s.reqs, j, phase.raw, w.devOff, w.devLen))
          && (phase.WriteReady? || phase.WriteInflight? ==> Holds(m, s.reqs, j + 1, phase.buf, w.devOff, w.devLen)))
  }

  ghost predicate RunOk(m: seq<byte>, s: State, j: nat)
    requires j < |s.plans| && |s.plans| == |s.stages| == |s.reqs| && |s.medium| == |m|
  {
    s.stages[j].Running? ==>
      PhaseOk(m, s, j) && forall a :: 0 <= a < |m| && InEnvelope(s.plans[j], a) ==> ByteOk(m, s, j, a)
  }

  ghost predicate FencesOk(s: State) {
    forall k :: 0 <= k < |s.fences| && s.fences[k].issued ==> FenceReady(s, s.fences[k].before)
  }

  ghost predicate FencesBounded(s: State) {
    forall k :: 0 <= k < |s.fences| ==> s.fences[k].before <= |s.stages|
  }

  /** Bytes are lost by failed writes only, and a cancelled write puts none. */
  ghost predicate LossesOk(s: State)
    requires |s.stages| == |s.reqs|
  {
    forall j :: 0 <= j < |s.reqs| ==>
      && (s.stages[j] != Complete(Broken) && s.stages[j] != Complete(Cancelled) ==> s.reqs[j].lost == {})
      && (s.stages[j] == Complete(Cancelled) ==> Silent(s.reqs[j]))
  }

  ghost predicate Silent(r: Ask) {
    forall a :: Asks(r, a) ==> a in r.lost
  }

  ghost predicate Inv(c: Config, m: seq<byte>, s: State) {
    && Shaped(c, s) && |s.medium| == |m| && LossesOk(s)
    && Ordered(s) && Quiet(m, s) && FencesOk(s) && FencesBounded(s)
    && forall j :: 0 <= j < |s.plans| ==> RunOk(m, s, j)
  }

  // ---- steps inside one running write ----

  /** `s'` is `s` with write `j` further on, the medium changed inside the envelope of `j` only. */
  ghost predicate Progress(s': State, s: State, j: nat, now: Stage) {
    && s'.reqs == s.reqs && s'.plans == s.plans && s'.fences == s.fences
    && j < |s.stages| && |s.stages| == |s.plans| && s.stages[j].Running?
    && now.Running? && s'.stages == s.stages[j := now]
    && |s'.medium| == |s.medium|
    && forall a :: 0 <= a < |s.medium| && !InEnvelope(s.plans[j], a) ==> s'.medium[a] == s.medium[a]
  }

  lemma ProgressKeepsQuiet(m: seq<byte>, s': State, s: State, j: nat, now: Stage)
    requires Progress(s', s, j, now) && |s.plans| == |s.reqs| && |s.medium| == |m| && Quiet(m, s)
    ensures Quiet(m, s')
  {
  }

  lemma ProgressKeepsOthers(m: seq<byte>, s': State, s: State, j: nat, now: Stage, i: nat)
    requires Progress(s', s, j, now) && |s.plans| == |s.reqs| && |s.medium| == |m| && Ordered(s)
    requires i < |s.plans| && i != j && RunOk(m, s, i)
    ensures RunOk(m, s', i)
  {
  }

  lemma ProgressKeepsInv(c: Config, m: seq<byte>, s': State, s: State, j: nat, now: Stage)
    requires Inv(c, m, s) && Progress(s', s, j, now) && RunOk(m, s', j)
    ensures Inv(c, m, s')
  {
    hide RunOk, Quiet, WriteOk;
    ProgressKeepsQuiet(m, s', s, j, now);
    forall i | 0 <= i < |s'.plans| ensures RunOk(m, s', i) {
      if i != j {
        ProgressKeepsOthers(m, s', s, j, now, i);
      }
    }
    forall k | 0 <= k < |s'.fences| && s'.fences[k].issued ensures FenceReady(s', s'.fences[k].before) {
      assert FenceReady(s, s.fences[k].before);
    }
  }

  /** The current window of a running write: inside the envelope, between two bounds. */
  lemma CurrentWindow(c: Config, s: State, j: nat)
    requires Shaped(c, s) && RunningAt(s, j)
    ensures var w, seg := Current(s, j), s.stages[j].segment;
            && Bound(s.plans[j], seg) == w.devOff && Bound(s.plans[j], seg + 1) == w.devOff + w.devLen
            && s.plans[j].begin <= w.devOff < w.devOff + w.devLen <= s.plans[j].end <= |s.medium|
            && s.reqs[j].off >= 0 && ExactPart(w, s.reqs[j].off, |s.reqs[j].data|)
            && w.bounceOff + w.userLen <= w.devLen && w.userOff + w.userLen <= |s.reqs[j].data|
            && (!w.readFirst ==> w.bounceOff == 0 && w.userLen == w.devLen)
  {
    hide PlanOk, SegmentOk;
    assert WriteOk(c, s.reqs[j], s.plans[j], |s.medium|);
    var plan, r, seg := s.plans[j], s.reqs[j], s.stages[j].segment;
    BoundStep(plan, seg, true, r.off, |r.data|, c.lba, c.limit);
    BoundsInside(plan, seg, true, r.off, |r.data|, c.lba, c.limit);
    BoundsInside(plan, seg + 1, true, r.off, |r.data|, c.lba, c.limit);
    AnySegmentOk(plan, seg, true, r.off, |r.data|, c.lba, c.limit);
    SegmentIsThere(plan.segments[seg], true, r.off, |r.data|, c.lba, c.limit);
  }

  lemma ReadHolds(c: Config, m: seq<byte>, s: State, j: nat)
    requires Inv(c, m, s) && RunningAt(s, j) && s.stages[j].phase.ReadInflight?
    ensures Current(s, j).devOff + Current(s, j).devLen <= |s.medium|
    ensures Holds(m, s.reqs, j, Window(s, j), Current(s, j).devOff, Current(s, j).devLen)
  {
    hide WriteOk, Ordered, Quiet, FencesOk, FencesBounded;
    CurrentWindow(c, s, j);
    assert RunOk(m, s, j);
    var w := Current(s, j);
    forall a | w.devOff <= a < w.devOff + w.devLen ensures Window(s, j)[a - w.devOff] == SeqValue(m, s.reqs, j, a) {
      assert ByteOk(m, s, j, a);
    }
  }

  lemma PatchHolds(c: Config, m: seq<byte>, s: State, j: nat, raw: seq<byte>)
    requires Inv(c, m, s) && RunningAt(s, j) && Holds(m, s.reqs, j, raw, Current(s, j).devOff, Current(s, j).devLen)
    ensures Patchable(Current(s, j), raw, s.reqs[j].data)
    ensures Holds(m, s.reqs, j + 1, WindowBytes(Current(s, j), raw, s.reqs[j].data), Current(s, j).devOff, Current(s, j).devLen)
  {
    hide WriteOk, Ordered, Quiet, FencesOk, FencesBounded, RunOk, WindowBytes;
    CurrentWindow(c, s, j);
    var w, r := Current(s, j), s.reqs[j];
    var buf, n := WindowBytes(w, raw, r.data), j + 1;
    forall a | w.devOff <= a < w.devOff + w.devLen ensures buf[a - w.devOff] == SeqValue(m, s.reqs, n, a) {
      WindowByte(w, raw, r.off, r.data, a);
    }
  }

  lemma WholeHolds(c: Config, m: seq<byte>, s: State, j: nat)
    requires Inv(c, m, s) && RunningAt(s, j) && !Current(s, j).readFirst
    ensures Current(s, j).userOff + Current(s, j).userLen <= |s.reqs[j].data|
    ensures var w := Current(s, j);
            Holds(m, s.reqs, j + 1, s.reqs[j].data[w.userOff..w.userOff + w.userLen], w.devOff, w.devLen)
  {
    hide WriteOk, Ordered, Quiet, FencesOk, FencesBounded, RunOk;
    CurrentWindow(c, s, j);
  }

  /** A phase change that leaves the medium alone. */
  lemma PhaseStep(c: Config, m: seq<byte>, s: State, j: nat, phase: Phase)
    requires Inv(c, m, s) && RunningAt(s, j) && !s.stages[j].phase.WriteInflight?
    requires var w := Current(s, j);
             && (phase.ReadDone? ==> Holds(m, s.reqs, j, phase.raw, w.devOff, w.devLen))
             && (phase.WriteReady? || phase.WriteInflight? ==> Holds(m, s.reqs, j + 1, phase.buf, w.devOff, w.devLen))
    ensures Inv(c, m, SetPhase(s, j, phase))
  {
    hide WriteOk, Ordered, Quiet, FencesOk, FencesBounded, Holds;
    var s' := SetPhase(s, j, phase);
    assert RunOk(m, s, j);
    forall a | 0 <= a < |m| && InEnvelope(s.plans[j], a) ensures ByteOk(m, s', j, a) {
      assert ByteOk(m, s, j, a);
    }
    ProgressKeepsInv(c, m, s', s, j, s'.stages[j]);
  }

  lemma DeviceWriteStep(c: Config, m: seq<byte>, s: State, j: nat, lo: nat, hi: nat)
    requires Inv(c, m, s) && Apply(c, s, DeviceWrite(j, lo, hi)).Some?
    ensures Inv(c, m, Apply(c, s, DeviceWrite(j, lo, hi)).value)
  {
    hide Ordered, Quiet, FencesOk, FencesBounded, WriteOk, PlanOk;
    CurrentWindow(c, s, j);
    assert RunOk(m, s, j);
    var s', w, buf := Apply(c, s, DeviceWrite(j, lo, hi)).value, Current(s, j), s.stages[j].phase.buf;
    forall a | 0 <= a < |m| && InEnvelope(s.plans[j], a) ensures ByteOk(m, s', j, a) {
      assert ByteOk(m, s, j, a);
      if w.devOff + lo <= a < w.devOff + hi {
        assert buf[lo..hi][a - (w.devOff + lo)] == buf[a - w.devOff];
      }
    }
    ProgressKeepsInv(c, m, s', s, j, s.stages[j]);
  }

  lemma WriteCompleteStep(c: Config, m: seq<byte>, s: State, j: nat)
    requires Inv(c, m, s) && Apply(c, s, WriteComplete(j)).Some?
    ensures Inv(c, m, Apply(c, s, WriteComplete(j)).value)
  {
    hide Ordered, Quiet, FencesOk, FencesBounded, WriteOk, PlanOk;
    CurrentWindow(c, s, j);
    assert RunOk(m, s, j);
    var s', w, buf := Apply(c, s, WriteComplete(j)).value, Current(s, j), s.stages[j].phase.buf;
    forall a | 0 <= a < |m| && InEnvelope(s.plans[j], a) ensures ByteOk(m, s', j, a) {
      assert ByteOk(m, s, j, a);
      if w.devOff <= a < w.devOff + w.devLen {
        assert s.medium[a] == Window(s, j)[a - w.devOff];
      }
    }
    ProgressKeepsInv(c, m, s', s, j, s'.stages[j]);
  }

  // ---- steps that change who may run ----

  lemma GrantedIsThrough(c: Config, m: seq<byte>, s: State, j: nat, a: nat)
    requires Inv(c, m, s) && j < |s.plans| && s.stages[j].Waiting? && Grantable(s, j) && InEnvelope(s.plans[j], a) && a < |m|
    ensures Through(s, j, a) && s.medium[a] == SeqValue(m, s.reqs, j, a)
  {
    hide WriteOk, FencesOk, FencesBounded, RunOk;
    forall i | j < i < |s.plans| && InEnvelope(s.plans[i], a) ensures Still(s.stages[i]) {
      assert Overlap(s.plans[j], s.plans[i]);
    }
    assert Through(s, j, a);
  }

  lemma GrantOrdered(s: State, s': State, j: nat)
    requires |s.plans| == |s.stages| && Ordered(s) && j < |s.plans| && s.stages[j].Waiting? && Grantable(s, j)
    requires s'.plans == s.plans && s'.stages == s.stages[j := Running(0, Ready)]
    ensures Ordered(s')
  {
  }

  lemma SameStageRunOk(m: seq<byte>, s: State, s': State, i: nat)
    requires i < |s.plans| && |s.plans| == |s.stages| == |s.reqs| && |s.medium| == |m| && RunOk(m, s, i)
    requires s'.plans == s.plans && s'.reqs == s.reqs && s'.medium == s.medium && |s'.stages| == |s.stages| && s'.stages[i] == s.stages[i]
    ensures RunOk(m, s', i)
  {
  }

  lemma GrantStep(c: Config, m: seq<byte>, s: State, j: nat)
    requires Inv(c, m, s) && Apply(c, s, Grant(j)).Some?
    ensures Inv(c, m, Apply(c, s, Grant(j)).value)
  {
    hide WriteOk, Ordered, ByteOk, RunOk, FenceReady;
    var s' := Apply(c, s, Grant(j)).value;
    GrantOrdered(s, s', j);
    forall n, a | 0 <= n <= |s'.reqs| && 0 <= a < |m| && Through(s', n, a) ensures s'.medium[a] == SeqValue(m, s'.reqs, n, a) {
      assert !InEnvelope(s'.plans[j], a);
      assert Through(s, n, a);
    }
    GrantRunOk(c, m, s, j);
    forall i | 0 <= i < |s'.plans| ensures RunOk(m, s', i) {
      if i != j {
        SameStageRunOk(m, s, s', i);
      }
    }
    FencesStay(s, s', j);
  }

  lemma GrantRunOk(c: Config, m: seq<byte>, s: State, j: nat)
    requires Inv(c, m, s) && Apply(c, s, Grant(j)).Some?
    ensures RunOk(m, Apply(c, s, Grant(j)).value, j)
  {
    hide Ordered, Quiet, FencesOk, FencesBounded, PlanOk;
    var s' := Apply(c, s, Grant(j)).value;
    var plan, r := s.plans[j], s.reqs[j];
    assert WriteOk(c, r, plan, |s.medium|);
    BoundsInside(plan, 0, true, r.off, |r.data|, c.lba, c.limit);
    forall a | 0 <= a < |m| && InEnvelope(s'.plans[j], a) ensures ByteOk(m, s', j, a) {
      GrantedIsThrough(c, m, s, j, a);
    }
  }

  lemma FencesStay(s: State, s': State, j: nat)
    requires FencesOk(s) && FencesBounded(s) && s'.fences == s.fences && j < |s.stages| && |s'.stages| == |s.stages|
    requires forall i :: 0 <= i < |s.stages| && s.stages[i].Complete? ==> s'.stages[i].Complete?
    ensures FencesOk(s') && FencesBounded(s')
  {
  }

  /** A write that has run all its segments leaves, at every byte of its envelope, what its ticket says. */
  lemma FinishedByte(c: Config, m: seq<byte>, s: State, j: nat, n: nat, a: nat)
    requires Inv(c, m, s) && Apply(c, s, Finish(j)).Some? && InEnvelope(s.plans[j], a) && a < |m|
    requires n <= |s.reqs| && Through(Apply(c, s, Finish(j)).value, n, a)
    ensures s.medium[a] == SeqValue(m, s.reqs, n, a)
  {
    hide Quiet, FencesOk, FencesBounded, WriteOk;
    var s' := Apply(c, s, Finish(j)).value;
    assert RunOk(m, s, j) && ByteOk(m, s, j, a);
    assert j < n;
    NothingBehind(c, m, s, s', j, n, a);
  }

  lemma EnvelopeCovers(c: Config, s: State, i: nat, a: nat)
    requires Shaped(c, s) && i < |s.reqs| && Asks(s.reqs[i], a)
    ensures InEnvelope(s.plans[i], a)
  {
  }

  lemma FinishStep(c: Config, m: seq<byte>, s: State, j: nat)
    requires Inv(c, m, s) && Apply(c, s, Finish(j)).Some?
    ensures Inv(c, m, Apply(c, s, Finish(j)).value)
  {
    hide WriteOk, ByteOk, RunOk, FenceReady;
    var s' := Apply(c, s, Finish(j)).value;
    forall n, a | 0 <= n <= |s'.reqs| && 0 <= a < |m| && Through(s', n, a) ensures s'.medium[a] == SeqValue(m, s'.reqs, n, a) {
      if InEnvelope(s.plans[j], a) {
        FinishedByte(c, m, s, j, n, a);
      } else {
        assert Through(s, n, a);
      }
    }
    forall i | 0 <= i < |s'.plans| ensures RunOk(m, s', i) {
      if i != j {
        SameStageRunOk(m, s, s', i);
      } else {
        CompleteRunOk(m, s', j);
      }
    }
    FencesStay(s, s', j);
  }

  lemma CompleteRunOk(m: seq<byte>, s: State, j: nat)
    requires j < |s.plans| && |s.plans| == |s.stages| == |s.reqs| && |s.medium| == |m| && !s.stages[j].Running?
    ensures RunOk(m, s, j)
  {
  }

  // ---- a write that fails ----

  /** Changing what write `j` puts changes nothing before `j`, and nothing where it asks for no byte. */
  lemma {:induction false} SeqValueElsewhere(m: seq<byte>, reqs: seq<Ask>, j: nat, r: Ask, n: nat, a: nat)
    requires j < |reqs| && n <= |reqs| && a < |m| && (n <= j || (!Takes(reqs[j], a) && !Takes(r, a)))
    ensures SeqValue(m, reqs[j := r], n, a) == SeqValue(m, reqs, n, a)
  {
    if n > 0 {
      SeqValueElsewhere(m, reqs, j, r, n - 1, a);
    }
  }

  lemma LaterIsStill(s: State, j: nat, i: nat, a: nat)
    requires |s.plans| == |s.stages| && Ordered(s) && j < i < |s.plans| && !s.stages[j].Complete?
    requires InEnvelope(s.plans[j], a) && InEnvelope(s.plans[i], a)
    ensures Still(s.stages[i])
  {
    assert Overlap(s.plans[j], s.plans[i]);
  }

  /** Behind a write that is not done, only writes that put nothing are complete. */
  lemma NothingBehind(c: Config, m: seq<byte>, s: State, s': State, j: nat, n: nat, a: nat)
    requires Inv(c, m, s) && j < n <= |s.reqs| && a < |m| && InEnvelope(s.plans[j], a) && !s.stages[j].Complete?
    requires |s'.reqs| == |s.reqs| == |s'.stages| && s'.plans == s.plans
    requires forall i :: 0 <= i < |s.reqs| && i != j ==> s'.reqs[i] == s.reqs[i] && s'.stages[i] == s.stages[i]
    requires Through(s', n, a)
    ensures SeqValue(m, s'.reqs, n, a) == SeqValue(m, s'.reqs, j + 1, a)
  {
    hide Quiet, FencesOk, FencesBounded, WriteOk, RunOk, Ordered;
    forall i | j + 1 <= i < n ensures !Takes(s'.reqs[i], a) {
      if Asks(s.reqs[i], a) {
        EnvelopeCovers(c, s, i, a);
        LaterIsStill(s, j, i, a);
        assert s'.stages[i].Complete?;
        assert Silent(s.reqs[i]);
      }
    }
    SeqValueSkips(m, s'.reqs, j + 1, n, a);
  }

  /** A write that fails while it runs has at each byte what was there before it, or what it puts. */
  lemma BrokenByte(c: Config, m: seq<byte>, s: State, j: nat, n: nat, a: nat)
    requires Inv(c, m, s) && Apply(c, s, Fail(j)).Some? && s.stages[j].Running? && InEnvelope(s.plans[j], a) && a < |m|
    requires n <= |s.reqs| && Through(Apply(c, s, Fail(j)).value, n, a)
    ensures s.medium[a] == SeqValue(m, Apply(c, s, Fail(j)).value.reqs, n, a)
  {
    hide Quiet, FencesOk, FencesBounded, WriteOk, Ordered;
    var s' := Apply(c, s, Fail(j)).value;
    assert RunOk(m, s, j) && ByteOk(m, s, j, a);
    assert j < n;
    SeqValueElsewhere(m, s.reqs, j, s'.reqs[j], j, a);
    NothingBehind(c, m, s, s', j, n, a);
  }

  lemma CancelledByte(c: Config, m: seq<byte>, s: State, j: nat, n: nat, a: nat)
    requires Inv(c, m, s) && Apply(c, s, Fail(j)).Some? && s.stages[j].Waiting? && InEnvelope(s.plans[j], a) && a < |m|
    requires n <= |s.reqs| && Through(Apply(c, s, Fail(j)).value, n, a)
    ensures s.medium[a] == SeqValue(m, Apply(c, s, Fail(j)).value.reqs, n, a)
  {
    hide FencesOk, FencesBounded, WriteOk, Ordered, RunOk, LossesOk;
    var s' := Apply(c, s, Fail(j)).value;
    var k := if n <= j then n else j;
    forall i | k <= i < |s.plans| && InEnvelope(s.plans[i], a) ensures Still(s.stages[i]) {
      if i > j {
        LaterIsStill(s, j, i, a);
      }
    }
    assert Through(s, k, a);
    SeqValueElsewhere(m, s.reqs, j, s'.reqs[j], k, a);
    if n > j {
      NothingBehind(c, m, s, s', j, n, a);
    }
  }

  lemma FailedSame(c: Config, m: seq<byte>, s: State, j: nat, n: nat, a: nat)
    requires Inv(c, m, s) && Apply(c, s, Fail(j)).Some? && a < |m| && n <= |s.reqs| && (n <= j || !InEnvelope(s.plans[j], a))
    ensures SeqValue(m, Apply(c, s, Fail(j)).value.reqs, n, a) == SeqValue(m, s.reqs, n, a)
  {
    hide Quiet, FencesOk, FencesBounded, WriteOk, RunOk, Ordered;
    if Asks(s.reqs[j], a) {
      EnvelopeCovers(c, s, j, a);
    }
    SeqValueElsewhere(m, s.reqs, j, Apply(c, s, Fail(j)).value.reqs[j], n, a);
  }

  lemma FailedHolds(c: Config, m: seq<byte>, s: State, j: nat, i: nat, n: nat, buf: seq<byte>)
    requires Inv(c, m, s) && Apply(c, s, Fail(j)).Some? && i != j && RunningAt(s, i) && i <= n <= i + 1
    requires Holds(m, s.reqs, n, buf, Current(s, i).devOff, Current(s, i).devLen)
    ensures Holds(m, Apply(c, s, Fail(j)).value.reqs, n, buf, Current(s, i).devOff, Current(s, i).devLen)
  {
    hide Quiet, FencesOk, FencesBounded, WriteOk, RunOk;
    CurrentWindow(c, s, i);
    var w := Current(s, i);
    forall a | w.devOff <= a < w.devOff + w.devLen
      ensures SeqValue(m, Apply(c, s, Fail(j)).value.reqs, n, a) == SeqValue(m, s.reqs, n, a)
    {
      FailedSame(c, m, s, j, n, a);
    }
  }

  lemma FailRunOk(c: Config, m: seq<byte>, s: State, j: nat, i: nat)
    requires Inv(c, m, s) && Apply(c, s, Fail(j)).Some? && i < |s.plans| && i != j && s.stages[i].Running?
    ensures RunOk(m, Apply(c, s, Fail(j)).value, i)
  {
    hide Quiet, FencesOk, FencesBounded, WriteOk, Holds;
    var s', phase := Apply(c, s, Fail(j)).value, s.stages[i].phase;
    assert RunOk(m, s, i);
    if RunningAt(s, i) {
      if phase.ReadDone? {
        FailedHolds(c, m, s, j, i, i, phase.raw);
      } else if phase.WriteReady? || phase.WriteInflight? {
        FailedHolds(c, m, s, j, i, i + 1, phase.buf);
      }
    }
    forall a | 0 <= a < |m| && InEnvelope(s'.plans[i], a) ensures ByteOk(m, s', i, a) {
      assert ByteOk(m, s, i, a);
      assert InEnvelope(s.plans[j], a) ==> i < j;
      FailedSame(c, m, s, j, i, a);
      FailedSame(c, m, s, j, i + 1, a);
    }
  }

  lemma FailStep(c: Config, m: seq<byte>, s: State, j: nat)
    requires Inv(c, m, s) && Apply(c, s, Fail(j)).Some?
    ensures Inv(c, m, Apply(c, s, Fail(j)).value)
  {
    hide WriteOk, ByteOk, RunOk, FenceReady;
    var s' := Apply(c, s, Fail(j)).value;
    forall n, a | 0 <= n <= |s'.reqs| && 0 <= a < |m| && Through(s', n, a) ensures s'.medium[a] == SeqValue(m, s'.reqs, n, a) {
      if InEnvelope(s.plans[j], a) {
        if s.stages[j].Running? {
          BrokenByte(c, m, s, j, n, a);
        } else {
          CancelledByte(c, m, s, j, n, a);
        }
      } else {
        assert Through(s, n, a);
        FailedSame(c, m, s, j, n, a);
      }
    }
    forall i | 0 <= i < |s'.plans| ensures RunOk(m, s', i) {
      if i != j && s.stages[i].Running? {
        FailRunOk(c, m, s, j, i);
      } else {
        CompleteRunOk(m, s', i);
      }
    }
    forall i | 0 <= i < |s'.reqs| ensures WriteOk(c, s'.reqs[i], s'.plans[i], |s'.medium|) {
      assert WriteOk(c, s.reqs[i], s.plans[i], |s.medium|);
      FailedOk(c, s.medium, s.reqs[i], s.plans[i], s.stages[j].Running?);
    }
    FencesStay(s, s', j);
  }

  lemma FailedOk(c: Config, medium: seq<byte>, r: Ask, plan: IoPlan, broken: bool)
    requires WriteOk(c, r, plan, |medium|)
    ensures r.off + |r.data| <= |medium| && WriteOk(c, Failed(medium, r, broken), plan, |medium|)
  {
  }

  // ---- new writes and flushes ----

  lemma HoldsMore(m: seq<byte>, reqs: seq<Ask>, more: seq<Ask>, n: nat, buf: seq<byte>, off: nat, len: nat)
    requires n <= |reqs| <= |more| && more[..|reqs|] == reqs && Holds(m, reqs, n, buf, off, len)
    ensures Holds(m, more, n, buf, off, len)
  {
    forall a | off <= a < off + len ensures buf[a - off] == SeqValue(m, more, n, a) {
      SeqValueMore(m, reqs, more, n, a);
    }
  }

  lemma AcceptRunOk(m: seq<byte>, s: State, s': State, j: nat)
    requires j < |s.plans| && |s.plans| == |s.stages| == |s.reqs| && |s.medium| == |m| && RunOk(m, s, j)
    requires |s'.plans| == |s'.stages| == |s'.reqs| == |s.reqs| + 1 && s'.medium == s.medium
    requires s'.plans[j] == s.plans[j] && s'.stages[j] == s.stages[j] && s'.reqs[..|s.reqs|] == s.reqs
    ensures RunOk(m, s', j)
  {
    hide Holds;
    if s.stages[j].Running? {
      var seg, phase := s.stages[j].segment, s.stages[j].phase;
      if seg < |s.plans[j].segments| {
        var w := s.plans[j].segments[seg];
        if phase.ReadDone? {
          HoldsMore(m, s.reqs, s'.reqs, j, phase.raw, w.devOff, w.devLen);
        } else if phase.WriteReady? || phase.WriteInflight? {
          HoldsMore(m, s.reqs, s'.reqs, j + 1, phase.buf, w.devOff, w.devLen);
        }
      }
      forall a | 0 <= a < |m| && InEnvelope(s'.plans[j], a) ensures ByteOk(m, s', j, a) {
        assert ByteOk(m, s, j, a);
        SeqValueMore(m, s.reqs, s'.reqs, j, a);
        SeqValueMore(m, s.reqs, s'.reqs, j + 1, a);
      }
    }
  }

  lemma AcceptQuiet(c: Config, m: seq<byte>, s: State, s': State, n: nat, a: nat)
    requires Inv(c, m, s) && Shaped(c, s') && |s'.reqs| == |s.reqs| + 1 && s'.medium == s.medium && n <= |s'.reqs| && a < |m|
    requires s'.plans[..|s.plans|] == s.plans && s'.stages[..|s.stages|] == s.stages && s'.reqs[..|s.reqs|] == s.reqs
    requires s'.stages[|s.reqs|].Waiting? && Through(s', n, a)
    ensures s.medium[a] == SeqValue(m, s'.reqs, n, a)
  {
    hide WriteOk, RunOk, Ordered, FencesOk, FencesBounded;
    var accepted := |s.reqs|;
    var k := if n <= accepted then n else accepted;
    assert forall i :: 0 <= i < accepted ==> s'.plans[i] == s.plans[i] && s'.stages[i] == s.stages[i] by {
      assert forall i :: 0 <= i < accepted ==> s'.plans[..accepted][i] == s'.plans[i] && s'.stages[..accepted][i] == s'.stages[i];
    }
    assert Through(s, k, a);
    SeqValueMore(m, s.reqs, s'.reqs, k, a);
    if n > accepted && Takes(s'.reqs[accepted], a) {
      EnvelopeCovers(c, s', accepted, a);
    }
  }

  lemma AcceptStep(c: Config, m: seq<byte>, s: State, req: Req, plan: IoPlan)
    requires Inv(c, m, s) && Apply(c, s, Accept(req, plan)).Some?
    ensures Inv(c, m, Apply(c, s, Accept(req, plan)).value)
  {
    hide WriteOk, RunOk;
    var s' := Apply(c, s, Accept(req, plan)).value;
    assert Shaped(c, s');
    forall n, a | 0 <= n <= |s'.reqs| && 0 <= a < |m| && Through(s', n, a) ensures s'.medium[a] == SeqValue(m, s'.reqs, n, a) {
      AcceptQuiet(c, m, s, s', n, a);
    }
    forall j | 0 <= j < |s'.plans| ensures RunOk(m, s', j) {
      if j < |s.plans| {
        AcceptRunOk(m, s, s', j);
      } else {
        CompleteRunOk(m, s', j);
      }
    }
    forall k | 0 <= k < |s'.fences| && s'.fences[k].issued ensures FenceReady(s', s'.fences[k].before) {
      assert FenceReady(s, s.fences[k].before);
    }
  }

  lemma FlushStep(c: Config, m: seq<byte>, s: State, e: Event)
    requires Inv(c, m, s) && (e.SubmitFlush? || e.IssueFlush?) && Apply(c, s, e).Some?
    ensures Inv(c, m, Apply(c, s, e).value)
  {
    hide WriteOk, RunOk, Ordered, Quiet;
    var s' := Apply(c, s, e).value;
    assert Quiet(m, s') && Ordered(s') by { OnlyFences(m, s, s'); }
    forall j | 0 <= j < |s'.plans| ensures RunOk(m, s', j) {
      SameStageRunOk(m, s, s', j);
    }
    forall k | 0 <= k < |s'.fences| && s'.fences[k].issued ensures FenceReady(s', s'.fences[k].before) {
      if k < |s.fences| && s.fences[k].issued {
        assert FenceReady(s, s.fences[k].before);
      }
    }
  }

  lemma OnlyFences(m: seq<byte>, s: State, s': State)
    requires |s.plans| == |s.stages| == |s.reqs| && |s.medium| == |m| && Ordered(s) && Quiet(m, s) && s' == s.(fences := s'.fences)
    ensures Ordered(s') && Quiet(m, s')
  {
  }

  lemma PhaseEvents(c: Config, m: seq<byte>, s: State, e: Event)
    requires Inv(c, m, s) && (e.SubmitRead? || e.DeviceRead? || e.ReadComplete? || e.SubmitWrite?) && Apply(c, s, e).Some?
    ensures Inv(c, m, Apply(c, s, e).value)
  {
    hide WriteOk, Ordered, Quiet, FencesOk, FencesBounded, Holds, ByteOk;
    var j := e.j;
    assert RunOk(m, s, j);
    match e
    case SubmitRead(_) =>
      PhaseStep(c, m, s, j, ReadInflight);
    case DeviceRead(_) =>
      ReadHolds(c, m, s, j);
      PhaseStep(c, m, s, j, ReadDone(Window(s, j)));
    case ReadComplete(_) =>
      PatchHolds(c, m, s, j, s.stages[j].phase.raw);
      PhaseStep(c, m, s, j, WriteReady(WindowBytes(Current(s, j), s.stages[j].phase.raw, s.reqs[j].data)));
    case SubmitWrite(_) =>
      if s.stages[j].phase.WriteReady? {
        PhaseStep(c, m, s, j, WriteInflight(s.stages[j].phase.buf));
      } else {
        WholeHolds(c, m, s, j);
        PhaseStep(c, m, s, j, WriteInflight(s.reqs[j].data[Current(s, j).userOff..Current(s, j).userOff + Current(s, j).userLen]));
      }
  }

  /** Every step keeps the invariant. */
  lemma StepKeepsInv(c: Config, m: seq<byte>, s: State, e: Event)
    requires Inv(c, m, s) && Apply(c, s, e).Some?
    ensures Inv(c, m, Apply(c, s, e).value)
  {
    match e
    case Accept(req, plan) => AcceptStep(c, m, s, req, plan);
    case Grant(j) => GrantStep(c, m, s, j);
    case DeviceWrite(j, lo, hi) => DeviceWriteStep(c, m, s, j, lo, hi);
    case WriteComplete(j) => WriteCompleteStep(c, m, s, j);
    case Finish(j) => FinishStep(c, m, s, j);
    case Fail(j) => FailStep(c, m, s, j);
    case SubmitFlush => FlushStep(c, m, s, e);
    case IssueFlush(_) => FlushStep(c, m, s, e);
    case _ => PhaseEvents(c, m, s, e);
  }

  // ---- whole runs ----

  function Start(m: seq<byte>): State {
    State(m, [], [], [], [])
  }

  /** The state after a run, if every step of it was possible. */
  ghost function Run(c: Config, m: seq<byte>, events: seq<Event>): Option<State> {
    if events == [] then Some(Start(m))
    else
      var before := Run(c, m, events[..|events| - 1]);
      if before.Some? && Shaped(c, before.value) then Apply(c, before.value, events[|events| - 1]) else None
  }

  lemma {:induction false} RunKeepsInv(c: Config, m: seq<byte>, events: seq<Event>)
    requires Run(c, m, events).Some?
    ensures Inv(c, m, Run(c, m, events).value)
  {
    if events == [] {
      StartInv(c, m);
    } else {
      hide Inv, Apply, Shaped;
      RunKeepsInv(c, m, events[..|events| - 1]);
      var s := Run(c, m, events[..|events| - 1]).value;
      assert Shaped(c, s) by { InvShaped(c, m, s); }
      StepKeepsInv(c, m, s, events[|events| - 1]);
    }
  }

  lemma StartInv(c: Config, m: seq<byte>)
    ensures Inv(c, m, Start(m))
  {
  }

  lemma InvShaped(c: Config, m: seq<byte>, s: State)
    requires Inv(c, m, s)
    ensures Shaped(c, s)
  {
  }

  lemma RequestsInBounds(c: Config, s: State, i: nat)
    requires Shaped(c, s) && i < |s.reqs|
    ensures InBounds(Req(s.reqs[i].off, s.reqs[i].data), |s.medium|)
  {
    assert WriteOk(c, s.reqs[i], s.plans[i], |s.medium|);
  }

  // ---- what the events say ----

  /** The requests that were submitted, in order. */
  function Submitted(events: seq<Event>): seq<Req> {
    if events == [] then []
    else
      var e := events[|events| - 1];
      Submitted(events[..|events| - 1]) + if e.Accept? then [e.req] else []
  }

  /** For each flush that was submitted, how many requests were submitted before it. */
  function FlushPoints(events: seq<Event>): seq<nat> {
    if events == [] then []
    else FlushPoints(events[..|events| - 1]) + if events[|events| - 1].SubmitFlush? then [|Submitted(events[..|events| - 1])|] else []
  }

  predicate FailsIn(events: seq<Event>, j: nat) {
    Fail(j) in events
  }

  ghost predicate SameRequests(s: State, submitted: seq<Req>) {
    && |s.reqs| == |s.stages| == |submitted|
    && forall j :: 0 <= j < |s.reqs| ==> s.reqs[j].off == submitted[j].off && s.reqs[j].data == submitted[j].data
  }

  ghost predicate FailuresAsked(s: State, events: seq<Event>) {
    forall j :: 0 <= j < |s.stages| && (s.stages[j] == Complete(Broken) || s.stages[j] == Complete(Cancelled)) ==> FailsIn(events, j)
  }

  ghost predicate SameFlushes(s: State, points: seq<nat>) {
    |s.fences| == |points| && forall k :: 0 <= k < |s.fences| ==> s.fences[k].before == points[k]
  }

  ghost predicate AsSubmitted(s: State, events: seq<Event>) {
    SameRequests(s, Submitted(events)) && FailuresAsked(s, events) && SameFlushes(s, FlushPoints(events))
  }

  lemma RequestsStep(c: Config, s: State, e: Event)
    requires Shaped(c, s) && Apply(c, s, e).Some?
    ensures var s' := Apply(c, s, e).value;
            if e.Accept? then |s'.reqs| == |s.reqs| + 1 && s'.reqs[..|s.reqs|] == s.reqs && ReqOf(s'.reqs[|s.reqs|]) == e.req
            else |s'.reqs| == |s.reqs| && forall j :: 0 <= j < |s.reqs| ==> ReqOf(s'.reqs[j]) == ReqOf(s.reqs[j])
  {
    hide WriteOk, Grantable, FenceReady;
  }

  function ReqOf(r: Ask): Req {
    Req(r.off, r.data)
  }

  lemma StagesStep(c: Config, s: State, e: Event)
    requires Shaped(c, s) && Apply(c, s, e).Some?
    ensures var s' := Apply(c, s, e).value;
            && |s'.stages| == |s'.reqs|
            && forall j :: 0 <= j < |s'.stages| && (s'.stages[j] == Complete(Broken) || s'.stages[j] == Complete(Cancelled)) ==>
                 e == Fail(j) || (j < |s.stages| && s.stages[j] == s'.stages[j])
  {
    hide WriteOk, Grantable, FenceReady;
  }

  lemma FencesStep(c: Config, s: State, e: Event)
    requires Shaped(c, s) && Apply(c, s, e).Some?
    ensures var s' := Apply(c, s, e).value;
            if e.SubmitFlush? then s'.fences == s.fences + [Fence(|s.reqs|, false)]
            else |s'.fences| == |s.fences| && forall k :: 0 <= k < |s.fences| ==> s'.fences[k].before == s.fences[k].before
  {
    hide WriteOk, Grantable, FenceReady;
  }

  lemma StepAsSubmitted(c: Config, s: State, events: seq<Event>, e: Event)
    requires Shaped(c, s) && AsSubmitted(s, events) && Apply(c, s, e).Some?
    ensures AsSubmitted(Apply(c, s, e).value, events + [e])
  {
    hide Apply, Shaped;
    var s', all := Apply(c, s, e).value, events + [e];
    assert all[..|events|] == events;
    RequestsStep(c, s, e);
    StagesStep(c, s, e);
    FencesStep(c, s, e);
    assert forall j :: 0 <= j < |s.reqs| ==> ReqOf(s'.reqs[j]) == ReqOf(s.reqs[j]) by {
      assert e.Accept? ==> forall j :: 0 <= j < |s.reqs| ==> s'.reqs[..|s.reqs|][j] == s'.reqs[j];
    }
    forall j | 0 <= j < |s'.stages| && (s'.stages[j] == Complete(Broken) || s'.stages[j] == Complete(Cancelled)) ensures FailsIn(all, j) {
      assert e == Fail(j) || FailsIn(events, j);
    }
  }

  /** In every run: the machine works on the requests that were submitted, and only those that failed did fail. */
  lemma {:induction false} RunAsSubmitted(c: Config, m: seq<byte>, events: seq<Event>)
    requires Run(c, m, events).Some?
    ensures AsSubmitted(Run(c, m, events).value, events)
  {
    if events != [] {
      hide Apply, Shaped, AsSubmitted;
      var front := events[..|events| - 1];
      RunAsSubmitted(c, m, front);
      StepAsSubmitted(c, Run(c, m, front).value, front, events[|events| - 1]);
      assert front + [events[|events| - 1]] == events;
    }
  }

  /** Whatever the pollers and the device did, and whichever writes failed on the way: when every accepted write is done, the
      medium is the one that the writes leave one after the other in ticket order, one that failed while it ran with some of
      its bytes, one that failed before with none, and every other one with all of them. */
  lemma EveryRunIsSerial(c: Config, m: seq<byte>, events: seq<Event>)
    requires Run(c, m, events).Some?
    requires var s := Run(c, m, events).value; forall j :: 0 <= j < |s.stages| ==> s.stages[j].Complete?
    ensures var s := Run(c, m, events).value;
            && s.medium == Serial(m, s.reqs) && |s.stages| == |s.reqs| == |Submitted(events)|
            && forall j :: 0 <= j < |s.reqs| ==>
                 && s.reqs[j].off == Submitted(events)[j].off && s.reqs[j].data == Submitted(events)[j].data
                 && (Fail(j) !in events ==> s.reqs[j].lost == {})
                 && (s.stages[j] == Complete(Cancelled) ==> Silent(s.reqs[j]))
  {
    hide Run, RunOk, Ordered, FencesOk, WriteOk, Submitted, FlushPoints;
    RunKeepsInv(c, m, events);
    RunAsSubmitted(c, m, events);
    var s := Run(c, m, events).value;
    var n := |s.reqs|;
    forall a | 0 <= a < |m| ensures s.medium[a] == Serial(m, s.reqs)[a] {
      assert Through(s, n, a);
      SeqValueIsSerial(m, s.reqs, n, a);
      assert s.reqs[..n] == s.reqs;
    }
  }

  /** If none failed, that is the submitted writes one after the other. */
  lemma RunWithoutFailures(c: Config, m: seq<byte>, events: seq<Event>)
    requires Run(c, m, events).Some? && forall j :: Fail(j) !in events
    requires var s := Run(c, m, events).value; forall j :: 0 <= j < |s.stages| ==> s.stages[j].Complete?
    ensures AllInBounds(Submitted(events), |m|) && Run(c, m, events).value.medium == PutAll(m, Submitted(events))
  {
    hide Run, RunOk, Ordered, FencesOk, WriteOk, Quiet, FencesBounded, Serial, PutAll, Submitted, FlushPoints;
    RunKeepsInv(c, m, events);
    EveryRunIsSerial(c, m, events);
    var s := Run(c, m, events).value;
    assert Plain(s.reqs) == Submitted(events);
    forall i | 0 <= i < |s.reqs| ensures s.reqs[i].lost == {} && InBounds(Submitted(events)[i], |m|) {
      RequestsInBounds(c, s, i);
    }
    SerialIsPutAll(m, s.reqs);
  }

  /** A flush reaches the device only after every write submitted before it is complete or has failed. */
  lemma FlushFollowsItsWrites(c: Config, m: seq<byte>, events: seq<Event>, k: nat, j: nat)
    requires Run(c, m, events).Some? && k < |FlushPoints(events)| && IssueFlush(k) in events && j < FlushPoints(events)[k]
    ensures var s := Run(c, m, events).value; j < |s.stages| && s.stages[j].Complete?
  {
    hide Run, RunOk, Ordered, WriteOk, Quiet, FlushPoints, Submitted;
    RunKeepsInv(c, m, events);
    RunAsSubmitted(c, m, events);
    IssuedIsIssued(c, m, events, k);
    var s := Run(c, m, events).value;
    assert FenceReady(s, s.fences[k].before);
  }

  lemma {:induction false} IssuedIsIssued(c: Config, m: seq<byte>, events: seq<Event>, k: nat)
    requires Run(c, m, events).Some? && IssueFlush(k) in events
    ensures var s := Run(c, m, events).value; k < |s.fences| && s.fences[k].issued
  {
    hide WriteOk, Grantable, FenceReady;
    var front, e := events[..|events| - 1], events[|events| - 1];
    assert events == front + [e];
    if e != IssueFlush(k) {
      IssuedIsIssued(c, m, front, k);
    }
  }

  // ---- nothing gets stuck ----

  /** A write that waits can be granted exactly if its window shares no byte with that of an earlier write that is not over. */
  lemma GrantedExactly(c: Config, s: State, j: nat)
    requires Shaped(c, s) && j < |s.stages|
    ensures Apply(c, s, Grant(j)).Some? <==>
              s.stages[j].Waiting? && forall i :: 0 <= i < j && !s.stages[i].Complete? ==>
                s.plans[i].end <= s.plans[j].begin || s.plans[j].end <= s.plans[i].begin
  {
    hide WriteOk;
  }

  /** Every write with a plan that fits on the device is taken, and every flush. */
  lemma AcceptsWhatFits(c: Config, s: State, req: Req, plan: IoPlan)
    requires Shaped(c, s) && c.lba > 0 && 0 <= req.off && req.data != []
    requires PlanOk(plan, true, req.off, |req.data|, c.lba, c.limit) && plan.end <= |s.medium|
    ensures Apply(c, s, Accept(req, plan)).Some? && Apply(c, s, SubmitFlush).Some?
  {
    hide PlanOk;
  }

  /** A write can fail at any time until it is over. */
  lemma FailsAtAnyTime(c: Config, s: State, j: nat)
    requires Shaped(c, s)
    ensures Apply(c, s, Fail(j)).Some? <==> j < |s.stages| && !s.stages[j].Complete?
  {
    hide WriteOk;
  }

  /** In every run a flush can be issued exactly when every write submitted before it is over. */
  lemma FlushedExactly(c: Config, m: seq<byte>, events: seq<Event>, k: nat)
    requires Run(c, m, events).Some? && k < |FlushPoints(events)|
    ensures var s := Run(c, m, events).value;
            Shaped(c, s) && (Apply(c, s, IssueFlush(k)).Some? <==> forall j :: 0 <= j < |s.stages| && j < FlushPoints(events)[k] ==> s.stages[j].Complete?)
  {
    hide Run, Inv, FlushPoints, Submitted, WriteOk;
    RunKeepsInv(c, m, events);
    InvShaped(c, m, Run(c, m, events).value);
    RunAsSubmitted(c, m, events);
  }

  function Rank(phase: Phase): nat {
    match phase
    case Ready => 5
    case ReadInflight => 4
    case ReadDone(_) => 3
    case WriteReady(_) => 2
    case WriteInflight(_) => 1
  }

  /** Steps that a write still needs. */
  function ToGo(stage: Stage, plan: IoPlan): nat {
    match stage
    case Waiting => |plan.segments| * 5 + 2
    case Running(segment, phase) =>
      if segment < |plan.segments| then (|plan.segments| - segment - 1) * 5 + Rank(phase) + 1 else 1
    case Complete(_) => 0
  }

  function AllToGo(s: State, n: nat): nat
    requires n <= |s.stages| && n <= |s.plans|
  {
    if n == 0 then 0 else AllToGo(s, n - 1) + ToGo(s.stages[n - 1], s.plans[n - 1])
  }

  lemma {:induction false} LessToGo(s: State, s': State, j: nat, n: nat)
    requires j < |s.stages| == |s.plans| && n <= |s.stages| && s'.plans == s.plans && |s'.stages| == |s.stages|
    requires forall i :: 0 <= i < |s.stages| && i != j ==> s'.stages[i] == s.stages[i]
    ensures AllToGo(s', n) - AllToGo(s, n) == if j < n then ToGo(s'.stages[j], s.plans[j]) - ToGo(s.stages[j], s.plans[j]) else 0
  {
    if n > 0 {
      LessToGo(s, s', j, n - 1);
    }
  }

  lemma {:induction false} FirstToGo(s: State, n: nat) returns (j: nat)
    requires n <= |s.stages| == |s.plans| && exists i :: 0 <= i < n && !s.stages[i].Complete?
    ensures j < n && !s.stages[j].Complete? && forall i :: 0 <= i < j ==> s.stages[i].Complete?
  {
    if i :| 0 <= i < n - 1 && !s.stages[i].Complete? {
      j := FirstToGo(s, n - 1);
    } else {
      j := n - 1;
    }
  }

  /** The oldest write that is not over can take its next step, or, with its write at the device, two. */
  lemma OldestCanGoOn(c: Config, m: seq<byte>, s: State, j: nat) returns (e: Event)
    requires Inv(c, m, s) && j < |s.stages| && !s.stages[j].Complete? && forall i :: 0 <= i < j ==> s.stages[i].Complete?
    requires !(RunningAt(s, j) && s.stages[j].phase.WriteInflight?)
    ensures !e.Accept? && !e.Fail? && !e.SubmitFlush? && !e.IssueFlush? && Apply(c, s, e).Some?
    ensures var s' := Apply(c, s, e).value;
            && s'.plans == s.plans && |s'.stages| == |s.stages| && (forall i :: 0 <= i < |s.stages| && i != j ==> s'.stages[i] == s.stages[i])
            && ToGo(s'.stages[j], s.plans[j]) < ToGo(s.stages[j], s.plans[j])
  {
    hide WriteOk, Ordered, Quiet, FencesOk, FencesBounded, LossesOk, Holds, ByteOk;
    assert RunOk(m, s, j);
    if s.stages[j].Waiting? {
      e := Grant(j);
    } else if s.stages[j].segment == |s.plans[j].segments| {
      e := Finish(j);
    } else {
      CurrentWindow(c, s, j);
      var w := Current(s, j);
      match s.stages[j].phase
      case Ready => e := if w.readFirst then SubmitRead(j) else SubmitWrite(j);
      case ReadInflight => e := DeviceRead(j);
      case ReadDone(raw) =>
        PatchHolds(c, m, s, j, raw);
        e := ReadComplete(j);
      case WriteReady(_) => e := SubmitWrite(j);
    }
  }

  lemma WriteLands(c: Config, m: seq<byte>, s: State, j: nat)
    requires Inv(c, m, s) && RunningAt(s, j) && s.stages[j].phase.WriteInflight?
    ensures var e := DeviceWrite(j, 0, |s.stages[j].phase.buf|);
            && Apply(c, s, e).Some? && Inv(c, m, Apply(c, s, e).value)
            && var s1 := Apply(c, s, e).value;
               && s1.plans == s.plans && s1.stages == s.stages && Apply(c, s1, WriteComplete(j)).Some?
               && Apply(c, s1, WriteComplete(j)).value.plans == s.plans
               && Apply(c, s1, WriteComplete(j)).value.stages == s.stages[j := Running(s.stages[j].segment + 1, Ready)]
  {
    hide WriteOk, Ordered, Quiet, FencesOk, FencesBounded, LossesOk, ByteOk;
    assert RunOk(m, s, j);
    CurrentWindow(c, s, j);
    var buf, e := s.stages[j].phase.buf, DeviceWrite(j, 0, |s.stages[j].phase.buf|);
    assert buf[0..|buf|] == buf;
    var s1 := Apply(c, s, e).value;
    DeviceWriteStep(c, m, s, j, 0, |buf|);
    assert Window(s1, j) == buf;
  }

  lemma RunOneMore(c: Config, m: seq<byte>, events: seq<Event>, e: Event)
    requires Run(c, m, events).Some? && Shaped(c, Run(c, m, events).value) && Apply(c, Run(c, m, events).value, e).Some?
    ensures Run(c, m, events + [e]) == Apply(c, Run(c, m, events).value, e)
  {
    assert (events + [e])[..|events|] == events;
  }

  lemma OneTurn(c: Config, m: seq<byte>, events: seq<Event>) returns (turn: seq<Event>)
    requires Run(c, m, events).Some?
    requires var s := Run(c, m, events).value; exists j :: 0 <= j < |s.stages| && !s.stages[j].Complete?
    ensures Run(c, m, events + turn).Some? && forall i :: 0 <= i < |turn| ==> !turn[i].Accept? && !turn[i].Fail?
    ensures var s, s' := Run(c, m, events).value, Run(c, m, events + turn).value;
            && |s.stages| == |s.plans| && |s'.stages| == |s'.plans| && AllToGo(s', |s'.stages|) < AllToGo(s, |s.stages|)
  {
    hide Run, Apply, Inv, ToGo, AllToGo;
    RunKeepsInv(c, m, events);
    var s := Run(c, m, events).value;
    InvShaped(c, m, s);
    var j := FirstToGo(s, |s.stages|);
    if RunningAt(s, j) && s.stages[j].phase.WriteInflight? {
      WriteLands(c, m, s, j);
      var e := DeviceWrite(j, 0, |s.stages[j].phase.buf|);
      RunOneMore(c, m, events, e);
      var s1 := Apply(c, s, e).value;
      InvShaped(c, m, s1);
      RunOneMore(c, m, events + [e], WriteComplete(j));
      LessToGo(s, Apply(c, s1, WriteComplete(j)).value, j, |s.stages|);
      NextSegmentIsLess(s, j);
      turn := [e, WriteComplete(j)];
      assert events + turn == events + [e] + [WriteComplete(j)];
    } else {
      var e := OldestCanGoOn(c, m, s, j);
      RunOneMore(c, m, events, e);
      LessToGo(s, Apply(c, s, e).value, j, |s.stages|);
      turn := [e];
    }
  }

  lemma NextSegmentIsLess(s: State, j: nat)
    requires RunningAt(s, j) && s.stages[j].phase.WriteInflight?
    ensures ToGo(Running(s.stages[j].segment + 1, Ready), s.plans[j]) < ToGo(s.stages[j], s.plans[j])
  {
  }

  /** However a run has gone, the writes that are not over can all be brought to their end, without a new write and without a
      failure. */
  lemma {:induction false} EveryRunCanComplete(c: Config, m: seq<byte>, events: seq<Event>) returns (rest: seq<Event>)
    requires Run(c, m, events).Some?
    ensures Run(c, m, events + rest).Some? && forall i :: 0 <= i < |rest| ==> !rest[i].Accept? && !rest[i].Fail?
    ensures var s := Run(c, m, events + rest).value; forall j :: 0 <= j < |s.stages| ==> s.stages[j].Complete?
    decreases var s := Run(c, m, events).value; if |s.stages| == |s.plans| then AllToGo(s, |s.stages|) else 0
  {
    hide Run, AllToGo;
    var s := Run(c, m, events).value;
    if forall j :: 0 <= j < |s.stages| ==> s.stages[j].Complete? {
      rest := [];
      assert events + rest == events;
    } else {
      var turn := OneTurn(c, m, events);
      var more := EveryRunCanComplete(c, m, events + turn);
      rest := turn + more;
      assert events + rest == events + turn + more;
    }
  }
}
