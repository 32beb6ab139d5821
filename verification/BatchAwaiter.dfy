/** A batch of device requests awaited by one coroutine: merged where adjacent, resumed exactly once. */
module BatchAwaiter {
  import opened Media

  // ---- merging adjacent requests ----

  const MAX_ADDRESS: nat := 0xFFFF_FFFF_FFFF_FFFF
  const MAX_MERGED: nat := 262144

  datatype Transfer = Transfer(offset: nat, buffer: nat, length: nat)

  /** The request moves the byte between device offset `o` and address `b`. */
  predicate Moves(t: Transfer, o: nat, b: nat) {
    t.offset <= o < t.offset + t.length && b - t.buffer == o - t.offset
  }

  /** A transfer moves exactly its bytes, each to its own place in the buffer. */
  lemma MovesExactly(t: Transfer, i: nat, o: nat, b: nat)
    ensures i < t.length <==> Moves(t, t.offset + i, t.buffer + i)
    ensures Moves(t, o, b) ==> t.offset <= o && b == t.buffer + (o - t.offset)
  {
  }

  ghost predicate AnyMoves(ts: seq<Transfer>, o: nat, b: nat) {
    exists i :: 0 <= i < |ts| && Moves(ts[i], o, b)
  }

  function TotalLength(ts: seq<Transfer>): nat {
    if ts == [] then 0 else TotalLength(ts[..|ts| - 1]) + ts[|ts| - 1].length
  }

  predicate Adjacent(p: Transfer, t: Transfer) {
    && t.length != 0
    && p.offset + p.length <= MAX_ADDRESS && p.offset + p.length == t.offset
    && p.buffer + p.length <= MAX_ADDRESS && p.buffer + p.length == t.buffer
    && t.length <= MAX_MERGED && p.length + t.length <= MAX_MERGED
  }

  /** Merging changes how many requests there are, never which byte goes where. */
  method AppendMerged(ts: seq<Transfer>, t: Transfer) returns (r: seq<Transfer>)
    ensures forall o, b :: AnyMoves(r, o, b) <==> AnyMoves(ts, o, b) || Moves(t, o, b)
    ensures TotalLength(r) == TotalLength(ts) + t.length
    ensures var p := if ts == [] then Transfer(0, 0, 0) else ts[|ts| - 1];
            var joins := ts != [] && t.length > 0 && p.length + t.length <= 262144
                         && p.offset + p.length == t.offset <= 0xFFFF_FFFF_FFFF_FFFF && p.buffer + p.length == t.buffer <= 0xFFFF_FFFF_FFFF_FFFF;
            |r| == if joins then |ts| else |ts| + 1
    ensures (forall i :: 0 <= i < |ts| ==> ts[i].length <= MAX_MERGED) && t.length <= MAX_MERGED ==>
              forall i :: 0 <= i < |r| ==> r[i].length <= MAX_MERGED
  {
    if ts != [] && Adjacent(ts[|ts| - 1], t) {
      var last := ts[|ts| - 1];
      r := ts[|ts| - 1 := last.(length := last.length + t.length)];
      MergedMoves(ts, t, r);
      assert r[..|r| - 1] == ts[..|ts| - 1];
    } else {
      r := ts + [t];
      assert r[..|r| - 1] == ts;
      forall o, b ensures AnyMoves(r, o, b) <==> AnyMoves(ts, o, b) || Moves(t, o, b) {
        AppendedMoves(ts, t, o, b);
      }
    }
  }

  lemma AppendedMoves(ts: seq<Transfer>, t: Transfer, o: nat, b: nat)
    ensures AnyMoves(ts + [t], o, b) <==> AnyMoves(ts, o, b) || Moves(t, o, b)
  {
    var r := ts + [t];
    if AnyMoves(ts, o, b) {
      var i :| 0 <= i < |ts| && Moves(ts[i], o, b);
      assert r[i] == ts[i];
    }
    if Moves(t, o, b) {
      assert r[|ts|] == t;
    }
  }

  lemma MergedMoves(ts: seq<Transfer>, t: Transfer, r: seq<Transfer>)
    requires ts != [] && Adjacent(ts[|ts| - 1], t)
    requires r == ts[|ts| - 1 := ts[|ts| - 1].(length := ts[|ts| - 1].length + t.length)]
    ensures forall o, b :: AnyMoves(r, o, b) <==> AnyMoves(ts, o, b) || Moves(t, o, b)
  {
    var k := |ts| - 1;
    forall o, b ensures AnyMoves(r, o, b) <==> AnyMoves(ts, o, b) || Moves(t, o, b) {
      assert Moves(r[k], o, b) <==> Moves(ts[k], o, b) || Moves(t, o, b);
      assert forall i :: 0 <= i < k ==> r[i] == ts[i];
    }
  }

  // ---- waiting for the batch ----

  const EIO: int := 5

  /** The requests of the batch: submitted up to `next`, `inflight` at the device, `done` completed; the counter starts at
      one, a sentinel that the coroutine gives up after its submissions. */
  datatype Tally = Tally(lengths: seq<nat>, next: nat, inflight: set<nat>, done: set<nat>, outstanding: int, sentinel: bool)

  /** The first error and the bytes of the requests that had none. */
  datatype Outcome = Outcome(error: int, bytes: nat)

  datatype Shared = Submitting | Suspended | Completed

  /** Where the awaiting coroutine is: submitting, about to give up its sentinel, about to suspend, or done with it. */
  datatype Waiter = Looping | Breaking | Exchanging | Parked | Continued

  /** `last` is the completion that found itself the last one, before its exchange; `lastDone` says it has made it. */
  datatype Handover = Handover(shared: Shared, waiter: Waiter, last: bool, lastDone: bool, scheduled: nat, crashed: bool)

  datatype State = State(t: Tally, o: Outcome, h: Handover)

  datatype Event =
    | Submit
    | SubmitFails(code: int)
    | EndLoop
    | DropSentinel
    | Suspend
    | Complete(k: nat, code: int, got: nat)
    | LastExchange

  ghost predicate Enabled(s: State, e: Event) {
    match e
    case Submit => s.h.waiter.Looping? && s.t.next < |s.t.lengths|
    case SubmitFails(code) => s.h.waiter.Looping? && s.t.next < |s.t.lengths| && code != 0
    case EndLoop => s.h.waiter.Looping? && s.t.next == |s.t.lengths|
    case DropSentinel => s.h.waiter.Breaking?
    case Suspend => s.h.waiter.Exchanging?
    case Complete(k, code, got) => k in s.t.inflight && k < |s.t.lengths|
    case LastExchange => s.h.last
  }

  function Submitted(t: Tally): Tally {
    t.(next := t.next + 1, inflight := t.inflight + {t.next}, outstanding := t.outstanding + 1)
  }

  function Finished(t: Tally, k: nat): Tally {
    t.(inflight := t.inflight - {k}, done := t.done + {k}, outstanding := t.outstanding - 1)
  }

  function Dropped(t: Tally): Tally {
    t.(outstanding := t.outstanding - 1, sentinel := false)
  }

  function Recorded(o: Outcome, code: int): Outcome {
    if o.error == 0 then o.(error := code) else o
  }

  /** A short transfer counts as an error. */
  function Accounted(o: Outcome, expected: nat, code: int, got: nat): Outcome {
    if code == 0 && got == expected then o.(bytes := o.bytes + got)
    else Recorded(o, if code == 0 then EIO else code)
  }

  function Suspending(h: Handover): Handover {
    match h.shared
    case Completed => h.(shared := Suspended, waiter := Continued)
    case Submitting => h.(shared := Suspended, waiter := Parked)
    case Suspended => h.(crashed := true)
  }

  function LastExchanging(h: Handover): Handover {
    var h' := h.(shared := Completed, last := false, lastDone := true);
    match h.shared
    case Submitting => h'
    case Suspended => h'.(scheduled := h'.scheduled + 1)
    case Completed => h'.(crashed := true)
  }

  function Next(s: State, e: Event): State
    requires e.Complete? ==> e.k < |s.t.lengths|
  {
    match e
    case Submit => s.(t := Submitted(s.t))
    case SubmitFails(code) => s.(o := Recorded(s.o, code), h := s.h.(waiter := Breaking))
    case EndLoop => s.(h := s.h.(waiter := Breaking))
    case DropSentinel =>
      s.(t := Dropped(s.t),
         h := if s.t.outstanding == 1 then s.h.(shared := Completed, waiter := Continued) else s.h.(waiter := Exchanging))
    case Suspend => s.(h := Suspending(s.h))
    case Complete(k, code, got) =>
      State(Finished(s.t, k), Accounted(s.o, s.t.lengths[k], code, got), s.h.(last := s.t.outstanding == 1))
    case LastExchange => s.(h := LastExchanging(s.h))
  }

  function Start(lengths: seq<nat>): State {
    State(Tally(lengths, 0, {}, {}, 1, true), Outcome(0, 0), Handover(Submitting, Looping, false, false, 0, false))
  }

  // ---- the invariant ----

  ghost function Summed(lengths: seq<nat>, done: set<nat>, n: nat): nat
    requires n <= |lengths|
  {
    if n == 0 then 0 else Summed(lengths, done, n - 1) + if n - 1 in done then lengths[n - 1] else 0
  }

  function Total(lengths: seq<nat>, n: nat): nat
    requires n <= |lengths|
  {
    if n == 0 then 0 else Total(lengths, n - 1) + lengths[n - 1]
  }

  lemma {:induction false} AllSummed(lengths: seq<nat>, done: set<nat>, n: nat)
    requires n <= |lengths| && forall k :: 0 <= k < |lengths| ==> k in done
    ensures Summed(lengths, done, n) == Total(lengths, n)
  {
    if n > 0 {
      AllSummed(lengths, done, n - 1);
    }
  }

  lemma {:induction false} SummedMore(lengths: seq<nat>, done: set<nat>, k: nat, n: nat)
    requires n <= |lengths| && k < |lengths| && k !in done
    ensures Summed(lengths, done + {k}, n) == Summed(lengths, done, n) + if k < n then lengths[k] else 0
  {
    if n > 0 {
      SummedMore(lengths, done, k, n - 1);
    }
  }

  lemma {:induction false} NothingSummed(lengths: seq<nat>, n: nat)
    requires n <= |lengths|
    ensures Summed(lengths, {}, n) == 0
  {
    if n > 0 {
      NothingSummed(lengths, n - 1);
    }
  }

  /** The counter is the requests at the device plus the sentinel. */
  ghost predicate TallyOk(t: Tally) {
    && t.outstanding == |t.inflight| + (if t.sentinel then 1 else 0)
    && t.next <= |t.lengths|
    && (forall k :: k in t.inflight ==> k < t.next)
    && (forall k :: k in t.done ==> k < t.next)
    && (forall k :: 0 <= k < t.next ==> (k in t.inflight || k in t.done))
    && t.inflight !! t.done
  }

  ghost predicate OutcomeOk(t: Tally, o: Outcome) {
    o.error == 0 ==> o.bytes == Summed(t.lengths, t.done, |t.lengths|)
  }

  /** Who has touched the shared state so far decides who resumes the coroutine. */
  ghost predicate HandoverOk(h: Handover, idle: bool) {
    && !h.crashed
    && (h.waiter.Looping? || h.waiter.Breaking? ==> !h.last && !h.lastDone && h.shared.Submitting? && h.scheduled == 0)
    && (h.last || h.lastDone ==> idle && !(h.last && h.lastDone))
    && (h.waiter.Exchanging? ==> h.shared == (if h.lastDone then Completed else Submitting) && h.scheduled == 0)
    && (h.waiter.Parked? ==> h.shared == (if h.lastDone then Completed else Suspended) && h.scheduled == (if h.lastDone then 1 else 0))
    && (h.waiter.Continued? ==> h.scheduled == 0 && !h.last && idle)
    && (h.waiter.Exchanging? || h.waiter.Parked? ==> !idle || h.last || h.lastDone)
  }

  ghost predicate Inv(s: State) {
    && TallyOk(s.t) && OutcomeOk(s.t, s.o) && HandoverOk(s.h, s.t.inflight == {})
    && (s.t.sentinel <==> s.h.waiter.Looping? || s.h.waiter.Breaking?)
    && (s.h.waiter.Looping? || s.t.next == |s.t.lengths| || s.o.error != 0)
  }

  lemma TallyKeeps(t: Tally, k: nat)
    requires TallyOk(t)
    ensures t.next < |t.lengths| ==> TallyOk(Submitted(t)) && Submitted(t).inflight != {}
    ensures k in t.inflight ==> TallyOk(Finished(t, k)) && k !in t.done && k < |t.lengths|
    ensures k in t.inflight ==> (Finished(t, k).inflight == {} <==> t.outstanding == if t.sentinel then 2 else 1)
    ensures t.sentinel ==> TallyOk(Dropped(t)) && (t.inflight == {} <==> t.outstanding == 1)
  {
    if t.next < |t.lengths| {
      assert |t.inflight + {t.next}| == |t.inflight| + 1;
      assert t.next in t.inflight + {t.next};
    }
    if k in t.inflight {
      assert |t.inflight - {k}| == |t.inflight| - 1;
    }
  }

  lemma OutcomeKeeps(t: Tally, o: Outcome, k: nat, code: int, got: nat)
    requires OutcomeOk(t, o) && k < |t.lengths| && k !in t.done
    ensures OutcomeOk(Finished(t, k), Accounted(o, t.lengths[k], code, got))
  {
    SummedMore(t.lengths, t.done, k, |t.lengths|);
  }

  lemma WaiterStep(s: State, e: Event)
    requires Inv(s) && Enabled(s, e) && (e.Submit? || e.SubmitFails? || e.EndLoop? || e.Suspend? || e.LastExchange?)
    ensures Inv(Next(s, e))
  {
    hide TallyOk, Summed;
    TallyKeeps(s.t, 0);
  }

  lemma DropStep(s: State)
    requires Inv(s) && Enabled(s, DropSentinel)
    ensures Inv(Next(s, DropSentinel))
  {
  }

  lemma CompleteHandover(h: Handover, idle: bool, last: bool)
    requires HandoverOk(h, false) && (last ==> idle && !h.waiter.Looping? && !h.waiter.Breaking?)
    requires idle && (h.waiter.Exchanging? || h.waiter.Parked?) ==> last
    ensures HandoverOk(h.(last := last), idle)
  {
  }

  lemma CompleteStep(s: State, k: nat, code: int, got: nat)
    requires Inv(s) && Enabled(s, Complete(k, code, got))
    ensures Inv(Next(s, Complete(k, code, got)))
  {
    hide TallyOk, OutcomeOk, HandoverOk;
    TallyKeeps(s.t, k);
    OutcomeKeeps(s.t, s.o, k, code, got);
    CompleteHandover(s.h, Finished(s.t, k).inflight == {}, s.t.outstanding == 1);
  }

  lemma StepKeepsInv(s: State, e: Event)
    requires Inv(s) && Enabled(s, e)
    ensures Inv(Next(s, e))
  {
    hide Inv;
    match e
    case Complete(k, code, got) => CompleteStep(s, k, code, got);
    case DropSentinel => DropStep(s);
    case _ => WaiterStep(s, e);
  }

  // ---- runs ----

  ghost predicate CanRun(s: State, events: seq<Event>)
    decreases |events|
  {
    events == [] || (Enabled(s, events[0]) && CanRun(Next(s, events[0]), events[1..]))
  }

  ghost function Run(s: State, events: seq<Event>): State
    requires CanRun(s, events)
    decreases |events|
  {
    if events == [] then s else Run(Next(s, events[0]), events[1..])
  }

  lemma {:induction false} RunKeepsInv(s: State, events: seq<Event>)
    requires Inv(s) && CanRun(s, events)
    ensures Inv(Run(s, events))
    decreases |events|
  {
    hide Inv;
    if events != [] {
      StepKeepsInv(s, events[0]);
      RunKeepsInv(Next(s, events[0]), events[1..]);
    }
  }

  // ---- what the events say ----

  /** The error of a request: that of its submission, of its completion, or EIO for a short transfer. */
  function ErrorOf(lengths: seq<nat>, e: Event): int {
    match e
    case SubmitFails(code) => code
    case Complete(k, code, got) => if code != 0 then code else if k < |lengths| && got != lengths[k] then 5 else 0
    case _ => 0
  }

  /** The first error of the run after `before`, 0 if every submission and every completion was a success in full. */
  function FirstError(lengths: seq<nat>, events: seq<Event>, before: int): int
    decreases |events|
  {
    if events == [] then before else FirstError(lengths, events[1..], if before != 0 then before else ErrorOf(lengths, events[0]))
  }

  lemma {:induction false} ErrorIsTheFirst(s: State, events: seq<Event>)
    requires CanRun(s, events)
    ensures Run(s, events).t.lengths == s.t.lengths && Run(s, events).o.error == FirstError(s.t.lengths, events, s.o.error)
    decreases |events|
  {
    if events != [] {
      ErrorIsTheFirst(Next(s, events[0]), events[1..]);
    }
  }

  lemma {:induction false} NoErrorExactly(lengths: seq<nat>, events: seq<Event>)
    ensures FirstError(lengths, events, 0) == 0 <==> forall i :: 0 <= i < |events| ==> ErrorOf(lengths, events[i]) == 0
    decreases |events|
  {
    if events != [] {
      NoErrorExactly(lengths, events[1..]);
      if ErrorOf(lengths, events[0]) != 0 {
        KeepsFirst(lengths, events[1..], ErrorOf(lengths, events[0]));
      } else {
        assert forall i :: 1 <= i < |events| ==> events[i] == events[1..][i - 1];
      }
    }
  }

  lemma {:induction false} KeepsFirst(lengths: seq<nat>, events: seq<Event>, before: int)
    requires before != 0
    ensures FirstError(lengths, events, before) == before
    decreases |events|
  {
    if events != [] {
      KeepsFirst(lengths, events[1..], before);
    }
  }

  /** Nothing more can happen to the batch. */
  ghost predicate Over(s: State) {
    (s.h.waiter.Parked? || s.h.waiter.Continued?) && s.t.inflight == {} && !s.h.last
  }

  /** Times the coroutine has been let go on: by its own await, or by being scheduled. */
  ghost function Resumptions(s: State): nat {
    s.h.scheduled + if s.h.waiter.Continued? then 1 else 0
  }

  lemma StartInv(lengths: seq<nat>)
    ensures Inv(Start(lengths))
  {
    NothingSummed(lengths, |lengths|);
  }

  /** A batch can rest exactly when it is over: until then some step is possible. */
  lemma RestsExactlyWhenOver(s: State)
    requires Inv(s)
    ensures (forall e :: !Enabled(s, e)) <==> Over(s)
  {
    if s.t.inflight != {} {
      var k :| k in s.t.inflight;
      assert Enabled(s, Complete(k, 0, 0));
    } else if s.h.last {
      assert Enabled(s, LastExchange);
    } else if s.h.waiter.Looping? {
      assert Enabled(s, Submit) || Enabled(s, EndLoop);
    } else if s.h.waiter.Breaking? {
      assert Enabled(s, DropSentinel);
    } else if s.h.waiter.Exchanging? {
      assert Enabled(s, Suspend);
    }
  }

  /** The device decides: a submission may fail with any error, a request in flight may complete with any outcome. */
  lemma AnyOutcomeIsPossible(s: State, k: nat, code: int, got: nat)
    ensures s.h.waiter.Looping? && s.t.next < |s.t.lengths| && code != 0 ==> Enabled(s, SubmitFails(code)) && Enabled(s, Submit)
    ensures k in s.t.inflight && k < |s.t.lengths| ==> Enabled(s, Complete(k, code, got))
  {
  }

  function StepsLeft(s: State): int {
    (|s.t.lengths| - s.t.next) * 3 + |s.t.inflight| * 2 + (if s.h.last then 1 else 0)
    + match s.h.waiter case Looping => 5 case Breaking => 4 case Exchanging => 1 case _ => 0
  }

  /** Every step brings the batch nearer to its end. */
  lemma StepsRunOut(s: State, e: Event)
    requires Inv(s) && Enabled(s, e)
    ensures 0 <= StepsLeft(Next(s, e)) < StepsLeft(s)
  {
    StepKeepsInv(s, e);
    if e.Complete? {
      assert |s.t.inflight - {e.k}| == |s.t.inflight| - 1;
    }
    if e.Submit? {
      assert s.t.next !in s.t.inflight;
    }
  }

  /** However submissions and completions interleave: the coroutine goes on exactly once, the hand-over never fails, and
      the answer is the first error of the run, or, if there is none, every request is complete and all its bytes are counted. */
  lemma ResumedExactlyOnce(lengths: seq<nat>, events: seq<Event>)
    requires CanRun(Start(lengths), events)
    ensures var s := Run(Start(lengths), events);
            && !s.h.crashed && Resumptions(s) <= 1 && s.o.error == FirstError(lengths, events, 0)
            && (Resumptions(s) == 1 ==> s.t.inflight == {} && !s.t.sentinel)
            && (Over(s) ==> Resumptions(s) == 1)
            && (Over(s) && s.o.error == 0 ==> (forall k :: 0 <= k < |lengths| ==> k in s.t.done) && s.o.bytes == Total(lengths, |lengths|))
  {
    hide Run, CanRun;
    StartInv(lengths);
    RunKeepsInv(Start(lengths), events);
    ErrorIsTheFirst(Start(lengths), events);
    var s := Run(Start(lengths), events);
    if Over(s) && s.o.error == 0 {
      AllSummed(lengths, s.t.done, |lengths|);
    }
  }
}
