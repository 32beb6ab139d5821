/** Closing the scheduler: what a final close guarantees, and what a worker risks that leaves on a tentative one. */
module RuntimeClose {
  import opened Arithmetic
  import opened Media

  // ---- schedule calls, root submissions, and the closing worker ----

  /** A schedule call: past the first admission check, counted, past the second check or turned away by it; then the item it
      has queued, and the item being resumed. */
  datatype Phase = Admitted | Counted | Cleared | Rejected | Queued | Resumed

  /** An item on its way to worker `target`; a root submission names its root. */
  datatype Item = Item(phase: Phase, target: nat, root: Option<nat>)

  /** A root submission: counted as a submitter; let through or refused by the accepting flag; counted as pending too;
      pending alone; inside its schedule call; failed; running as a root. */
  datatype Root = Raised | Passed | Refused | Both | Pending | Calling(id: nat) | Failing | Live(id: nat)

  /** The loads of the closing worker, one after the other, before and after it closes. */
  datatype Closer = Idle | SawStop | SawSubmitters | SawPending | Checked | Swapped | AgainPending | AgainSubmitters | TakingBack | Final

  datatype Gate = Gate(accepting: bool, stop: bool, closed: bool, closer: Closer)

  datatype Tally = Tally(submitters: int, pending: int, count: int)

  /** `looked` are the workers that found nothing to run and will look at the closed flag next, `left` those whose loop has
      ended. */
  datatype Workers = Workers(looked: set<nat>, left: set<nat>)

  /** What callers were told, schedule calls and root submissions that succeeded, and what came of them. */
  datatype Log = Log(accepted: set<nat>, resumed: multiset<nat>, submitted: set<nat>, completed: set<nat>)

  datatype State = State(gate: Gate, tally: Tally, items: map<nat, Item>, roots: map<nat, Root>, workers: Workers, log: Log)

  datatype Event =
    | StopAccepting | RequestStop
    | Raise(r: nat) | LookAccepting(r: nat) | NoMemory(r: nat) | DropRefused(r: nat) | RaisePending(r: nat)
    | DropSubmitter(r: nat) | NotScheduled(r: nat) | DropPending(r: nat) | CompleteRoot(r: nat)
    | Admit(id: nat, target: nat, root: Option<nat>) | Count(id: nat) | Recheck(id: nat) | Uncount(id: nat) | Push(id: nat)
    | Resume(id: nat) | Finish(id: nat)
    | Look(w: nat) | Stay(w: nat) | Leave(w: nat)
    | CloserStep

  predicate In(s: State, id: nat, phase: Phase) {
    id in s.items && s.items[id].phase == phase
  }

  predicate RootIn(s: State, r: nat, root: Root) {
    r in s.roots && s.roots[r] == root
  }

  /** Worker `w` has an item in this phase. */
  ghost predicate Has(s: State, w: nat, phase: Phase) {
    exists id :: In(s, id, phase) && s.items[id].target == w
  }

  ghost predicate Enabled(s: State, e: Event) {
    match e
    case StopAccepting => true
    case RequestStop => !s.gate.accepting
    case Raise(r) => r !in s.roots && r !in s.log.submitted
    case LookAccepting(r) => RootIn(s, r, Raised)
    case NoMemory(r) => RootIn(s, r, Passed)
    case DropRefused(r) => RootIn(s, r, Refused)
    case RaisePending(r) => RootIn(s, r, Passed)
    case DropSubmitter(r) => RootIn(s, r, Both)
    case NotScheduled(r) => RootIn(s, r, Pending)
    case DropPending(r) => RootIn(s, r, Failing)
    case CompleteRoot(r) => r in s.roots && s.roots[r].Live? && s.log.resumed[s.roots[r].id] > 0
    case Admit(id, target, root) =>
      !s.gate.closed && id !in s.items && id !in s.log.accepted && (root.Some? ==> RootIn(s, root.value, Pending))
    case Count(id) => In(s, id, Admitted)
    case Recheck(id) => In(s, id, Counted)
    case Uncount(id) => In(s, id, Rejected)
    case Push(id) => In(s, id, Cleared)
    case Resume(id) => In(s, id, Queued) && Free(s, s.items[id].target) && !Has(s, s.items[id].target, Resumed)
    case Finish(id) => In(s, id, Resumed)
    case Look(w) => Free(s, w) && !Has(s, w, Queued) && !Has(s, w, Resumed)
    case Stay(w) => w in s.workers.looked
    case Leave(w) => w in s.workers.looked && s.gate.closed && (w == 0 ==> s.gate.closer.Final?)
    case CloserStep => !s.gate.closer.Final? && (s.gate.closer.Idle? ==> s.gate.stop)
  }

  predicate Free(s: State, w: nat) {
    w !in s.workers.left && w !in s.workers.looked
  }

  function SetPhase(items: map<nat, Item>, id: nat, phase: Phase): map<nat, Item> {
    if id in items then items[id := items[id].(phase := phase)] else items
  }

  function NextItems(s: State, e: Event): map<nat, Item> {
    match e
    case Admit(id, target, root) => s.items[id := Item(Admitted, target, root)]
    case Count(id) => SetPhase(s.items, id, Counted)
    case Recheck(id) => SetPhase(s.items, id, if s.gate.closed then Rejected else Cleared)
    case Uncount(id) => s.items - {id}
    case Push(id) => SetPhase(s.items, id, Queued)
    case Resume(id) => SetPhase(s.items, id, Resumed)
    case Finish(id) => s.items - {id}
    case _ => s.items
  }

  /** The root of item `id`, if it has one. */
  function Owner(s: State, id: nat): Option<nat> {
    if id in s.items then s.items[id].root else None
  }

  function Turned(roots: map<nat, Root>, r: Option<nat>, root: Root): map<nat, Root> {
    if r.Some? then roots[r.value := root] else roots
  }

  function NextRoots(s: State, e: Event): map<nat, Root> {
    match e
    case Raise(r) => s.roots[r := Raised]
    case LookAccepting(r) => s.roots[r := if s.gate.accepting then Passed else Refused]
    case NoMemory(r) => s.roots[r := Refused]
    case DropRefused(r) => s.roots - {r}
    case RaisePending(r) => s.roots[r := Both]
    case DropSubmitter(r) => s.roots[r := Pending]
    case NotScheduled(r) => s.roots[r := Failing]
    case DropPending(r) => s.roots - {r}
    case CompleteRoot(r) => s.roots - {r}
    case Admit(id, _, root) => Turned(s.roots, root, Calling(id))
    case Uncount(id) => Turned(s.roots, Owner(s, id), Failing)
    case Push(id) => Turned(s.roots, Owner(s, id), Live(id))
    case _ => s.roots
  }

  function NextTally(t: Tally, e: Event): Tally {
    match e
    case Raise(_) => t.(submitters := t.submitters + 1)
    case DropRefused(_) => t.(submitters := t.submitters - 1)
    case RaisePending(_) => t.(pending := t.pending + 1)
    case DropSubmitter(_) => t.(submitters := t.submitters - 1)
    case DropPending(_) => t.(pending := t.pending - 1)
    case CompleteRoot(_) => t.(pending := t.pending - 1)
    case Count(_) => t.(count := t.count + 1)
    case Uncount(_) => t.(count := t.count - 1)
    case Finish(_) => t.(count := t.count - 1)
    case _ => t
  }

  /** The next load, swap or store of the closing worker. */
  function Closing(g: Gate, t: Tally): Gate {
    match g.closer
    case Idle => g.(closer := SawStop)
    case SawStop => g.(closer := if t.submitters == 0 then SawSubmitters else Idle)
    case SawSubmitters => g.(closer := if t.pending == 0 then SawPending else Idle)
    case SawPending => g.(closer := if t.count == 0 then Checked else Idle)
    case Checked => g.(closed := true, closer := Swapped)
    case Swapped => g.(closer := if t.pending == 0 then AgainPending else TakingBack)
    case AgainPending => g.(closer := if t.submitters == 0 then AgainSubmitters else TakingBack)
    case AgainSubmitters => g.(closer := if t.count == 0 then Final else TakingBack)
    case TakingBack => g.(closed := false, closer := Idle)
    case Final => g
  }

  function NextGate(s: State, e: Event): Gate {
    match e
    case StopAccepting => s.gate.(accepting := false)
    case RequestStop => s.gate.(stop := true)
    case CloserStep => Closing(s.gate, s.tally)
    case _ => s.gate
  }

  function NextWorkers(ws: Workers, e: Event): Workers {
    match e
    case Look(w) => ws.(looked := ws.looked + {w})
    case Stay(w) => ws.(looked := ws.looked - {w})
    case Leave(w) => Workers(ws.looked - {w}, ws.left + {w})
    case _ => ws
  }

  function NextLog(s: State, e: Event): Log {
    match e
    case Push(id) =>
      s.log.(accepted := s.log.accepted + {id},
             submitted := if Owner(s, id).Some? then s.log.submitted + {Owner(s, id).value} else s.log.submitted)
    case Resume(id) => s.log.(resumed := s.log.resumed + multiset{id})
    case CompleteRoot(r) => s.log.(completed := s.log.completed + {r})
    case _ => s.log
  }

  function Next(s: State, e: Event): State {
    State(NextGate(s, e), NextTally(s.tally, e), NextItems(s, e), NextRoots(s, e), NextWorkers(s.workers, e), NextLog(s, e))
  }

  function Start(): State {
    State(Gate(true, false, false, Idle), Tally(0, 0, 0), map[], map[], Workers({}, {}), Log({}, multiset{}, {}, {}))
  }

  // ---- the invariant ----

  predicate IsSubmitter(root: Root) {
    root.Raised? || root.Passed? || root.Refused? || root.Both?
  }

  predicate IsPending(root: Root) {
    root.Both? || root.Pending? || root.Calling? || root.Failing? || root.Live?
  }

  ghost function CountedIds(items: map<nat, Item>): set<nat> {
    set id | id in items && !items[id].phase.Admitted?
  }

  ghost function SubmitterIds(roots: map<nat, Root>): set<nat> {
    set r | r in roots && IsSubmitter(roots[r])
  }

  ghost function PendingIds(roots: map<nat, Root>): set<nat> {
    set r | r in roots && IsPending(roots[r])
  }

  ghost predicate ItemCountOk(t: Tally, items: map<nat, Item>) {
    t.count == |CountedIds(items)|
  }

  ghost predicate RootCountOk(t: Tally, roots: map<nat, Root>) {
    t.submitters == |SubmitterIds(roots)| && t.pending == |PendingIds(roots)|
  }

  /** The closer has seen, after the stop, that nobody was submitting. */
  predicate PastSubmitters(closer: Closer) {
    !closer.Idle? && !closer.SawStop?
  }

  predicate PastPending(closer: Closer) {
    PastSubmitters(closer) && !closer.SawSubmitters?
  }

  predicate Closed(closer: Closer) {
    closer.Swapped? || closer.AgainPending? || closer.AgainSubmitters? || closer.TakingBack? || closer.Final?
  }

  /** No submission is behind the accepting check and not yet pending. */
  ghost predicate NobodyPassed(roots: map<nat, Root>) {
    forall r :: r in roots ==> !roots[r].Passed? && !roots[r].Both?
  }

  ghost predicate NobodyPending(roots: map<nat, Root>) {
    forall r :: r in roots ==> !IsPending(roots[r])
  }

  predicate GateOk(g: Gate) {
    (g.closed <==> Closed(g.closer)) && (g.stop ==> !g.accepting) && (!g.closer.Idle? ==> g.stop)
  }

  ghost predicate RootsOk(closer: Closer, roots: map<nat, Root>) {
    (PastSubmitters(closer) ==> NobodyPassed(roots)) && (PastPending(closer) ==> NobodyPending(roots))
  }

  /** After the final close a schedule call can only find that it is too late. */
  ghost predicate ItemsOk(closer: Closer, items: map<nat, Item>) {
    closer.Final? ==> forall id :: id in items ==> items[id].phase.Admitted? || items[id].phase.Counted? || items[id].phase.Rejected?
  }

  predicate Answered(phase: Phase) {
    phase.Queued? || phase.Resumed?
  }

  /** A schedule call made for a root, and the root inside that call, name each other. */
  ghost predicate CallOk(s: State, id: nat) {
    id in s.items && !Answered(s.items[id].phase) && s.items[id].root.Some? ==> RootIn(s, s.items[id].root.value, Calling(id))
  }

  ghost predicate ItemLedger(s: State, id: nat) {
    && (id in s.items ==> (id in s.log.accepted <==> Answered(s.items[id].phase)))
    && s.log.resumed[id] == if id in s.log.accepted && !In(s, id, Queued) then 1 else 0
  }

  ghost predicate RootLedger(s: State, r: nat) {
    && (r in s.log.submitted <==> r in s.log.completed || (r in s.roots && s.roots[r].Live?))
    && (r in s.log.completed ==> r !in s.roots)
  }

  ghost predicate Inv(s: State) {
    && ItemCountOk(s.tally, s.items) && RootCountOk(s.tally, s.roots)
    && GateOk(s.gate) && RootsOk(s.gate.closer, s.roots) && ItemsOk(s.gate.closer, s.items)
    && (forall id :: CallOk(s, id))
    && (forall id :: ItemLedger(s, id))
    && (forall r :: RootLedger(s, r))
  }

  // ---- every step keeps it ----

  predicate CountsAt(items: map<nat, Item>, id: nat) {
    id in items && !items[id].phase.Admitted?
  }

  predicate SubmitsAt(roots: map<nat, Root>, r: nat) {
    r in roots && IsSubmitter(roots[r])
  }

  predicate PendsAt(roots: map<nat, Root>, r: nat) {
    r in roots && IsPending(roots[r])
  }

  lemma ItemChanged(items: map<nat, Item>, items': map<nat, Item>, id: nat)
    requires forall j :: j != id ==> (j in items' <==> j in items) && (j in items ==> items'[j] == items[j])
    ensures |CountedIds(items')| == |CountedIds(items)| + One(CountsAt(items', id)) - One(CountsAt(items, id))
  {
    OneChanged(CountedIds(items), CountedIds(items'), id);
  }

  lemma RootChanged(roots: map<nat, Root>, roots': map<nat, Root>, r: nat)
    requires forall q :: q != r ==> (q in roots' <==> q in roots) && (q in roots ==> roots'[q] == roots[q])
    ensures |SubmitterIds(roots')| == |SubmitterIds(roots)| + One(SubmitsAt(roots', r)) - One(SubmitsAt(roots, r))
    ensures |PendingIds(roots')| == |PendingIds(roots)| + One(PendsAt(roots', r)) - One(PendsAt(roots, r))
  {
    OneChanged(SubmitterIds(roots), SubmitterIds(roots'), r);
    OneChanged(PendingIds(roots), PendingIds(roots'), r);
  }

  /** The item and the root an event is about. */
  function ItemOf(e: Event): nat {
    match e
    case Admit(id, _, _) => id
    case Count(id) => id
    case Recheck(id) => id
    case Uncount(id) => id
    case Push(id) => id
    case Resume(id) => id
    case Finish(id) => id
    case _ => 0
  }

  function RootOf(s: State, e: Event): nat {
    match e
    case Raise(r) => r
    case LookAccepting(r) => r
    case NoMemory(r) => r
    case DropRefused(r) => r
    case RaisePending(r) => r
    case DropSubmitter(r) => r
    case NotScheduled(r) => r
    case DropPending(r) => r
    case CompleteRoot(r) => r
    case Admit(_, _, root) => if root.Some? then root.value else 0
    case Uncount(id) => if id in s.items && s.items[id].root.Some? then s.items[id].root.value else 0
    case Push(id) => if id in s.items && s.items[id].root.Some? then s.items[id].root.value else 0
    case _ => 0
  }

  lemma StepKeepsItemCount(s: State, e: Event)
    requires ItemCountOk(s.tally, s.items) && Enabled(s, e)
    ensures ItemCountOk(Next(s, e).tally, Next(s, e).items)
  {
    hide CountedIds, NextGate, NextRoots, NextWorkers, NextLog, RootOf, Has;
    ItemChanged(s.items, NextItems(s, e), ItemOf(e));
  }

  lemma StepKeepsRootCount(s: State, e: Event)
    requires RootCountOk(s.tally, s.roots) && Enabled(s, e) && CallOk(s, ItemOf(e))
    ensures RootCountOk(Next(s, e).tally, Next(s, e).roots)
  {
    hide SubmitterIds, PendingIds, NextGate, NextItems, NextWorkers, NextLog, Has;
    RootChanged(s.roots, NextRoots(s, e), RootOf(s, e));
  }

  lemma NobodyCounted(t: Tally, items: map<nat, Item>, roots: map<nat, Root>)
    requires ItemCountOk(t, items) && RootCountOk(t, roots)
    ensures t.submitters == 0 ==> NobodyPassed(roots)
    ensures t.pending == 0 ==> NobodyPending(roots)
    ensures t.count == 0 ==> forall id :: id in items ==> items[id].phase.Admitted?
  {
    assert forall q :: q in roots && IsSubmitter(roots[q]) ==> q in SubmitterIds(roots);
    assert forall q :: q in roots && IsPending(roots[q]) ==> q in PendingIds(roots);
    assert forall j :: j in items && !items[j].phase.Admitted? ==> j in CountedIds(items);
  }

  lemma StepKeepsGate(s: State, e: Event)
    requires GateOk(s.gate) && Enabled(s, e)
    ensures GateOk(Next(s, e).gate)
  {
    hide NextItems, NextRoots, NextTally, NextWorkers, NextLog, Has;
  }

  lemma CloserKeepsRest(s: State)
    requires Inv(s) && Enabled(s, CloserStep)
    ensures RootsOk(Next(s, CloserStep).gate.closer, s.roots) && ItemsOk(Next(s, CloserStep).gate.closer, s.items)
  {
    NobodyCounted(s.tally, s.items, s.roots);
  }

  lemma StepKeepsRootsOk(s: State, e: Event)
    requires Inv(s) && Enabled(s, e) && !e.CloserStep?
    ensures RootsOk(s.gate.closer, NextRoots(s, e))
  {
    hide ItemCountOk, RootCountOk, ItemsOk, ItemLedger, RootLedger, Has, Closed;
    assert CallOk(s, ItemOf(e));
  }

  lemma StepKeepsItemsOk(s: State, e: Event)
    requires GateOk(s.gate) && ItemsOk(s.gate.closer, s.items) && Enabled(s, e) && !e.CloserStep?
    ensures ItemsOk(s.gate.closer, NextItems(s, e))
  {
    hide Has;
  }

  lemma StepKeepsCalls(s: State, e: Event, id: nat)
    requires Enabled(s, e) && CallOk(s, id) && CallOk(s, ItemOf(e))
    ensures CallOk(Next(s, e), id)
  {
    hide NextTally, NextGate, NextWorkers, NextLog, Has;
  }

  lemma StepKeepsItems(s: State, e: Event, id: nat)
    requires Enabled(s, e) && ItemLedger(s, id)
    ensures ItemLedger(Next(s, e), id)
  {
    hide NextTally, NextGate, NextWorkers, NextRoots, Has;
  }

  lemma StepKeepsRoots(s: State, e: Event, r: nat)
    requires Enabled(s, e) && RootLedger(s, r) && CallOk(s, ItemOf(e))
    ensures RootLedger(Next(s, e), r)
  {
    hide NextTally, NextGate, NextWorkers, NextItems, Has;
  }

  lemma CloserMovesNothing(s: State)
    ensures NextItems(s, CloserStep) == s.items && NextRoots(s, CloserStep) == s.roots
  {
  }

  lemma StepKeepsInv(s: State, e: Event)
    requires Inv(s) && Enabled(s, e)
    ensures Inv(Next(s, e))
  {
    hide Enabled, NextItems, NextRoots, NextTally, NextWorkers, NextLog, Closing, ItemCountOk, RootCountOk, GateOk, RootsOk, ItemsOk,
      CallOk, ItemLedger, RootLedger;
    StepKeepsItemCount(s, e);
    StepKeepsRootCount(s, e);
    StepKeepsGate(s, e);
    if e.CloserStep? {
      CloserKeepsRest(s);
      assert NextItems(s, e) == s.items && NextRoots(s, e) == s.roots by { CloserMovesNothing(s); }
    } else {
      StepKeepsRootsOk(s, e);
      StepKeepsItemsOk(s, e);
    }
    forall id ensures CallOk(Next(s, e), id) && ItemLedger(Next(s, e), id) {
      StepKeepsCalls(s, e, id);
      StepKeepsItems(s, e, id);
    }
    forall r ensures RootLedger(Next(s, e), r) {
      StepKeepsRoots(s, e, r);
    }
  }

  // ---- runs ----

  ghost predicate CanRun(s: State, events: seq<Event>)
    decreases |events|
  {
    events == [] || (Enabled(s, events[0]) && CanRun(Next(s, events[0]), events[1..]))
  }

  function Run(s: State, events: seq<Event>): State
    decreases |events|
  {
    if events == [] then s else Run(Next(s, events[0]), events[1..])
  }

  lemma StartInv()
    ensures Inv(Start())
  {
  }

  lemma {:induction false} RunKeepsInv(s: State, events: seq<Event>)
    requires Inv(s) && CanRun(s, events)
    ensures Inv(Run(s, events))
    decreases |events|
  {
    hide Inv, Enabled, Next;
    if events != [] {
      StepKeepsInv(s, events[0]);
      RunKeepsInv(Next(s, events[0]), events[1..]);
    }
  }

  // ---- what a final close guarantees ----

  /** Every schedule call that succeeded had its item resumed, once, and that run is over; every root that was taken in has
      completed. */
  ghost predicate AllKept(s: State) {
    && (forall id :: s.log.resumed[id] == One(id in s.log.accepted))
    && (forall id :: id in s.log.accepted ==> id !in s.items)
    && s.log.submitted == s.log.completed
  }

  lemma FinalKeepsAll(s: State)
    requires Inv(s) && s.gate.closer.Final?
    ensures AllKept(s)
  {
    forall id ensures s.log.resumed[id] == One(id in s.log.accepted) && (id in s.log.accepted ==> id !in s.items) {
      assert ItemLedger(s, id);
    }
    forall r ensures r in s.log.submitted <==> r in s.log.completed {
      assert RootLedger(s, r);
    }
  }

  lemma FinalStep(s: State, e: Event)
    requires Inv(s) && s.gate.closer.Final? && Enabled(s, e)
    ensures Next(s, e).gate.closer.Final? && Next(s, e).log == s.log
  {
    hide ItemCountOk, RootCountOk, CallOk, ItemLedger, RootLedger, Has;
  }

  lemma {:induction false} FinalStays(s: State, events: seq<Event>)
    requires Inv(s) && s.gate.closer.Final? && CanRun(s, events)
    ensures Inv(Run(s, events)) && Run(s, events).gate.closer.Final? && Run(s, events).log == s.log
    decreases |events|
  {
    hide Inv, Enabled, Next;
    if events != [] {
      FinalStep(s, events[0]);
      StepKeepsInv(s, events[0]);
      FinalStays(Next(s, events[0]), events[1..]);
    }
  }

  // ---- what the events say ----

  function NoLog(): Log {
    Log({}, multiset{}, {}, {})
  }

  /** The record of answers that the events make, `calls` being the root of every schedule call so far, if it has one: a push is
      the success of a call and, for the call of a root, of its submission. */
  function Told(log: Log, calls: map<nat, Option<nat>>, events: seq<Event>): Log
    decreases |events|
  {
    if events == [] then log
    else
      match events[0]
      case Admit(id, _, root) => Told(log, calls[id := root], events[1..])
      case Push(id) =>
        var roots := if id in calls && calls[id].Some? then {calls[id].value} else {};
        Told(log.(accepted := log.accepted + {id}, submitted := log.submitted + roots), calls, events[1..])
      case Resume(id) => Told(log.(resumed := log.resumed + multiset{id}), calls, events[1..])
      case CompleteRoot(root) => Told(log.(completed := log.completed + {root}), calls, events[1..])
      case _ => Told(log, calls, events[1..])
  }

  ghost predicate CallsKnown(items: map<nat, Item>, calls: map<nat, Option<nat>>) {
    forall id :: id in items ==> id in calls && calls[id] == items[id].root
  }

  lemma CallsStep(s: State, calls: map<nat, Option<nat>>, e: Event)
    requires CallsKnown(s.items, calls)
    ensures CallsKnown(NextItems(s, e), if e.Admit? then calls[e.id := e.root] else calls)
  {
  }

  /** The record that the proofs are about is the one the events make. */
  lemma {:induction false} LogIsTold(s: State, calls: map<nat, Option<nat>>, events: seq<Event>)
    requires CanRun(s, events) && CallsKnown(s.items, calls)
    ensures Run(s, events).log == Told(s.log, calls, events)
    decreases |events|
  {
    if events != [] {
      hide NextItems, NextRoots, NextGate, NextTally, NextWorkers, CallsKnown;
      var e := events[0];
      CallsStep(s, calls, e);
      LogIsTold(Next(s, e), if e.Admit? then calls[e.id := e.root] else calls, events[1..]);
      if e.Push? {
        PushedIsKnown(s, calls, e.id);
        var roots := if calls[e.id].Some? then {calls[e.id].value} else {};
        assert s.log.submitted + {} == s.log.submitted;
        assert Next(s, e).log == s.log.(accepted := s.log.accepted + {e.id}, submitted := s.log.submitted + roots);
      }
    }
  }

  lemma PushedIsKnown(s: State, calls: map<nat, Option<nat>>, id: nat)
    requires CallsKnown(s.items, calls) && Enabled(s, Push(id))
    ensures id in s.items && id in calls && calls[id] == s.items[id].root
  {
  }

  /** In every run that reaches the final close, and however it goes on: whatever was accepted was resumed exactly once,
      whatever root was taken in has completed, and nothing is accepted, resumed or completed any more. */
  lemma FinalCloseKeepsEveryAnswer(before: seq<Event>, after: seq<Event>)
    requires CanRun(Start(), before) && Run(Start(), before).gate.closer.Final? && CanRun(Run(Start(), before), after)
    ensures var s, s' := Run(Start(), before), Run(Run(Start(), before), after);
            AllKept(s) && AllKept(s') && s.log == s'.log == Told(NoLog(), map[], before) && s'.gate.closed
  {
    hide Inv, Enabled, Next, AllKept;
    StartInv();
    LogIsTold(Start(), map[], before);
    RunKeepsInv(Start(), before);
    FinalKeepsAll(Run(Start(), before));
    FinalStays(Run(Start(), before), after);
    FinalKeepsAll(Run(Run(Start(), before), after));
    FinalIsClosed(Run(Run(Start(), before), after));
  }

  lemma FinalIsClosed(s: State)
    requires Inv(s) && s.gate.closer.Final?
    ensures s.gate.closed
  {
  }

  // ---- leaving on a tentative close ----

  /** A queued item whose worker has left will never run. */
  ghost predicate Stranded(s: State, id: nat) {
    In(s, id, Queued) && s.items[id].target in s.workers.left
  }

  ghost predicate StrandsOn(s: State, events: seq<Event>, w: nat) {
    CanRun(s, events) && exists id :: Stranded(Run(s, events), id) && Run(s, events).items[id].target == w
  }

  /** Some run from here leaves an item on worker `w` for good. */
  ghost predicate CanStrand(s: State, w: nat) {
    exists events :: StrandsOn(s, events, w)
  }

  lemma StrandedStep(s: State, e: Event, id: nat)
    requires Inv(s) && Stranded(s, id) && Enabled(s, e)
    ensures Stranded(Next(s, e), id)
  {
    hide ItemCountOk, RootCountOk, CallOk, ItemLedger, RootLedger, Has, NextTally, NextRoots, NextLog, NextGate;
  }

  /** A stranded item stays where it is, and the close never becomes final: the runtime cannot be joined any more. */
  lemma {:induction false} StrandedForGood(s: State, events: seq<Event>, id: nat)
    requires Inv(s) && Stranded(s, id) && CanRun(s, events)
    ensures Stranded(Run(s, events), id) && !Run(s, events).gate.closer.Final?
    decreases |events|
  {
    if events == [] {
      assert !s.gate.closer.Final?;
    } else {
      hide Inv, Enabled, Next, Stranded;
      StrandedStep(s, events[0], id);
      StepKeepsInv(s, events[0]);
      StrandedForGood(Next(s, events[0]), events[1..], id);
    }
  }

  lemma StrandsEarlier(s: State, e: Event, w: nat)
    requires Enabled(s, e) && CanStrand(Next(s, e), w)
    ensures CanStrand(s, w)
  {
    hide Enabled, Next, Stranded;
    var events :| StrandsOn(Next(s, e), events, w);
    var all := [e] + events;
    assert all[0] == e && all[1..] == events;
    assert Run(s, all) == Run(Next(s, e), events);
    assert StrandsOn(s, all, w);
  }

  lemma UnusedId(ids: set<nat>) returns (unused: nat)
    ensures unused !in ids
  {
    if ids == {} {
      unused := 0;
    } else {
      var top := MaxOf(ids);
      unused := top + 1;
    }
  }

  lemma {:induction false} MaxOf(ids: set<nat>) returns (top: nat)
    requires ids != {}
    ensures forall i :: i in ids ==> i <= top
    decreases |ids|
  {
    var i :| i in ids;
    if ids == {i} {
      top := i;
    } else {
      assert ids == (ids - {i}) + {i};
      var rest := MaxOf(ids - {i});
      top := if rest < i then i else rest;
      assert forall j :: j in ids ==> j == i || j in ids - {i};
    }
  }

  /** An open scheduler takes an item for a worker that has left. */
  lemma OpenStrands(s: State, w: nat)
    requires !s.gate.closed && w in s.workers.left
    ensures CanStrand(s, w)
  {
    hide Has;
    var id := UnusedId(s.items.Keys + s.log.accepted);
    var s1 := Next(s, Admit(id, w, None));
    var s2 := Next(s1, Count(id));
    var s3 := Next(s2, Recheck(id));
    var s4 := Next(s3, Push(id));
    assert Stranded(s4, id) && Run(s4, []) == s4;
    assert StrandsOn(s4, [], w);
    StrandsEarlier(s3, Push(id), w);
    StrandsEarlier(s2, Recheck(id), w);
    StrandsEarlier(s1, Count(id), w);
    StrandsEarlier(s, Admit(id, w, None), w);
  }

  lemma TakenBackStrands(s: State, w: nat)
    requires s.gate.closer.TakingBack? && w in s.workers.left
    ensures CanStrand(s, w)
  {
    OpenStrands(Next(s, CloserStep), w);
    StrandsEarlier(s, CloserStep, w);
  }

  /** A late submission, though it will be refused, takes the close back. */
  lemma SubmitterStrands(s: State, w: nat)
    requires s.gate.closer.AgainPending? && s.tally.submitters > 0 && w in s.workers.left
    ensures CanStrand(s, w)
  {
    TakenBackStrands(Next(s, CloserStep), w);
    StrandsEarlier(s, CloserStep, w);
  }

  lemma CountedStrands(s: State, w: nat)
    requires s.gate.closer.AgainSubmitters? && s.tally.count > 0 && w in s.workers.left
    ensures CanStrand(s, w)
  {
    TakenBackStrands(Next(s, CloserStep), w);
    StrandsEarlier(s, CloserStep, w);
  }

  lemma LateSubmissionStrands(s: State, w: nat)
    requires Inv(s) && (s.gate.closer.Swapped? || s.gate.closer.AgainPending?) && w in s.workers.left
    ensures CanStrand(s, w)
  {
    hide ItemCountOk, CallOk, ItemLedger, RootLedger, Has;
    var r := UnusedId(s.roots.Keys + s.log.submitted);
    var s1 := Next(s, Raise(r));
    assert s.tally.submitters >= 0;
    if s.gate.closer.AgainPending? {
      SubmitterStrands(s1, w);
    } else {
      var s2 := Next(s1, CloserStep);
      if s2.gate.closer.TakingBack? {
        TakenBackStrands(s2, w);
      } else {
        SubmitterStrands(s2, w);
      }
      StrandsEarlier(s1, CloserStep, w);
    }
    StrandsEarlier(s, Raise(r), w);
  }

  lemma CallUnderWayStrands(s: State, w: nat)
    requires Inv(s) && s.gate.closer.AgainSubmitters? && s.items != map[] && w in s.workers.left
    ensures CanStrand(s, w)
  {
    hide RootCountOk, CallOk, ItemLedger, RootLedger, Has;
    var id :| id in s.items;
    if s.items[id].phase.Admitted? {
      var s1 := Next(s, Count(id));
      assert s.tally.count >= 0;
      CountedStrands(s1, w);
      StrandsEarlier(s, Count(id), w);
    } else {
      assert id in CountedIds(s.items);
      CountedStrands(s, w);
    }
  }

  /** The close is final, or it has seen for the second time that nobody is submitting while no schedule call is under way. */
  predicate Settled(s: State) {
    s.gate.closer.Final? || (s.gate.closer.AgainSubmitters? && s.items == map[])
  }

  lemma SettledStep(s: State, e: Event)
    requires Inv(s) && Settled(s) && Enabled(s, e)
    ensures Settled(Next(s, e))
  {
    hide RootCountOk, CallOk, ItemLedger, RootLedger, Has, NextRoots, NextLog;
    assert s.items == map[] ==> CountedIds(s.items) == {};
  }

  lemma {:induction false} SettledNeverStrands(s: State, events: seq<Event>)
    requires Inv(s) && Settled(s) && CanRun(s, events)
    ensures forall id :: !Stranded(Run(s, events), id)
    decreases |events|
  {
    if events != [] {
      hide Inv, Enabled, Next, Settled, Stranded;
      SettledStep(s, events[0]);
      StepKeepsInv(s, events[0]);
      SettledNeverStrands(Next(s, events[0]), events[1..]);
    }
  }

  /** Once worker `w` has left, an item can still be stranded on it exactly as long as the close is not settled. */
  lemma LeftWorkerStrandsExactlyUntilSettled(s: State, w: nat)
    requires Inv(s) && w in s.workers.left
    ensures CanStrand(s, w) <==> !Settled(s)
  {
    if Settled(s) {
      forall events | StrandsOn(s, events, w) ensures false {
        SettledNeverStrands(s, events);
      }
    } else if !s.gate.closed {
      OpenStrands(s, w);
    } else if s.gate.closer.TakingBack? {
      TakenBackStrands(s, w);
    } else if s.gate.closer.AgainSubmitters? {
      CallUnderWayStrands(s, w);
    } else {
      LateSubmissionStrands(s, w);
    }
  }

  lemma {:induction false} RunMore(s: State, events: seq<Event>, e: Event)
    requires CanRun(s, events) && Enabled(Run(s, events), e)
    ensures CanRun(s, events + [e]) && Run(s, events + [e]) == Next(Run(s, events), e)
    decreases |events|
  {
    hide Enabled, Next;
    var all := events + [e];
    if events == [] {
      assert all[1..] == [] && CanRun(Next(s, e), []) && Run(Next(s, e), []) == Next(s, e);
    } else {
      assert all[0] == events[0] && all[1..] == events[1..] + [e];
      RunMore(Next(s, events[0]), events[1..], e);
    }
  }

  lemma RunNone(s: State)
    ensures CanRun(s, []) && Run(s, []) == s
  {
  }

  /** Stop is requested, worker 1 finds nothing to do, worker 0 closes for the first time, worker 1 leaves. */
  lemma LeavingRun() returns (events: seq<Event>)
    ensures CanRun(Start(), events)
    ensures var s := Run(Start(), events);
            s.gate == Gate(false, true, true, Swapped) && s.items == map[] && s.roots == map[] && s.workers.left == {1}
  {
    hide Run, CanRun;
    events := [];
    RunNone(Start());
    RunMore(Start(), events, StopAccepting);
    events := events + [StopAccepting];
    RunMore(Start(), events, RequestStop);
    events := events + [RequestStop];
    assert Run(Start(), events).items == map[];
    RunMore(Start(), events, Look(1));
    events := events + [Look(1)];
    var k := 0;
    while k < 5
      invariant 0 <= k <= 5 && CanRun(Start(), events)
      invariant var s := Run(Start(), events);
                && s.tally == Tally(0, 0, 0) && s.items == map[] && s.roots == map[] && s.workers == Workers({1}, {})
                && s.gate == Gate(false, true, k == 5, [Idle, SawStop, SawSubmitters, SawPending, Checked, Swapped][k])
    {
      RunMore(Start(), events, CloserStep);
      events := events + [CloserStep];
      k := k + 1;
    }
    RunMore(Start(), events, Leave(1));
    events := events + [Leave(1)];
  }

  /** No schedule call and no submission is under way, and still the worker has left too early. */
  lemma StrandedRunExists() returns (events: seq<Event>)
    ensures CanRun(Start(), events) && Run(Start(), events).items == map[] && Run(Start(), events).roots == map[]
    ensures CanStrand(Run(Start(), events), 1)
  {
    hide Inv, Enabled, Next, CanStrand;
    events := LeavingRun();
    StartInv();
    RunKeepsInv(Start(), events);
    LeftWorkerStrandsExactlyUntilSettled(Run(Start(), events), 1);
  }

  // ---- what can always go on ----

  /** When a stop was requested and nothing is under way, the closing worker gets to the final close. */
  lemma QuietClose(s: State) returns (events: seq<Event>)
    requires Inv(s) && s.gate.stop && s.gate.closer.Idle? && s.items == map[] && s.roots == map[]
    ensures CanRun(s, events) && Run(s, events).gate.closer.Final? && forall i :: 0 <= i < |events| ==> events[i] == CloserStep
  {
    hide Run, CanRun;
    assert s.tally == Tally(0, 0, 0) by { NothingCounted(s); }
    events := [];
    RunNone(s);
    var k := 0;
    while k < 8
      invariant 0 <= k <= 8 && CanRun(s, events) && forall i :: 0 <= i < |events| ==> events[i] == CloserStep
      invariant Run(s, events).tally == Tally(0, 0, 0) && Run(s, events).gate.stop
      invariant Run(s, events).gate.closer == [Idle, SawStop, SawSubmitters, SawPending, Checked, Swapped, AgainPending, AgainSubmitters, Final][k]
    {
      RunMore(s, events, CloserStep);
      events := events + [CloserStep];
      k := k + 1;
    }
  }

  lemma NothingCounted(s: State)
    requires Inv(s) && s.items == map[] && s.roots == map[]
    ensures s.tally == Tally(0, 0, 0)
  {
    assert CountedIds(s.items) == {} && SubmitterIds(s.roots) == {} && PendingIds(s.roots) == {};
  }

  /** An item queued for a worker that has not left, and that runs nothing else, is resumed and finished. */
  lemma QueuedCanRun(s: State, id: nat) returns (events: seq<Event>)
    requires In(s, id, Queued) && s.items[id].target !in s.workers.left && !Has(s, s.items[id].target, Phase.Resumed)
    ensures CanRun(s, events) && Run(s, events).log.resumed == s.log.resumed + multiset{id} && id !in Run(s, events).items
  {
    hide Run, CanRun, Has;
    events := [];
    RunNone(s);
    var w := s.items[id].target;
    if w in s.workers.looked {
      RunMore(s, events, Stay(w));
      events := [Stay(w)];
      assert [] + [Stay(w)] == events;
    }
    assert !Has(Run(s, events), w, Phase.Resumed) by { SameItems(s, Run(s, events), w); }
    RunMore(s, events, Resume(id));
    var s1 := Run(s, events + [Resume(id)]);
    RunMore(s, events + [Resume(id)], Finish(id));
    events := events + [Resume(id)] + [Finish(id)];
  }

  lemma SameItems(s: State, s': State, w: nat)
    requires s'.items == s.items && !Has(s, w, Phase.Resumed)
    ensures !Has(s', w, Phase.Resumed)
  {
  }

  /** The steps of a root submission, up to its schedule call, and of that call. */
  function SubmissionOf(r: nat): seq<Event> {
    [Raise(r), LookAccepting(r), RaisePending(r), DropSubmitter(r)]
  }

  function CallOf(id: nat, w: nat, root: Option<nat>): seq<Event> {
    [Admit(id, w, root), Count(id), Recheck(id), Push(id)]
  }

  /** While the runtime accepts roots, a submission gets as far as its schedule call. */
  lemma SubmissionGoesThrough(s: State, r: nat)
    requires s.gate.accepting && r !in s.roots && r !in s.log.submitted
    ensures CanRun(s, SubmissionOf(r))
    ensures var s' := Run(s, SubmissionOf(r));
            s'.roots == s.roots[r := Pending] && s'.items == s.items && s'.gate == s.gate && s'.log == s.log && s'.workers == s.workers
  {
    var s1 := Next(s, Raise(r));
    var s2 := Next(s1, LookAccepting(r));
    var s3 := Next(s2, RaisePending(r));
    var s4 := Next(s3, DropSubmitter(r));
    assert s4.roots == s.roots[r := Pending];
    RunFour(s, Raise(r), LookAccepting(r), RaisePending(r), DropSubmitter(r));
  }

  lemma RunFour(s: State, a: Event, b: Event, c: Event, d: Event)
    requires Enabled(s, a) && Enabled(Next(s, a), b) && Enabled(Next(Next(s, a), b), c) && Enabled(Next(Next(Next(s, a), b), c), d)
    ensures CanRun(s, [a, b, c, d]) && Run(s, [a, b, c, d]) == Next(Next(Next(Next(s, a), b), c), d)
  {
    hide Enabled, Next;
    RunNone(s);
    RunMore(s, [], a);
    RunMore(s, [a], b);
    RunMore(s, [a, b], c);
    RunMore(s, [a, b, c], d);
    assert [] + [a] == [a] && [a] + [b] == [a, b] && [a, b] + [c] == [a, b, c] && [a, b, c] + [d] == [a, b, c, d];
  }

  /** While the runtime is not closed, a schedule call succeeds: its item is queued, and a root it is for is running. */
  lemma CallGoesThrough(s: State, id: nat, w: nat, root: Option<nat>)
    requires !s.gate.closed && id !in s.items && id !in s.log.accepted && (root.Some? ==> RootIn(s, root.value, Pending))
    ensures CanRun(s, CallOf(id, w, root))
    ensures var s' := Run(s, CallOf(id, w, root));
            && s'.items == s.items[id := Item(Queued, w, root)] && id in s'.log.accepted
            && (root.Some? ==> RootIn(s', root.value, Live(id)) && root.value in s'.log.submitted)
            && s'.workers == s.workers && s'.log.resumed == s.log.resumed
  {
    var s1 := Next(s, Admit(id, w, root));
    var s2 := Next(s1, Count(id));
    var s3 := Next(s2, Recheck(id));
    var s4 := Next(s3, Push(id));
    assert s4.items == s.items[id := Item(Queued, w, root)];
    RunFour(s, Admit(id, w, root), Count(id), Recheck(id), Push(id));
  }

  /** A root whose item has been resumed can complete. */
  lemma RootCanComplete(s: State, r: nat, id: nat)
    requires RootIn(s, r, Live(id)) && s.log.resumed[id] > 0
    ensures Enabled(s, CompleteRoot(r)) && r in Next(s, CompleteRoot(r)).log.completed && r !in Next(s, CompleteRoot(r)).roots
  {
  }

  /** A submission or a schedule call that fails, wherever it fails, can always be undone, and leaves no trace. */
  lemma FailuresAreUndone(s: State, r: nat, id: nat)
    ensures RootIn(s, r, Passed) ==> Enabled(s, NoMemory(r)) && RootIn(Next(s, NoMemory(r)), r, Refused)
    ensures RootIn(s, r, Refused) ==> Enabled(s, DropRefused(r)) && r !in Next(s, DropRefused(r)).roots
    ensures RootIn(s, r, Pending) ==> Enabled(s, NotScheduled(r)) && RootIn(Next(s, NotScheduled(r)), r, Failing)
    ensures RootIn(s, r, Failing) ==> Enabled(s, DropPending(r)) && r !in Next(s, DropPending(r)).roots
    ensures In(s, id, Rejected) ==>
              && Enabled(s, Uncount(id)) && id !in Next(s, Uncount(id)).items
              && (s.items[id].root.Some? ==> RootIn(Next(s, Uncount(id)), s.items[id].root.value, Failing))
  {
  }
}
