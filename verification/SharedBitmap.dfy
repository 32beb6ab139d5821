/** The bitmap under contention: calls of many workers, one atomic operation at a time. */
module SharedBitmap {
  import opened Arithmetic
  import opened Bitmap
  import opened Media

  /** Where a call stands in its search: between two searches, in its own shard, in the others, with a bit it has set and
      not yet counted; or giving its bits back, with the last one cleared and not yet discounted. `seen` are the bits this
      search has found taken. */
  datatype Scan =
    | Between
    | Own(start: nat, i: nat, seen: set<nat>)
    | Others(i: nat, seen: set<nat>)
    | Won(bit: nat)
    | Undoing
    | Undone

  datatype Task = Alloc(want: nat, worker: nat, list: seq<nat>, scan: Scan) | Freeing(bit: nat) | Cleared

  /** `held` are the bits handed out and not being freed. */
  datatype State = State(bytes: seq<bv8>, used: int, cursors: seq<nat>, tasks: map<nat, Task>, held: set<nat>)

  datatype Event =
    | Begin(t: nat, worker: nat, want: nat) | StartScan(t: nat) | TryOwn(t: nat) | ToOthers(t: nat) | TryOther(t: nat)
    | AddUsed(t: nat) | GiveUp(t: nat) | UndoBit(t: nat) | SubUsed(t: nat) | Fail(t: nat) | Return(t: nat)
    | Free(t: nat, b: nat) | ClearBit(t: nat) | SubFreed(t: nat)

  function Total(s: State): nat {
    |s.bytes| * 8
  }

  function First(s: State, worker: nat): nat
    requires worker < |s.cursors|
    ensures First(s, worker) <= Total(s)
  {
    ShardBounds(Total(s), worker, |s.cursors|);
    Total(s) * worker / |s.cursors|
  }

  function Last(s: State, worker: nat): nat
    requires worker < |s.cursors|
    ensures First(s, worker) <= Last(s, worker) <= Total(s)
  {
    ShardBounds(Total(s), worker, |s.cursors|);
    Total(s) * (worker + 1) / |s.cursors|
  }

  /** What call `t` is doing, if it is an allocation. */
  predicate At(s: State, t: nat) {
    t in s.tasks && s.tasks[t].Alloc? && s.tasks[t].worker < |s.cursors|
  }

  predicate Searching(s: State, t: nat) {
    At(s, t) && s.tasks[t].scan.Own?
  }

  predicate SearchingOthers(s: State, t: nat) {
    At(s, t) && s.tasks[t].scan.Others?
  }

  function Span(s: State, t: nat): nat
    requires At(s, t)
  {
    Last(s, s.tasks[t].worker) - First(s, s.tasks[t].worker)
  }

  predicate Enabled(s: State, e: Event) {
    match e
    case Begin(t, worker, want) => t !in s.tasks && s.cursors != []
    case StartScan(t) => At(s, t) && s.tasks[t].scan.Between? && |s.tasks[t].list| < s.tasks[t].want
    case TryOwn(t) => Searching(s, t) && s.tasks[t].scan.i < Span(s, t)
    case ToOthers(t) => Searching(s, t) && s.tasks[t].scan.i == Span(s, t)
    case TryOther(t) => SearchingOthers(s, t) && s.tasks[t].scan.i < Total(s)
    case AddUsed(t) => At(s, t) && s.tasks[t].scan.Won?
    case GiveUp(t) => SearchingOthers(s, t) && s.tasks[t].scan.i == Total(s)
    case UndoBit(t) => At(s, t) && s.tasks[t].scan.Undoing? && s.tasks[t].list != []
    case SubUsed(t) => At(s, t) && s.tasks[t].scan.Undone?
    case Fail(t) => At(s, t) && s.tasks[t].scan.Undoing? && s.tasks[t].list == []
    case Return(t) => At(s, t) && s.tasks[t].scan.Between? && |s.tasks[t].list| == s.tasks[t].want
    case Free(t, b) => t !in s.tasks && b in s.held
    case ClearBit(t) => t in s.tasks && s.tasks[t].Freeing?
    case SubFreed(t) => t in s.tasks && s.tasks[t].Cleared?
  }

  /** The bit the search looks at now. */
  function Candidate(s: State, t: nat): (b: nat)
    requires (Searching(s, t) && s.tasks[t].scan.i < Span(s, t)) || (SearchingOthers(s, t) && s.tasks[t].scan.i < Total(s))
    ensures b < Total(s)
  {
    var task := s.tasks[t];
    if task.scan.Own? then
      RoundBitBelow(First(s, task.worker), task.scan.start, Span(s, t), task.scan.i);
      RoundBit(First(s, task.worker), task.scan.start, Span(s, t), task.scan.i)
    else
      RoundBitBelow(0, Last(s, task.worker), Total(s), task.scan.i);
      RoundBit(0, Last(s, task.worker), Total(s), task.scan.i)
  }

  /** The search of the others passes over the bits of its own shard. */
  predicate Skips(s: State, t: nat)
    requires (Searching(s, t) && s.tasks[t].scan.i < Span(s, t)) || (SearchingOthers(s, t) && s.tasks[t].scan.i < Total(s))
  {
    s.tasks[t].scan.Others? && First(s, s.tasks[t].worker) <= Candidate(s, t) < Last(s, s.tasks[t].worker)
  }

  function Onward(scan: Scan, seen: set<nat>): Scan
    requires scan.Own? || scan.Others?
  {
    if scan.Own? then Own(scan.start, scan.i + 1, seen) else Others(scan.i + 1, seen)
  }

  /** The search after its atomic fetch-or: won if the bit was clear, else on to the next one. */
  function Tried(s: State, t: nat): Scan
    requires (Searching(s, t) && s.tasks[t].scan.i < Span(s, t)) || (SearchingOthers(s, t) && s.tasks[t].scan.i < Total(s))
  {
    var scan, b := s.tasks[t].scan, Candidate(s, t);
    if Skips(s, t) then Onward(scan, scan.seen) else if Bit(s.bytes, b) then Onward(scan, scan.seen + {b}) else Won(b)
  }

  /** The call after the step; None when it is over. */
  function TaskAfter(s: State, e: Event): Option<Task>
    requires Enabled(s, e)
  {
    match e
    case Begin(t, worker, want) => Some(Alloc(want, worker % |s.cursors|, [], Between))
    case StartScan(t) => Some(s.tasks[t].(scan := Own(s.cursors[s.tasks[t].worker], 0, {})))
    case TryOwn(t) => Some(s.tasks[t].(scan := Tried(s, t)))
    case ToOthers(t) => Some(s.tasks[t].(scan := Others(0, s.tasks[t].scan.seen)))
    case TryOther(t) => Some(s.tasks[t].(scan := Tried(s, t)))
    case AddUsed(t) => Some(s.tasks[t].(list := s.tasks[t].list + [s.tasks[t].scan.bit], scan := Between))
    case GiveUp(t) => Some(s.tasks[t].(scan := Undoing))
    case UndoBit(t) => Some(s.tasks[t].(list := s.tasks[t].list[..|s.tasks[t].list| - 1], scan := Undone))
    case SubUsed(t) => Some(s.tasks[t].(scan := Undoing))
    case Fail(t) => None
    case Return(t) => None
    case Free(t, b) => Some(Freeing(b))
    case ClearBit(t) => Some(Cleared)
    case SubFreed(t) => None
  }

  /** The bit of the step's fetch-or, and of its fetch-and. */
  function Ors(s: State, e: Event): Option<nat>
    requires Enabled(s, e)
  {
    if (e.TryOwn? || e.TryOther?) && !Skips(s, e.t) then Some(Candidate(s, e.t)) else None
  }

  function Ands(s: State, e: Event): Option<nat>
    requires Enabled(s, e)
  {
    if e.UndoBit? then Some(s.tasks[e.t].list[|s.tasks[e.t].list| - 1])
    else if e.ClearBit? then Some(s.tasks[e.t].bit)
    else None
  }

  function BytesAfter(bytes: seq<bv8>, ors: Option<nat>, ands: Option<nat>): seq<bv8> {
    if ors.Some? && ors.value < |bytes| * 8 then WithBit(bytes, ors.value)
    else if ands.Some? && ands.value < |bytes| * 8 then WithoutBit(bytes, ands.value)
    else bytes
  }

  function UsedAfter(used: int, e: Event): int {
    if e.AddUsed? then used + 1 else if e.SubUsed? || e.SubFreed? then used - 1 else used
  }

  function HeldAfter(s: State, e: Event): set<nat>
    requires Enabled(s, e)
  {
    if e.Return? then s.held + Elements(s.tasks[e.t].list) else if e.Free? then s.held - {e.b} else s.held
  }

  function CursorsAfter(s: State, e: Event): seq<nat>
    requires Enabled(s, e)
  {
    if e.StartScan? then s.cursors[s.tasks[e.t].worker := s.cursors[s.tasks[e.t].worker] + 1] else s.cursors
  }

  function PutTask(tasks: map<nat, Task>, t: nat, task: Option<Task>): map<nat, Task> {
    if task.Some? then tasks[t := task.value] else tasks - {t}
  }

  function Next(s: State, e: Event): State
    requires Enabled(s, e)
  {
    State(BytesAfter(s.bytes, Ors(s, e), Ands(s, e)), UsedAfter(s.used, e), CursorsAfter(s, e),
          PutTask(s.tasks, e.t, TaskAfter(s, e)), HeldAfter(s, e))
  }

  function Elements(list: seq<nat>): set<nat> {
    set b | b in list
  }

  // ---- who owns a bit ----

  function Owned(task: Task): set<nat> {
    match task
    case Alloc(_, _, list, scan) => Elements(list) + if scan.Won? then {scan.bit} else {}
    case Freeing(b) => {b}
    case Cleared => {}
  }

  ghost predicate Taken(s: State, b: nat) {
    b in s.held || exists t :: t in s.tasks && b in Owned(s.tasks[t])
  }

  /** No bit is with two calls, or with a call and a holder. */
  ghost predicate Apart(s: State) {
    && (forall t, u :: t in s.tasks && u in s.tasks && t != u ==> Owned(s.tasks[t]) !! Owned(s.tasks[u]))
    && (forall t :: t in s.tasks ==> Owned(s.tasks[t]) !! s.held)
  }

  ghost predicate InMap(s: State) {
    (forall b :: b in s.held ==> b < Total(s)) && (forall t, b :: t in s.tasks && b in Owned(s.tasks[t]) ==> b < Total(s))
  }

  /** A bit is set exactly while somebody has it. */
  ghost predicate Backed(s: State) {
    forall b :: 0 <= b < Total(s) ==> (Bit(s.bytes, b) <==> Taken(s, b))
  }

  predicate Distinct(list: seq<nat>) {
    forall i, j :: 0 <= i < j < |list| ==> list[i] != list[j]
  }

  ghost predicate TaskOk(s: State, task: Task) {
    task.Alloc? ==>
      && task.worker < |s.cursors| && |task.list| <= task.want && Distinct(task.list)
      && (task.scan.Won? ==> task.scan.bit !in task.list)
      && (!task.scan.Between? && !task.scan.Undoing? && !task.scan.Undone? ==> |task.list| < task.want)
  }

  function PendingAdds(tasks: map<nat, Task>): set<nat> {
    set t | t in tasks && tasks[t].Alloc? && tasks[t].scan.Won?
  }

  function PendingSubs(tasks: map<nat, Task>): set<nat> {
    set t | t in tasks && (tasks[t].Cleared? || (tasks[t].Alloc? && tasks[t].scan.Undone?))
  }

  /** The counter lags behind the bits by exactly the calls that are between their two atomic operations. */
  ghost predicate UsedOk(s: State) {
    s.used + |PendingAdds(s.tasks)| - |PendingSubs(s.tasks)| == CountBits(s.bytes, Total(s))
  }

  ghost predicate Inv(s: State) {
    && s.cursors != [] && Apart(s) && InMap(s) && Backed(s) && UsedOk(s)
    && (forall t :: t in s.tasks ==> TaskOk(s, s.tasks[t]))
  }

  // ---- every step keeps the books ----

  function OwnedAt(tasks: map<nat, Task>, t: nat): set<nat> {
    if t in tasks then Owned(tasks[t]) else {}
  }

  ghost predicate OthersSame(tasks': map<nat, Task>, tasks: map<nat, Task>, t: nat) {
    forall u :: u != t ==> (u in tasks' <==> u in tasks) && (u in tasks ==> tasks'[u] == tasks[u])
  }

  ghost predicate BitsMoved(bytes': seq<bv8>, bytes: seq<bv8>, claimed: set<nat>, dropped: set<nat>) {
    && |bytes'| == |bytes|
    && forall b :: 0 <= b < |bytes| * 8 ==> (Bit(bytes', b) <==> b in claimed || (Bit(bytes, b) && b !in dropped))
  }

  /** What call `t` and the holders have together changes by the bits claimed and dropped, and is theirs alone. */
  ghost predicate Handover(s': State, s: State, t: nat, claimed: set<nat>, dropped: set<nat>) {
    && OthersSame(s'.tasks, s.tasks, t)
    && OwnedAt(s'.tasks, t) + s'.held == (OwnedAt(s.tasks, t) + s.held + claimed) - dropped
    && OwnedAt(s'.tasks, t) !! s'.held
    && (forall b :: b in claimed ==> b < Total(s) && !Bit(s.bytes, b))
    && BitsMoved(s'.bytes, s.bytes, claimed, dropped)
    && dropped <= OwnedAt(s.tasks, t) && claimed !! dropped
  }

  ghost predicate BooksOk(s: State) {
    Apart(s) && InMap(s) && Backed(s)
  }

  lemma OthersElsewhere(s: State, t: nat, u: nat, b: nat)
    requires Apart(s) && u in s.tasks && u != t && b in Owned(s.tasks[u])
    ensures b !in OwnedAt(s.tasks, t) && b !in s.held && Taken(s, b)
  {
  }

  lemma HandoverKeepsApart(s': State, s: State, t: nat, claimed: set<nat>, dropped: set<nat>)
    requires BooksOk(s) && Handover(s', s, t, claimed, dropped)
    ensures Apart(s')
  {
    hide Bit, Owned;
    forall u | u in s'.tasks && u != t ensures Owned(s'.tasks[u]) !! OwnedAt(s'.tasks, t) + s'.held {
      forall b | b in Owned(s'.tasks[u]) ensures b !in OwnedAt(s'.tasks, t) + s'.held {
        OthersElsewhere(s, t, u, b);
        assert b < Total(s) && Bit(s.bytes, b);
      }
    }
    forall u, v | u in s'.tasks && v in s'.tasks && u != v ensures Owned(s'.tasks[u]) !! Owned(s'.tasks[v]) {
      assert u != t ==> Owned(s'.tasks[u]) !! OwnedAt(s'.tasks, t) + s'.held;
      assert v != t ==> Owned(s'.tasks[v]) !! OwnedAt(s'.tasks, t) + s'.held;
    }
  }

  lemma HandoverKeepsBacked(s': State, s: State, t: nat, claimed: set<nat>, dropped: set<nat>)
    requires BooksOk(s) && Handover(s', s, t, claimed, dropped)
    ensures InMap(s') && Backed(s')
  {
    hide Bit, Owned;
    forall u, b | u in s'.tasks && b in Owned(s'.tasks[u]) ensures b < Total(s') {
      assert u == t ==> b in OwnedAt(s'.tasks, t) + s'.held;
    }
    forall b | b in s'.held ensures b < Total(s') {
      assert b in OwnedAt(s'.tasks, t) + s'.held;
    }
    forall b | 0 <= b < Total(s') ensures Bit(s'.bytes, b) <==> Taken(s', b) {
      if b in OwnedAt(s'.tasks, t) + s'.held {
        assert Taken(s', b);
        assert b in claimed || Taken(s, b);
      } else if Taken(s', b) {
        var u :| u in s'.tasks && b in Owned(s'.tasks[u]);
        OthersElsewhere(s, t, u, b);
      }
    }
  }

  /** The bit a step wins, and the one it clears. */
  function Claims(s: State, e: Event): set<nat>
    requires Enabled(s, e)
  {
    if Ors(s, e).Some? && Ors(s, e).value < Total(s) && !Bit(s.bytes, Ors(s, e).value) then {Ors(s, e).value} else {}
  }

  function Drops(s: State, e: Event): set<nat>
    requires Enabled(s, e)
  {
    if Ands(s, e).Some? then {Ands(s, e).value} else {}
  }

  lemma SetAgain(bytes: seq<bv8>, b: nat)
    requires b < |bytes| * 8 && Bit(bytes, b)
    ensures WithBit(bytes, b) == bytes
  {
  }

  lemma ElementsOf(list: seq<nat>, b: nat)
    ensures Elements(list + [b]) == Elements(list) + {b}
    ensures list != [] && Distinct(list) ==> Elements(list[..|list| - 1]) == Elements(list) - {list[|list| - 1]}
  {
    if list != [] && Distinct(list) {
      var front := list[..|list| - 1];
      assert list == front + [list[|list| - 1]];
    }
  }

  lemma StepMovesBits(s: State, e: Event)
    requires Enabled(s, e) && (Ands(s, e).Some? ==> Ands(s, e).value < Total(s))
    ensures BitsMoved(Next(s, e).bytes, s.bytes, Claims(s, e), Drops(s, e))
  {
    hide Bit, WithBit, WithoutBit, Enabled, Ors, Ands, TaskAfter, CursorsAfter, HeldAfter;
    var ors, ands := Ors(s, e), Ands(s, e);
    assert ors.None? || ands.None? by { OneOfThem(s, e); }
    forall b | 0 <= b < |s.bytes| * 8 ensures Bit(Next(s, e).bytes, b) <==> b in Claims(s, e) || (Bit(s.bytes, b) && b !in Drops(s, e)) {
      if ors.Some? && ors.value < Total(s) {
        BitChanges(s.bytes, ors.value, b);
      } else if ands.Some? {
        BitChanges(s.bytes, ands.value, b);
      }
    }
  }

  lemma OneOfThem(s: State, e: Event)
    requires Enabled(s, e)
    ensures Ors(s, e).None? || Ands(s, e).None?
    ensures Ors(s, e).Some? ==> Ors(s, e).value < Total(s)
  {
    hide First, Last, Span, RoundBit;
  }

  /** The bits of the call after the step. */
  lemma StepMovesOwned(s: State, e: Event)
    requires Enabled(s, e) && (e.t in s.tasks ==> TaskOk(s, s.tasks[e.t]))
    ensures var owned, owned' := OwnedAt(s.tasks, e.t), OwnedAt(Next(s, e).tasks, e.t);
            && Drops(s, e) <= owned && (e.Return? || e.Free? ==> Claims(s, e) == {} && Drops(s, e) == {})
            && (e.Return? ==> owned' == {} && Next(s, e).held == s.held + owned)
            && (e.Free? ==> owned == {} && owned' == {e.b} && e.b in s.held && Next(s, e).held == s.held - {e.b})
            && (!e.Return? && !e.Free? ==> Next(s, e).held == s.held && owned' == owned + Claims(s, e) - Drops(s, e))
  {
    hide Bit, First, Last, Span, RoundBit, BytesAfter, CursorsAfter;
    OneOfThem(s, e);
    if e.AddUsed? {
      ElementsOf(s.tasks[e.t].list, s.tasks[e.t].scan.bit);
    } else if e.UndoBit? {
      ElementsOf(s.tasks[e.t].list, 0);
    }
  }

  lemma OwnedIsIn(s: State, t: nat)
    requires Apart(s) && InMap(s)
    ensures OwnedAt(s.tasks, t) !! s.held && forall b :: b in OwnedAt(s.tasks, t) ==> b < Total(s)
  {
    hide Owned;
  }

  lemma OnlyThatTask(tasks: map<nat, Task>, t: nat, task: Option<Task>)
    ensures OthersSame(PutTask(tasks, t, task), tasks, t)
  {
  }

  lemma StepHandsOver(s: State, e: Event)
    requires Inv(s) && Enabled(s, e)
    ensures Handover(Next(s, e), s, e.t, Claims(s, e), Drops(s, e))
  {
    hide Bit, Enabled, Ors, Ands, TaskAfter, BytesAfter, CursorsAfter, HeldAfter, OwnedAt, UsedOk, Backed, TaskOk, Claims, BitsMoved, Apart,
      InMap, OthersSame, PutTask;
    StepMovesOwned(s, e);
    ClaimedIsNew(s, e);
    OwnedIsIn(s, e.t);
    assert Ands(s, e).Some? ==> Ands(s, e).value in Drops(s, e);
    StepMovesBits(s, e);
    OnlyThatTask(s.tasks, e.t, TaskAfter(s, e));
    var owned, owned', held, held' := OwnedAt(s.tasks, e.t), OwnedAt(Next(s, e).tasks, e.t), s.held, Next(s, e).held;
    assert owned' + held' == (owned + held + Claims(s, e)) - Drops(s, e);
  }

  /** A bit that a step wins was nobody's, the holders' no more than the call's own. */
  lemma ClaimedIsNew(s: State, e: Event)
    requires Inv(s) && Enabled(s, e)
    ensures Claims(s, e) !! s.held && Claims(s, e) !! Drops(s, e)
    ensures forall b :: b in Claims(s, e) ==> b < Total(s) && !Bit(s.bytes, b)
  {
    hide Bit, Enabled, TaskAfter, BytesAfter, CursorsAfter, HeldAfter, UsedOk, TaskOk, Ors, Ands;
    OneOfThem(s, e);
    assert forall b :: b in s.held ==> Taken(s, b);
  }

  lemma StepCountsBits(s: State, e: Event)
    requires Inv(s) && Enabled(s, e)
    ensures CountBits(Next(s, e).bytes, Total(s)) == CountBits(s.bytes, Total(s)) + |Claims(s, e)| - |Drops(s, e)|
  {
    hide Bit, WithBit, WithoutBit, CountBits, Enabled, TaskAfter, CursorsAfter, HeldAfter, UsedOk, TaskOk, Ors, Ands, Owned;
    OneOfThem(s, e);
    StepMovesOwned(s, e);
    var ors, ands := Ors(s, e), Ands(s, e);
    if ors.Some? {
      if Bit(s.bytes, ors.value) {
        SetAgain(s.bytes, ors.value);
      } else {
        CountChanges(s.bytes, ors.value, Total(s));
      }
    } else if ands.Some? {
      assert ands.value in OwnedAt(s.tasks, e.t) && Taken(s, ands.value);
      CountChanges(s.bytes, ands.value, Total(s));
    }
  }

  predicate Adds(task: Option<Task>) {
    task.Some? && task.value.Alloc? && task.value.scan.Won?
  }

  predicate Subs(task: Option<Task>) {
    task.Some? && (task.value.Cleared? || (task.value.Alloc? && task.value.scan.Undone?))
  }

  function Get(tasks: map<nat, Task>, t: nat): Option<Task> {
    if t in tasks then Some(tasks[t]) else None
  }

  lemma PendingChanged(tasks: map<nat, Task>, t: nat, task: Option<Task>)
    ensures |PendingAdds(PutTask(tasks, t, task))| == |PendingAdds(tasks)| + One(Adds(task)) - One(Adds(Get(tasks, t)))
    ensures |PendingSubs(PutTask(tasks, t, task))| == |PendingSubs(tasks)| + One(Subs(task)) - One(Subs(Get(tasks, t)))
  {
    OneChanged(PendingAdds(tasks), PendingAdds(PutTask(tasks, t, task)), t);
    OneChanged(PendingSubs(tasks), PendingSubs(PutTask(tasks, t, task)), t);
  }

  /** Bits move ahead of the counter by one call, and the counter catches up by the same call. */
  lemma StepTallies(s: State, e: Event)
    requires Enabled(s, e)
    ensures UsedAfter(s.used, e) + One(Adds(TaskAfter(s, e))) - One(Subs(TaskAfter(s, e)))
            == s.used + One(Adds(Get(s.tasks, e.t))) - One(Subs(Get(s.tasks, e.t))) + |Claims(s, e)| - |Drops(s, e)|
  {
    hide Bit, First, Last, Span, RoundBit;
    OneOfThem(s, e);
  }

  lemma StepKeepsUsed(s: State, e: Event)
    requires Inv(s) && Enabled(s, e)
    ensures UsedOk(Next(s, e))
  {
    hide Bit, CountBits, Enabled, Ors, Ands, TaskAfter, BytesAfter, CursorsAfter, HeldAfter, UsedAfter, PendingAdds, PendingSubs, PutTask,
      Claims, Drops, Adds, Subs, Apart, InMap, Backed, TaskOk;
    StepCountsBits(s, e);
    StepTallies(s, e);
    PendingChanged(s.tasks, e.t, TaskAfter(s, e));
    SameSize(s, e);
  }

  lemma SameSize(s: State, e: Event)
    requires Enabled(s, e)
    ensures |Next(s, e).bytes| == |s.bytes| && |Next(s, e).cursors| == |s.cursors|
  {
    hide Bit, First, Last, Span, RoundBit, TaskAfter, Candidate;
  }

  lemma StepKeepsTasks(s: State, e: Event)
    requires Inv(s) && Enabled(s, e)
    ensures forall t :: t in Next(s, e).tasks ==> TaskOk(Next(s, e), Next(s, e).tasks[t])
  {
    hide Bit, First, Last, Span, RoundBit, UsedOk, Apart, InMap, BytesAfter, HeldAfter, CursorsAfter;
    SameSize(s, e);
    OneOfThem(s, e);
    if e.t in s.tasks {
      assert TaskOk(s, s.tasks[e.t]);
      assert forall b :: b in Owned(s.tasks[e.t]) ==> Taken(s, b);
    }
  }

  lemma StepKeepsInv(s: State, e: Event)
    requires Inv(s) && Enabled(s, e)
    ensures Inv(Next(s, e))
  {
    hide Bit, Enabled, Ors, Ands, TaskAfter, BytesAfter, CursorsAfter, HeldAfter, UsedAfter, PutTask, Apart, InMap, Backed, UsedOk, TaskOk,
      Handover, Claims, Drops;
    StepHandsOver(s, e);
    HandoverKeepsApart(Next(s, e), s, e.t, Claims(s, e), Drops(s, e));
    HandoverKeepsBacked(Next(s, e), s, e.t, Claims(s, e), Drops(s, e));
    StepKeepsUsed(s, e);
    StepKeepsTasks(s, e);
    SameSize(s, e);
  }

  // ---- runs ----

  predicate CanRun(s: State, events: seq<Event>)
    decreases |events|
  {
    events == [] || (Enabled(s, events[0]) && CanRun(Next(s, events[0]), events[1..]))
  }

  function Run(s: State, events: seq<Event>): State
    requires CanRun(s, events)
    decreases |events|
  {
    if events == [] then s else Run(Next(s, events[0]), events[1..])
  }

  /** A bitmap as it is loaded: its set bits are held, and nobody is at work. */
  function Loaded(bytes: seq<bv8>, shards: nat): State {
    State(bytes, CountBits(bytes, |bytes| * 8), seq(shards, i => 0), map[], set b: nat | b < |bytes| * 8 && Bit(bytes, b))
  }

  lemma LoadedInv(bytes: seq<bv8>, shards: nat)
    requires shards > 0
    ensures Inv(Loaded(bytes, shards))
  {
    hide Bit, CountBits;
  }

  lemma {:induction false} RunKeepsInv(s: State, events: seq<Event>)
    requires Inv(s) && CanRun(s, events)
    ensures Inv(Run(s, events)) && |Run(s, events).bytes| == |s.bytes| && |Run(s, events).cursors| == |s.cursors|
    decreases |events|
  {
    hide Inv, Enabled, Next;
    if events != [] {
      StepKeepsInv(s, events[0]);
      SameSize(s, events[0]);
      RunKeepsInv(Next(s, events[0]), events[1..]);
    }
  }

  datatype Order = Order(worker: nat, want: nat)

  /** What each call was asked for, and by which worker, as the events say. */
  function AskedFor(orders: map<nat, Order>, events: seq<Event>): map<nat, Order>
    decreases |events|
  {
    if events == [] then orders else AskedFor(OrdersAfter(orders, events[0]), events[1..])
  }

  function OrdersAfter(orders: map<nat, Order>, e: Event): map<nat, Order> {
    if e.Begin? then orders[e.t := Order(e.worker, e.want)] else orders
  }

  predicate OrdersKnown(s: State, orders: map<nat, Order>) {
    s.cursors != [] && forall t :: t in s.tasks && s.tasks[t].Alloc? ==>
      t in orders && s.tasks[t].want == orders[t].want && s.tasks[t].worker == orders[t].worker % |s.cursors|
  }

  lemma OrdersStep(s: State, orders: map<nat, Order>, e: Event)
    requires Enabled(s, e) && OrdersKnown(s, orders)
    ensures OrdersKnown(Next(s, e), OrdersAfter(orders, e))
  {
    hide First, Last, Candidate, Skips, Tried, Bit, BytesAfter, CursorsAfter, HeldAfter, Ors, Ands;
    SameSize(s, e);
  }

  lemma {:induction false} OrdersAsAsked(s: State, orders: map<nat, Order>, events: seq<Event>)
    requires CanRun(s, events) && OrdersKnown(s, orders)
    ensures OrdersKnown(Run(s, events), AskedFor(orders, events))
    decreases |events|
  {
    if events != [] {
      hide OrdersKnown, Enabled, Next;
      OrdersStep(s, orders, events[0]);
      OrdersAsAsked(Next(s, events[0]), OrdersAfter(orders, events[0]), events[1..]);
    }
  }

  /** A call searches the shard of its worker first. */
  lemma OwnShardFirst(bytes: seq<bv8>, shards: nat, events: seq<Event>, t: nat)
    requires shards > 0 && CanRun(Loaded(bytes, shards), events) && Enabled(Run(Loaded(bytes, shards), events), TryOwn(t))
    ensures var s, orders := Run(Loaded(bytes, shards), events), AskedFor(map[], events);
            t in orders && var w := orders[t].worker % shards; |bytes| * 8 * w / shards <= Candidate(s, t) < |bytes| * 8 * (w + 1) / shards
  {
    hide Bit, CountBits, CanRun, Run, RoundBit;
    LoadedInv(bytes, shards);
    RunKeepsInv(Loaded(bytes, shards), events);
    OrdersAsAsked(Loaded(bytes, shards), map[], events);
    var s := Run(Loaded(bytes, shards), events);
    var task := s.tasks[t];
    RoundBitBelow(First(s, task.worker), task.scan.start, Span(s, t), task.scan.i);
  }

  /** Whatever the workers do: an allocation that returns has as many bits as it asked for, all different, and no holder and
      no other call has any of them. */
  lemma NothingHandedOutTwice(bytes: seq<bv8>, shards: nat, events: seq<Event>, t: nat)
    requires shards > 0 && CanRun(Loaded(bytes, shards), events) && Enabled(Run(Loaded(bytes, shards), events), Return(t))
    ensures var s := Run(Loaded(bytes, shards), events);
            var list := s.tasks[t].list;
            && t in AskedFor(map[], events) && |list| == AskedFor(map[], events)[t].want && Distinct(list)
            && Elements(list) !! s.held
            && forall u :: u in s.tasks && u != t ==> Elements(list) !! Owned(s.tasks[u])
  {
    hide Bit, CountBits, Backed, UsedOk, CanRun, Run, First, Last, Span;
    LoadedInv(bytes, shards);
    RunKeepsInv(Loaded(bytes, shards), events);
    OrdersAsAsked(Loaded(bytes, shards), map[], events);
    var s := Run(Loaded(bytes, shards), events);
    assert TaskOk(s, s.tasks[t]) && Owned(s.tasks[t]) == Elements(s.tasks[t].list);
  }

  /** When an allocation has failed, the bits that are set are those of the holders and of the other calls: it has given
      back all of its own and none of theirs. */
  lemma FailureLeavesTheOthers(bytes: seq<bv8>, shards: nat, events: seq<Event>, t: nat, b: nat)
    requires shards > 0 && CanRun(Loaded(bytes, shards), events) && Enabled(Run(Loaded(bytes, shards), events), Fail(t))
    requires b < |bytes| * 8
    ensures var s := Run(Loaded(bytes, shards), events);
            && |s.bytes| == |bytes|
            && (Bit(s.bytes, b) <==> b in s.held || exists u :: u in s.tasks && u != t && b in Owned(s.tasks[u]))
  {
    hide Bit, CountBits, Apart, UsedOk, CanRun, Run, First, Last, Span;
    LoadedInv(bytes, shards);
    RunKeepsInv(Loaded(bytes, shards), events);
    var s := Run(Loaded(bytes, shards), events);
    assert Owned(s.tasks[t]) == {};
  }

  /** Whenever no call is between its two atomic operations, the counter is the number of set bits. */
  lemma QuietCounterIsExact(bytes: seq<bv8>, shards: nat, events: seq<Event>)
    requires shards > 0 && CanRun(Loaded(bytes, shards), events)
    ensures var s := Run(Loaded(bytes, shards), events);
            PendingAdds(s.tasks) == {} && PendingSubs(s.tasks) == {} ==> s.used == CountBits(s.bytes, Total(s))
  {
    hide Bit, CountBits, Apart, Backed, InMap, TaskOk, CanRun, Run;
    LoadedInv(bytes, shards);
    RunKeepsInv(Loaded(bytes, shards), events);
  }

  // ---- what a search has looked at ----

  function SeenBy(task: Task): set<nat> {
    if task.Alloc? && (task.scan.Own? || task.scan.Others?) then task.scan.seen else {}
  }

  function SeenAt(s: State, t: nat): set<nat> {
    if t in s.tasks then SeenBy(s.tasks[t]) else {}
  }

  ghost predicate Visited(base: nat, start: nat, n: nat, i: nat, b: nat) {
    n > 0 && exists j :: 0 <= j < i && RoundBit(base, start, n, j) == b
  }

  /** A search has seen the positions it has passed: of its own shard, then of the others as well. */
  ghost predicate SeenOk(first: nat, last: nat, total: nat, task: Task)
    requires first <= last <= total
  {
    task.Alloc? ==>
      && (task.scan.Own? ==> task.scan.i <= last - first
                             && forall b: nat :: b in task.scan.seen <==> Visited(first, task.scan.start, last - first, task.scan.i, b))
      && (task.scan.Others? ==> task.scan.i <= total
                                && forall b: nat :: b in task.scan.seen <==>
                                     first <= b < last || ((b < first || last <= b) && Visited(0, last, total, task.scan.i, b)))
  }

  ghost predicate ScanOk(s: State, t: nat) {
    At(s, t) ==> SeenOk(First(s, s.tasks[t].worker), Last(s, s.tasks[t].worker), Total(s), s.tasks[t])
  }

  lemma VisitedMore(base: nat, start: nat, n: nat, i: nat, b: nat)
    requires n > 0
    ensures Visited(base, start, n, i + 1, b) <==> Visited(base, start, n, i, b) || RoundBit(base, start, n, i) == b
  {
    hide RoundBit;
    if Visited(base, start, n, i, b) {
      var j :| 0 <= j < i && RoundBit(base, start, n, j) == b;
      assert 0 <= j < i + 1;
    }
  }

  lemma VisitedAll(base: nat, start: nat, n: nat, b: nat)
    ensures Visited(base, start, n, n, b) <==> base <= b < base + n
  {
    if n > 0 {
      if base <= b < base + n {
        var j := RoundReaches(start, n, b - base);
        assert RoundBit(base, start, n, j) == b;
      }
    }
  }

  lemma VisitedNotYet(base: nat, start: nat, n: nat, i: nat)
    requires i < n
    ensures !Visited(base, start, n, i, RoundBit(base, start, n, i))
  {
    hide RoundBit;
    forall j | 0 <= j < i ensures RoundBit(base, start, n, j) != RoundBit(base, start, n, i) {
      RoundVisitsOnce(base, start, n, j, i);
    }
  }

  /** A search that gives up has found every bit of the map taken. */
  lemma GivesUpAfterEveryBit(s: State, t: nat, b: nat)
    requires Enabled(s, GiveUp(t)) && ScanOk(s, t)
    ensures b in SeenAt(s, t) <==> b < Total(s)
  {
    hide First, Last;
    VisitedAll(0, Last(s, s.tasks[t].worker), Total(s), b);
  }

  /** No bit is tried twice in one search. */
  lemma TriesEachBitOnce(s: State, e: Event)
    requires Enabled(s, e) && (e.TryOwn? || e.TryOther?) && !Skips(s, e.t) && ScanOk(s, e.t)
    ensures Candidate(s, e.t) !in SeenAt(s, e.t)
  {
    hide First, Last;
    var task := s.tasks[e.t];
    if e.TryOwn? {
      VisitedNotYet(First(s, task.worker), task.scan.start, Span(s, e.t), task.scan.i);
    } else {
      VisitedNotYet(0, Last(s, task.worker), Total(s), task.scan.i);
    }
  }

  lemma OwnGoesOn(s: State, t: nat)
    requires Enabled(s, TryOwn(t)) && ScanOk(s, t)
    ensures ScanOk(Next(s, TryOwn(t)), t)
  {
    hide First, Last, Bit, RoundBit, Visited;
    SameSize(s, TryOwn(t));
    var task := s.tasks[t];
    var first := First(s, task.worker);
    forall b: nat ensures Visited(first, task.scan.start, Span(s, t), task.scan.i + 1, b)
                          <==> Visited(first, task.scan.start, Span(s, t), task.scan.i, b) || Candidate(s, t) == b {
      VisitedMore(first, task.scan.start, Span(s, t), task.scan.i, b);
    }
    SameShard(s, TryOwn(t), task.worker);
  }

  lemma OthersGoOn(s: State, t: nat)
    requires Enabled(s, TryOther(t)) && ScanOk(s, t)
    ensures ScanOk(Next(s, TryOther(t)), t)
  {
    hide First, Last, Bit, RoundBit, Visited;
    SameSize(s, TryOther(t));
    var task := s.tasks[t];
    var last := Last(s, task.worker);
    forall b: nat ensures Visited(0, last, Total(s), task.scan.i + 1, b)
                          <==> Visited(0, last, Total(s), task.scan.i, b) || Candidate(s, t) == b {
      VisitedMore(0, last, Total(s), task.scan.i, b);
    }
    SameShard(s, TryOther(t), task.worker);
  }

  lemma SameShard(s: State, e: Event, worker: nat)
    requires Enabled(s, e) && worker < |s.cursors|
    ensures |Next(s, e).cursors| == |s.cursors| && First(Next(s, e), worker) == First(s, worker) && Last(Next(s, e), worker) == Last(s, worker)
  {
    hide Enabled, Next;
    SameSize(s, e);
  }

  lemma SearchTurns(s: State, t: nat)
    requires Enabled(s, ToOthers(t)) && ScanOk(s, t)
    ensures ScanOk(Next(s, ToOthers(t)), t)
  {
    hide First, Last, Bit, RoundBit;
    var task := s.tasks[t];
    SameShard(s, ToOthers(t), task.worker);
    forall b: nat ensures Visited(First(s, task.worker), task.scan.start, Span(s, t), task.scan.i, b) <==> First(s, task.worker) <= b < Last(s, task.worker) {
      VisitedAll(First(s, task.worker), task.scan.start, Span(s, t), b);
    }
  }

  lemma StepKeepsScan(s: State, e: Event, t: nat)
    requires Enabled(s, e) && ScanOk(s, t)
    ensures ScanOk(Next(s, e), t)
  {
    if e == TryOwn(t) {
      OwnGoesOn(s, t);
    } else if e == TryOther(t) {
      OthersGoOn(s, t);
    } else if e == ToOthers(t) {
      SearchTurns(s, t);
    } else {
      hide First, Last, Bit, RoundBit, Tried, Visited;
      SameSize(s, e);
      if At(Next(s, e), t) && t in s.tasks && s.tasks[t].Alloc? && s.tasks[t].worker < |s.cursors| {
        SameShard(s, e, s.tasks[t].worker);
      }
    }
  }

  // ---- what a failed search proves ----

  lemma StepSees(s: State, e: Event, t: nat, b: nat)
    requires Enabled(s, e) && b in SeenAt(Next(s, e), t) && b !in SeenAt(s, t)
    ensures b < Total(s) && Bit(s.bytes, b)
  {
    hide First, Last, Bit, RoundBit;
  }

  /** Some state of the run has bit `b` set. */
  ghost predicate OnceTaken(s: State, events: seq<Event>, b: nat)
    requires CanRun(s, events)
    decreases |events|
  {
    (b < Total(s) && Bit(s.bytes, b)) || (events != [] && OnceTaken(Next(s, events[0]), events[1..], b))
  }

  lemma {:induction false} SeenWasTaken(s: State, events: seq<Event>, t: nat, b: nat)
    requires CanRun(s, events) && b in SeenAt(Run(s, events), t) && b !in SeenAt(s, t)
    ensures OnceTaken(s, events, b)
    decreases |events|
  {
    hide Enabled, Next, Bit, SeenAt;
    if events != [] {
      if b in SeenAt(Next(s, events[0]), t) {
        StepSees(s, events[0], t, b);
      } else {
        SeenWasTaken(Next(s, events[0]), events[1..], t, b);
      }
    }
  }

  lemma {:induction false} RunKeepsScan(s: State, events: seq<Event>, t: nat)
    requires CanRun(s, events) && ScanOk(s, t)
    ensures ScanOk(Run(s, events), t) && Total(Run(s, events)) == Total(s)
    decreases |events|
  {
    hide Enabled, Next, ScanOk;
    if events != [] {
      StepKeepsScan(s, events[0], t);
      SameSize(s, events[0]);
      RunKeepsScan(Next(s, events[0]), events[1..], t);
    }
  }

  /** If a search that starts in the run gives up, there was for every bit of the map a moment since then at which that bit
      was taken: a bit that stays free all the while is always found, whoever else claims and frees. */
  lemma NoSpaceMeansEveryBitWasTaken(s: State, events: seq<Event>, t: nat, b: nat)
    requires At(s, t) && s.tasks[t].scan.Between? && CanRun(s, events) && Enabled(Run(s, events), GiveUp(t)) && b < Total(s)
    ensures OnceTaken(s, events, b)
  {
    hide Enabled, Next, Bit, CanRun, Run, OnceTaken, First, Last;
    assert ScanOk(s, t);
    RunKeepsScan(s, events, t);
    GivesUpAfterEveryBit(Run(s, events), t, b);
    SeenWasTaken(s, events, t, b);
  }

  // ---- one call with nobody in between ----

  /** A claim that nobody interrupts does to the map and the counter what `Allocator.Claim` says. */
  lemma UninterruptedClaim(s: State, e: Event)
    requires Enabled(s, e) && (e.TryOwn? || e.TryOther?) && !Skips(s, e.t)
    ensures var b, s1 := Candidate(s, e.t), Next(s, e);
            if Bit(s.bytes, b) then s1.bytes == s.bytes && s1.used == s.used
            else Enabled(s1, AddUsed(e.t)) && Next(s1, AddUsed(e.t)).bytes == WithBit(s.bytes, b) && Next(s1, AddUsed(e.t)).used == s.used + 1
  {
    hide First, Last, RoundBit, Bit, WithBit;
    if Bit(s.bytes, Candidate(s, e.t)) {
      SetAgain(s.bytes, Candidate(s, e.t));
    }
  }

  // ---- every call ends ----

  /** No call ever has to wait for another one: its next step is always possible. */
  lemma NoCallIsStuck(s: State, t: nat) returns (e: Event)
    requires Inv(s) && t in s.tasks && ScanOk(s, t)
    ensures e.t == t && Enabled(s, e)
  {
    hide Apart, InMap, Backed, UsedOk, First, Last, Visited;
    assert TaskOk(s, s.tasks[t]);
    match s.tasks[t]
    case Freeing(_) => e := ClearBit(t);
    case Cleared => e := SubFreed(t);
    case Alloc(want, _, list, scan) =>
      match scan
      case Between => e := if |list| < want then StartScan(t) else Return(t);
      case Own(_, i, _) => e := if i < Span(s, t) then TryOwn(t) else ToOthers(t);
      case Others(i, _) => e := if i < Total(s) then TryOther(t) else GiveUp(t);
      case Won(_) => e := AddUsed(t);
      case Undoing => e := if list != [] then UndoBit(t) else Fail(t);
      case Undone => e := SubUsed(t);
  }

  /** A call can begin at any time, for any number of bits, and every bit that is held can be freed. */
  lemma CallsCanBegin(s: State, t: nat, worker: nat, want: nat, b: nat)
    requires Inv(s) && t !in s.tasks
    ensures Enabled(s, Begin(t, worker, want)) && (b in s.held ==> Enabled(s, Free(t, b)))
  {
  }

  /** A step that is possible can be taken after any run. */
  lemma {:induction false} RunGoesOn(s: State, events: seq<Event>, e: Event)
    requires CanRun(s, events)
    ensures CanRun(s, events + [e]) <==> Enabled(Run(s, events), e)
    decreases |events|
  {
    hide Enabled, Next;
    var all := events + [e];
    if events == [] {
      assert all == [e] && all[1..] == [];
    } else {
      assert all[0] == events[0] && all[1..] == events[1..] + [e];
      RunGoesOn(Next(s, events[0]), events[1..], e);
    }
  }

  /** The search of one bit, and of `n` more. */
  function ForBits(total: nat, n: nat): nat {
    if n == 0 then 0 else ForBits(total, n - 1) + 2 * total + 8
  }

  /** A bound on the steps that a call still takes. */
  function StepsLeft(s: State, t: nat): nat {
    if t !in s.tasks then 0
    else
      match s.tasks[t]
      case Freeing(_) => 2
      case Cleared => 1
      case Alloc(want, worker, list, scan) =>
        var open := if want > |list| then want - |list| else 0;
        var rest := ForBits(Total(s), if open > 0 then open - 1 else 0) + 2 * |list|;
        match scan
        case Between => ForBits(Total(s), open) + 2 * |list| + 1
        case Own(_, i, _) => rest + 6 + Total(s) + (if i < Total(s) then Total(s) - i else 0)
        case Others(i, _) => rest + 5 + (if i < Total(s) then Total(s) - i else 0)
        case Won(_) => rest + 4
        case Undoing => 2 * |list| + 1
        case Undone => 2 * |list| + 2
  }

  /** Every call ends after a bounded number of its own steps, whatever the others do: each step of its own takes one off, and
      theirs take nothing back. */
  lemma CallsAreWaitFree(s: State, e: Event, t: nat)
    requires Inv(s) && Enabled(s, e) && (e.t == t ==> !e.Begin? && !e.Free?)
    ensures if e.t == t then StepsLeft(Next(s, e), t) < StepsLeft(s, t) else StepsLeft(Next(s, e), t) == StepsLeft(s, t)
  {
    hide Apart, InMap, Backed, UsedOk, TaskOk, Bit, Enabled, TaskAfter, BytesAfter, CursorsAfter, HeldAfter, Ors, Ands;
    SameSize(s, e);
    if e.t == t {
      OwnStepCounts(s, e);
    }
  }

  lemma OwnStepCounts(s: State, e: Event)
    requires Inv(s) && Enabled(s, e) && !e.Begin? && !e.Free?
    ensures StepsLeft(Next(s, e), e.t) < StepsLeft(s, e.t)
  {
    hide Apart, InMap, Backed, UsedOk, Bit, First, Last, Candidate, Skips, BytesAfter, CursorsAfter, HeldAfter, Ors, Ands;
    SameSize(s, e);
    assert TaskOk(s, s.tasks[e.t]);
  }
}
