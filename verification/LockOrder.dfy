/** Namespace operations take their locks in one global order, so some operation can always move on. */
module LockOrder {
  import opened Media
  import opened RangeArbiter

  /** A lock of the namespace. Level 0 is the topology gate, 1 the directories, 2 the inode states, 3 the file ranges. */
  datatype Lock = Lock(level: nat, inode: nat)

  predicate Below(a: Lock, b: Lock) {
    a.level < b.level || (a.level == b.level && a.inode < b.inode)
  }

  lemma BelowIsOrder(a: Lock, b: Lock, c: Lock)
    ensures Below(a, b) && Below(b, c) ==> Below(a, c)
    ensures a != b ==> Below(a, b) || Below(b, a)
    ensures !(Below(a, b) && Below(b, a))
  {
  }

  type State = map<Lock, Queues>

  function At(s: State, l: Lock): Queues {
    if l in s then s[l] else Queues([], [])
  }

  ghost predicate Owns(rs: seq<Request>, p: nat) {
    exists i :: 0 <= i < |rs| && rs[i].owner == p
  }

  ghost predicate Holds(s: State, p: nat, l: Lock) {
    Owns(At(s, l).active, p)
  }

  ghost predicate Waits(s: State, p: nat, l: Lock) {
    Owns(At(s, l).waiting, p)
  }

  ghost predicate Idle(s: State, p: nat) {
    forall l :: !Waits(s, p, l)
  }

  datatype Step = Take(l: Lock, r: Request) | Give(l: Lock, r: Request)

  /** An operation that waits does nothing else, and takes only locks above all it holds. */
  ghost predicate Enabled(s: State, step: Step) {
    && Idle(s, step.r.owner)
    && match step
       case Take(l, r) => forall m :: Holds(s, r.owner, m) ==> Below(m, l)
       case Give(l, r) => r in At(s, l).active
  }

  function Next(s: State, step: Step): State
    requires step.Give? ==> step.r in At(s, step.l).active
  {
    match step
    case Take(l, r) => s[l := Acquired(At(s, l), r)]
    case Give(l, r) => s[l := Released(At(s, l), r)]
  }

  // ---- the invariant ----

  ghost predicate OwnersDiffer(rs: seq<Request>) {
    forall i, j :: 0 <= i < j < |rs| ==> rs[i].owner != rs[j].owner
  }

  ghost predicate QueueInv(s: State, l: Lock) {
    QueuesOk(At(s, l)) && OwnersDiffer(At(s, l).waiting)
  }

  ghost predicate OneWait(s: State) {
    forall p, l, m :: Waits(s, p, l) && Waits(s, p, m) ==> l == m
  }

  ghost predicate Ascending(s: State) {
    forall p, l, m :: Waits(s, p, l) && Holds(s, p, m) ==> Below(m, l)
  }

  ghost predicate Inv(s: State) {
    (forall l :: QueueInv(s, l)) && OneWait(s) && Ascending(s)
  }

  // ---- what a release does to owners ----

  /** After the pass, whoever waits waited before and got nothing; whoever is new among the active waited before. */
  lemma {:induction false} SweepOwners(active: seq<Request>, kept: seq<Request>, rest: seq<Request>)
    requires OwnersDiffer(kept + rest)
    ensures OwnersDiffer(Sweep(active, kept, rest).waiting)
    ensures forall p :: Owns(Sweep(active, kept, rest).waiting, p) ==> Owns(kept + rest, p)
    ensures forall p :: Owns(Sweep(active, kept, rest).active, p) ==>
              Owns(active, p) || (Owns(rest, p) && !Owns(Sweep(active, kept, rest).waiting, p))
    decreases |rest|
  {
    if rest == [] {
      assert kept + rest == kept;
    } else {
      hide Blocked, Conflicts;
      var r, tail := rest[0], rest[1..];
      if Blocked(r, active) || Blocked(r, kept) {
        assert kept + [r] + tail == kept + rest;
        SweepOwners(active, kept + [r], tail);
        TailOwners(rest);
      } else {
        GrantOwners(active, kept, rest);
        SweepOwners(active + [r], kept, tail);
        TailOwners(rest);
      }
    }
  }

  lemma TailOwners(rest: seq<Request>)
    requires rest != []
    ensures forall p :: Owns(rest[1..], p) ==> Owns(rest, p)
  {
  }

  lemma GrantOwners(active: seq<Request>, kept: seq<Request>, rest: seq<Request>)
    requires rest != [] && OwnersDiffer(kept + rest)
    ensures OwnersDiffer(kept + rest[1..]) && !Owns(kept + rest[1..], rest[0].owner)
    ensures forall p :: Owns(kept + rest[1..], p) ==> Owns(kept + rest, p)
    ensures forall p :: Owns(active + [rest[0]], p) ==> Owns(active, p) || p == rest[0].owner
    ensures Owns(rest, rest[0].owner)
  {
    var all, less := kept + rest, kept + rest[1..];
    assert forall i :: 0 <= i < |less| ==> less[i] == all[if i < |kept| then i else i + 1];
    assert all[|kept|] == rest[0];
    forall p | Owns(less, p) ensures Owns(all, p) && p != rest[0].owner {
      var i :| 0 <= i < |less| && less[i].owner == p;
      assert less[i] == all[if i < |kept| then i else i + 1];
    }
    forall p | Owns(active + [rest[0]], p) ensures Owns(active, p) || p == rest[0].owner {
      var i :| 0 <= i < |active + [rest[0]]| && (active + [rest[0]])[i].owner == p;
      assert i < |active| ==> active[i].owner == p;
    }
  }

  lemma DroppedOwners(rs: seq<Request>, k: nat, p: nat)
    requires k < |rs| && Owns(Dropped(rs, k), p)
    ensures Owns(rs, p)
  {
  }

  lemma ReleaseOwners(q: Queues, r: Request)
    requires r in q.active && OwnersDiffer(q.waiting)
    ensures OwnersDiffer(Released(q, r).waiting)
    ensures forall p :: Owns(Released(q, r).waiting, p) ==> Owns(q.waiting, p)
    ensures forall p :: Owns(Released(q, r).active, p) ==>
              Owns(q.active, p) || (Owns(q.waiting, p) && !Owns(Released(q, r).waiting, p))
  {
    hide Sweep;
    var k := IndexOf(q.active, r);
    var rest := Dropped(q.active, k);
    assert [] + q.waiting == q.waiting;
    SweepOwners(rest, [], q.waiting);
    forall p | Owns(rest, p) ensures Owns(q.active, p) {
      DroppedOwners(q.active, k, p);
    }
  }

  // ---- every step keeps the invariant ----

  lemma GiveKeepsInv(s: State, l: Lock, r: Request)
    requires Inv(s) && Enabled(s, Give(l, r))
    ensures Inv(Next(s, Give(l, r)))
  {
    hide Released, QueuesOk, Owns, OwnersDiffer;
    var s' := Next(s, Give(l, r));
    assert QueueInv(s, l);
    ReleaseKeeps(At(s, l), r);
    ReleaseOwners(At(s, l), r);
    forall m ensures QueueInv(s', m) {
      assert QueueInv(s, m);
    }
    forall p, m | Waits(s', p, m) ensures Waits(s, p, m) {
      assert m != l ==> At(s', m) == At(s, m);
    }
    forall p, a, b | Waits(s', p, a) && Holds(s', p, b) ensures Below(b, a) {
      assert Waits(s, p, a);
      assert Waits(s, p, l) ==> a == l;
      assert b != l ==> At(s', b) == At(s, b);
      assert Holds(s, p, b);
    }
  }

  lemma TakeOwners(q: Queues, r: Request)
    requires OwnersDiffer(q.waiting) && !Owns(q.waiting, r.owner)
    ensures OwnersDiffer(Acquired(q, r).waiting)
    ensures forall p :: Owns(Acquired(q, r).waiting, p) ==> Owns(q.waiting, p) || p == r.owner
    ensures forall p :: Owns(Acquired(q, r).active, p) ==> Owns(q.active, p) || p == r.owner
    ensures Owns(Acquired(q, r).waiting, r.owner) ==> Acquired(q, r).active == q.active
  {
  }

  lemma TakeKeepsInv(s: State, l: Lock, r: Request)
    requires Inv(s) && Enabled(s, Take(l, r))
    ensures Inv(Next(s, Take(l, r)))
  {
    hide Acquired, QueuesOk, Owns, OwnersDiffer;
    var s' := Next(s, Take(l, r));
    assert QueueInv(s, l) && !Waits(s, r.owner, l);
    AcquireKeeps(At(s, l), r);
    TakeOwners(At(s, l), r);
    forall m ensures QueueInv(s', m) {
      assert QueueInv(s, m);
    }
    forall p, m | Waits(s', p, m) ensures Waits(s, p, m) || (p == r.owner && m == l) {
      assert m != l ==> At(s', m) == At(s, m);
    }
    forall p, a, b | Waits(s', p, a) && Holds(s', p, b) ensures Below(b, a) {
      if p == r.owner {
        assert !Waits(s, p, a);
        assert a == l;
        assert Holds(s, p, b);
      } else {
        assert Waits(s, p, a) && Holds(s, p, b);
      }
    }
  }

  // ---- no deadlock ----

  /** The highest lock of `keys` that somebody waits for. */
  lemma {:induction false} HighestWaited(s: State, keys: set<Lock>, l: Lock) returns (top: Lock)
    requires l in keys && At(s, l).waiting != []
    ensures top in keys && At(s, top).waiting != []
    ensures forall k :: k in keys && At(s, k).waiting != [] ==> !Below(top, k)
    decreases keys
  {
    if above :| above in keys && At(s, above).waiting != [] && Below(l, above) {
      top := HighestWaited(s, keys - {l}, above);
      BelowIsOrder(top, l, above);
    } else {
      top := l;
    }
  }

  /** Whenever somebody waits, somebody who holds a lock waits for nothing and can go on to release it. */
  lemma SomebodyCanMove(s: State, p: nat, l: Lock) returns (step: Step)
    requires Inv(s) && Waits(s, p, l)
    ensures step.Give? && Enabled(s, step)
  {
    hide QueuesOk;
    assert At(s, l).waiting != [] && l in s.Keys;
    var m := HighestWaited(s, s.Keys, l);
    assert QueueInv(s, m);
    var i := FirstWaiterHasActiveBlocker(At(s, m));
    step := Give(m, At(s, m).active[i]);
    var q := step.r.owner;
    assert Holds(s, q, m);
    forall k ensures !Waits(s, q, k) {
      if Waits(s, q, k) {
        WaitsAboveHeld(s, q, m, k);
      }
    }
  }

  lemma WaitsAboveHeld(s: State, q: nat, m: Lock, k: Lock)
    requires Inv(s) && Holds(s, q, m) && Waits(s, q, k)
    ensures Below(m, k) && k in s.Keys && At(s, k).waiting != []
  {
  }

  // ---- runs ----

  ghost predicate CanRun(s: State, steps: seq<Step>)
    decreases |steps|
  {
    steps == [] || (Enabled(s, steps[0]) && CanRun(Next(s, steps[0]), steps[1..]))
  }

  ghost function Run(s: State, steps: seq<Step>): State
    requires CanRun(s, steps)
    decreases |steps|
  {
    if steps == [] then s else Run(Next(s, steps[0]), steps[1..])
  }

  lemma {:induction false} RunKeepsInv(s: State, steps: seq<Step>)
    requires Inv(s) && CanRun(s, steps)
    ensures Inv(Run(s, steps))
    decreases |steps|
  {
    if steps != [] {
      hide Inv, Next, Enabled;
      StepKeepsInv(s, steps[0]);
      RunKeepsInv(Next(s, steps[0]), steps[1..]);
    }
  }

  lemma StepKeepsInv(s: State, step: Step)
    requires Inv(s) && Enabled(s, step)
    ensures Inv(Next(s, step))
  {
    hide Inv;
    match step
    case Take(l, r) => TakeKeepsInv(s, l, r);
    case Give(l, r) => GiveKeepsInv(s, l, r);
  }

  /** In every run from no locks at all: if an operation waits, another one that waits for nothing can release a lock. */
  lemma NoRunDeadlocks(steps: seq<Step>, p: nat, l: Lock) returns (step: Step)
    requires CanRun(map[], steps) && Waits(Run(map[], steps), p, l)
    ensures step.Give? && Enabled(Run(map[], steps), step)
  {
    hide Run, CanRun, Waits, Enabled;
    NoLocksInv();
    RunKeepsInv(map[], steps);
    step := SomebodyCanMove(Run(map[], steps), p, l);
  }

  /** The requests for lock `l` that the steps have made and not taken back. */
  function Asked(asked: multiset<Request>, steps: seq<Step>, l: Lock): multiset<Request>
    decreases |steps|
  {
    if steps == [] then asked
    else
      var step := steps[0];
      var next := if step.l != l then asked else if step.Take? then asked + multiset{step.r} else asked - multiset{step.r};
      Asked(next, steps[1..], l)
  }

  function AtLock(q: Queues): multiset<Request> {
    multiset(q.active) + multiset(q.waiting)
  }

  lemma TakeAsks(q: Queues, r: Request)
    ensures AtLock(Acquired(q, r)) == AtLock(q) + multiset{r}
  {
    hide GrantedAtOnce;
  }

  lemma GiveAsks(q: Queues, r: Request)
    requires QueuesOk(q) && r in q.active
    ensures AtLock(Released(q, r)) == AtLock(q) - multiset{r}
  {
    hide QueuesOk, Released;
    ReleaseKeeps(q, r);
  }

  lemma StepAsks(s: State, step: Step, l: Lock)
    requires Inv(s) && Enabled(s, step)
    ensures AtLock(At(Next(s, step), l)) ==
            if step.l != l then AtLock(At(s, l))
            else if step.Take? then AtLock(At(s, l)) + multiset{step.r} else AtLock(At(s, l)) - multiset{step.r}
  {
    hide QueuesOk, Acquired, Released, AtLock;
    assert QueueInv(s, step.l);
    if step.Give? {
      GiveAsks(At(s, step.l), step.r);
    } else {
      TakeAsks(At(s, step.l), step.r);
    }
  }

  /** In every run each lock has exactly the requests that were made for it and not taken back, held or waiting. */
  lemma {:induction false} NobodyIsForgotten(s: State, steps: seq<Step>, l: Lock)
    requires Inv(s) && CanRun(s, steps)
    ensures AtLock(At(Run(s, steps), l)) == Asked(AtLock(At(s, l)), steps, l)
    decreases |steps|
  {
    if steps != [] {
      hide Inv, Enabled, Next, AtLock;
      StepAsks(s, steps[0], l);
      StepKeepsInv(s, steps[0]);
      NobodyIsForgotten(Next(s, steps[0]), steps[1..], l);
    }
  }

  // ---- every run can be brought to its end ----

  /** Requests at the given locks. */
  function Load(s: State, locks: seq<Lock>): nat {
    if locks == [] then 0 else |At(s, locks[0]).active| + |At(s, locks[0]).waiting| + Load(s, locks[1..])
  }

  ghost predicate Different(locks: seq<Lock>) {
    forall i, j :: 0 <= i < j < |locks| ==> locks[i] != locks[j]
  }

  lemma ReleasedIsOneLess(q: Queues, r: Request)
    requires QueuesOk(q) && r in q.active
    ensures |Released(q, r).active| + |Released(q, r).waiting| + 1 == |q.active| + |q.waiting|
  {
    ReleaseKeeps(q, r);
    var q' := Released(q, r);
    assert |multiset(q'.active) + multiset(q'.waiting) + multiset{r}| == |multiset(q.active) + multiset(q.waiting)|;
  }

  lemma {:induction false} GiveDropsLoad(s: State, l: Lock, r: Request, locks: seq<Lock>)
    requires QueuesOk(At(s, l)) && r in At(s, l).active && Different(locks)
    ensures Load(Next(s, Give(l, r)), locks) + (if l in locks then 1 else 0) == Load(s, locks)
    decreases |locks|
  {
    hide QueuesOk, Released;
    if locks != [] {
      GiveDropsLoad(s, l, r, locks[1..]);
      if locks[0] == l {
        ReleasedIsOneLess(At(s, l), r);
        assert l !in locks[1..];
      }
    }
  }

  lemma {:induction false} NoLoadMeansFree(s: State, locks: seq<Lock>, l: Lock)
    requires l in locks && Load(s, locks) == 0
    ensures At(s, l) == Queues([], [])
    decreases |locks|
  {
    if locks[0] != l {
      NoLoadMeansFree(s, locks[1..], l);
    }
  }

  lemma {:induction false} SomeLoad(s: State, locks: seq<Lock>) returns (l: Lock)
    requires Load(s, locks) > 0
    ensures l in locks && (At(s, l).active != [] || At(s, l).waiting != [])
    decreases |locks|
  {
    l := locks[0];
    if At(s, l).active == [] && At(s, l).waiting == [] {
      l := SomeLoad(s, locks[1..]);
    }
  }

  /** While any lock is held or wanted, somebody can release one. */
  lemma SomebodyCanGive(s: State, l: Lock) returns (step: Step)
    requires Inv(s) && (At(s, l).active != [] || At(s, l).waiting != [])
    ensures step.Give? && Enabled(s, step)
  {
    hide QueuesOk;
    if At(s, l).waiting != [] {
      step := SomebodyCanMove(s, At(s, l).waiting[0].owner, l);
    } else if p, m :| Waits(s, p, m) {
      step := SomebodyCanMove(s, p, m);
    } else {
      step := Give(l, At(s, l).active[0]);
    }
  }

  lemma {:induction false} DrainFrom(s: State, locks: seq<Lock>) returns (steps: seq<Step>)
    requires Inv(s) && Different(locks) && forall l :: l in s ==> l in locks
    ensures CanRun(s, steps) && (forall i :: 0 <= i < |steps| ==> steps[i].Give?)
    ensures forall l :: At(Run(s, steps), l) == Queues([], [])
    decreases Load(s, locks)
  {
    hide Inv, Enabled, QueuesOk, Released, Different;
    if Load(s, locks) == 0 {
      steps := [];
      forall l ensures At(s, l) == Queues([], []) {
        if l in s {
          NoLoadMeansFree(s, locks, l);
        }
      }
    } else {
      var l := SomeLoad(s, locks);
      var step := SomebodyCanGive(s, l);
      GiveIsActive(s, step);
      GiveDropsLoad(s, step.l, step.r, locks);
      StepKeepsInv(s, step);
      var rest := DrainFrom(Next(s, step), locks);
      steps := [step] + rest;
      assert steps[1..] == rest;
    }
  }

  lemma GiveIsActive(s: State, step: Step)
    requires Inv(s) && step.Give? && Enabled(s, step)
    ensures step.r in At(s, step.l).active && step.l in s && QueuesOk(At(s, step.l))
  {
    assert QueueInv(s, step.l);
  }

  lemma {:induction false} ListOf(locks: set<Lock>) returns (list: seq<Lock>)
    ensures Different(list) && forall l :: l in list <==> l in locks
    decreases |locks|
  {
    if locks == {} {
      list := [];
    } else {
      var l :| l in locks;
      var rest := ListOf(locks - {l});
      list := [l] + rest;
    }
  }

  /** However a run has gone, releases alone, each by an operation that waits for nothing, grant every waiter and free every
      lock. */
  lemma EveryRunCanFinish(steps: seq<Step>) returns (rest: seq<Step>)
    requires CanRun(map[], steps)
    ensures CanRun(Run(map[], steps), rest) && (forall i :: 0 <= i < |rest| ==> rest[i].Give?)
    ensures forall l :: At(Run(Run(map[], steps), rest), l) == Queues([], [])
  {
    hide Run, CanRun, Inv;
    NoLocksInv();
    RunKeepsInv(map[], steps);
    var locks := ListOf(Run(map[], steps).Keys);
    rest := DrainFrom(Run(map[], steps), locks);
  }

  lemma NoLocksInv()
    ensures Inv(map[])
  {
  }

  // ---- the order itself ----

  ghost predicate StrictlyUp(xs: seq<nat>) {
    forall i, j :: 0 <= i < j < |xs| ==> xs[i] < xs[j]
  }

  /** The directories of an operation, sorted and without repeats; None is EINVAL. */
  method OrderedDirectories(directories: seq<int>) returns (ordered: Option<seq<nat>>)
    ensures ordered.None? <==> directories == [] || |directories| > 4 || exists i :: 0 <= i < |directories| && directories[i] < 0
    ensures ordered.Some? ==> StrictlyUp(ordered.value) && forall x :: x in ordered.value <==> x in directories
  {
    if directories == [] || |directories| > 4 {
      return None;
    }
    var sorted: seq<nat> := [];
    var i := 0;
    while i < |directories|
      invariant 0 <= i <= |directories|
      invariant forall j :: 0 <= j < i ==> directories[j] >= 0
      invariant StrictlyUp(sorted) && forall x :: x in sorted <==> x in directories[..i]
    {
      if directories[i] < 0 {
        return None;
      }
      sorted := Insert(sorted, directories[i]);
      assert directories[..i + 1] == directories[..i] + [directories[i]];
      i := i + 1;
    }
    assert directories[..i] == directories;
    ordered := Some(sorted);
  }

  method Insert(sorted: seq<nat>, x: nat) returns (r: seq<nat>)
    requires StrictlyUp(sorted)
    ensures StrictlyUp(r) && forall y :: y in r <==> y in sorted || y == x
  {
    var k := 0;
    while k < |sorted| && sorted[k] < x
      invariant 0 <= k <= |sorted| && forall j :: 0 <= j < k ==> sorted[j] < x
    {
      k := k + 1;
    }
    if k < |sorted| && sorted[k] == x {
      return sorted;
    }
    InsertedUp(sorted, k, x);
    r := sorted[..k] + [x] + sorted[k..];
  }

  lemma InsertedUp(sorted: seq<nat>, k: nat, x: nat)
    requires StrictlyUp(sorted) && k <= |sorted| && (forall j :: 0 <= j < k ==> sorted[j] < x) && (k < |sorted| ==> x < sorted[k])
    ensures var r := sorted[..k] + [x] + sorted[k..]; StrictlyUp(r) && forall y :: y in r <==> y in sorted || y == x
  {
    var r := sorted[..k] + [x] + sorted[k..];
    forall i, j | 0 <= i < j < |r| ensures r[i] < r[j] {
      assert r[i] == if i < k then sorted[i] else if i == k then x else sorted[i - 1];
      assert r[j] == if j < k then sorted[j] else if j == k then x else sorted[j - 1];
    }
    assert sorted == sorted[..k] + sorted[k..];
  }

  /** Taking the directories in that order, above the gate, is what `Enabled` asks for. */
  lemma OrderedTakesAreEnabled(s: State, p: nat, ordered: seq<nat>, i: nat, r: Request)
    requires StrictlyUp(ordered) && i < |ordered| && r.owner == p && Idle(s, p)
    requires forall m :: Holds(s, p, m) ==> m.level == 0 || (m.level == 1 && m.inode in ordered[..i])
    ensures Enabled(s, Take(Lock(1, ordered[i]), r))
  {
  }
}
