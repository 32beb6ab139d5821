/** Reader-writer arbitration of block ranges: exclusion, order of arrival, and grants that leave nothing grantable. */
module RangeArbiter {
  import opened Media

  const MAX_OFFSET: nat := 0xFFFF_FFFF_FFFF_FFFF

  /** A request of `owner` for blocks `first..last`, both included. */
  datatype Request = Request(owner: nat, first: nat, last: nat, write: bool)

  predicate Overlaps(r: Request, s: Request) {
    r.first <= s.last && s.first <= r.last
  }

  predicate Conflicts(r: Request, s: Request) {
    Overlaps(r, s) && (r.write || s.write)
  }

  datatype Queues = Queues(active: seq<Request>, waiting: seq<Request>)

  predicate Blocked(r: Request, others: seq<Request>) {
    exists i :: 0 <= i < |others| && Conflicts(r, others[i])
  }

  // ---- what arbitration promises ----

  ghost predicate Exclusive(active: seq<Request>) {
    forall i, j :: 0 <= i < j < |active| ==> !Conflicts(active[i], active[j])
  }

  /** Every waiter has a reason to wait: an active request, or a waiter in front of it. */
  ghost predicate NothingGrantable(q: Queues) {
    forall k :: 0 <= k < |q.waiting| ==> Blocked(q.waiting[k], q.active) || Blocked(q.waiting[k], q.waiting[..k])
  }

  ghost predicate QueuesOk(q: Queues) {
    Exclusive(q.active) && NothingGrantable(q)
  }

  // ---- acquire ----

  predicate GrantedAtOnce(q: Queues, r: Request) {
    !Blocked(r, q.active) && !Blocked(r, q.waiting)
  }

  function Acquired(q: Queues, r: Request): Queues {
    if GrantedAtOnce(q, r) then Queues(q.active + [r], q.waiting) else Queues(q.active, q.waiting + [r])
  }

  lemma ConflictsIsSymmetric(r: Request, s: Request)
    ensures Conflicts(r, s) <==> Conflicts(s, r)
  {
  }

  lemma BlockedExactly(r: Request, others: seq<Request>)
    ensures Blocked(r, others) <==> exists s :: s in others && r.first <= s.last && s.first <= r.last && (r.write || s.write)
  {
    if s :| s in others && r.first <= s.last && s.first <= r.last && (r.write || s.write) {
      var i :| 0 <= i < |others| && others[i] == s;
      assert Conflicts(r, others[i]);
    }
  }

  lemma MoreBlocks(r: Request, others: seq<Request>, s: Request)
    ensures Blocked(r, others + [s]) <==> Blocked(r, others) || Conflicts(r, s)
  {
    var all := others + [s];
    if Blocked(r, others) {
      var i :| 0 <= i < |others| && Conflicts(r, others[i]);
      assert all[i] == others[i];
    }
    if Conflicts(r, s) {
      assert all[|others|] == s;
    }
  }

  lemma AcquireKeeps(q: Queues, r: Request)
    requires QueuesOk(q)
    ensures QueuesOk(Acquired(q, r))
  {
    var q' := Acquired(q, r);
    forall k | 0 <= k < |q'.waiting| ensures Blocked(q'.waiting[k], q'.active) || Blocked(q'.waiting[k], q'.waiting[..k]) {
      if k < |q.waiting| {
        assert q'.waiting[..k] == q.waiting[..k];
        MoreBlocks(q.waiting[k], q.active, r);
      } else {
        assert q'.waiting[..k] == q.waiting;
      }
    }
    if GrantedAtOnce(q, r) {
      forall i, j | 0 <= i < j < |q'.active| ensures !Conflicts(q'.active[i], q'.active[j]) {
        if j == |q.active| {
          ConflictsIsSymmetric(r, q.active[i]);
        }
      }
    }
  }

  // ---- release: one pass over the waiters, oldest first ----

  /** Waiters `rest` considered one after the other, those in `kept` having been passed over. */
  function Sweep(active: seq<Request>, kept: seq<Request>, rest: seq<Request>): Queues
    decreases |rest|
  {
    if rest == [] then Queues(active, kept)
    else if Blocked(rest[0], active) || Blocked(rest[0], kept) then Sweep(active, kept + [rest[0]], rest[1..])
    else Sweep(active + [rest[0]], kept, rest[1..])
  }

  lemma {:induction false} SweepKeeps(active: seq<Request>, kept: seq<Request>, rest: seq<Request>)
    requires QueuesOk(Queues(active, kept))
    ensures QueuesOk(Sweep(active, kept, rest))
    decreases |rest|
  {
    hide Conflicts;
    if rest != [] {
      var r := rest[0];
      AcquireKeeps(Queues(active, kept), r);
      if Blocked(r, active) || Blocked(r, kept) {
        SweepKeeps(active, kept + [r], rest[1..]);
      } else {
        SweepKeeps(active + [r], kept, rest[1..]);
      }
    }
  }

  /** No request is lost or made up. */
  lemma {:induction false} SweepConserves(active: seq<Request>, kept: seq<Request>, rest: seq<Request>)
    ensures var q := Sweep(active, kept, rest);
            multiset(q.active) + multiset(q.waiting) == multiset(active) + multiset(kept) + multiset(rest)
    ensures active <= Sweep(active, kept, rest).active && kept <= Sweep(active, kept, rest).waiting
    decreases |rest|
  {
    if rest != [] {
      var r := rest[0];
      assert rest == [r] + rest[1..];
      if Blocked(r, active) || Blocked(r, kept) {
        SweepConserves(active, kept + [r], rest[1..]);
      } else {
        SweepConserves(active + [r], kept, rest[1..]);
      }
    }
  }

  /** A granted waiter conflicts with no waiter that was in front of it: nobody is overtaken. */
  lemma {:induction false} NobodyOvertaken(active: seq<Request>, kept: seq<Request>, rest: seq<Request>, k: nat)
    requires Exclusive(active) && k < |rest| && rest[k] !in Sweep(active, kept, rest).waiting
    ensures forall i :: 0 <= i < |kept| ==> !Conflicts(rest[k], kept[i])
    ensures forall i :: 0 <= i < k ==> !Conflicts(rest[k], rest[i])
    ensures forall i :: 0 <= i < |active| ==> !Conflicts(rest[k], active[i])
    decreases |rest|
  {
    hide Conflicts;
    var r := rest[0];
    var stays := Blocked(r, active) || Blocked(r, kept);
    var active', kept' := if stays then active else active + [r], if stays then kept + [r] else kept;
    if k > 0 {
      if !stays {
        ExclusiveMore(active, r);
      }
      NobodyOvertaken(active', kept', rest[1..], k - 1);
      assert !Conflicts(rest[k], r) by {
        if stays {
          assert kept'[|kept|] == r;
        } else {
          assert active'[|active|] == r;
        }
      }
      assert forall i :: 0 <= i < |kept| ==> kept'[i] == kept[i];
      assert forall i :: 0 <= i < |active| ==> active'[i] == active[i];
      forall i | 0 <= i < k ensures !Conflicts(rest[k], rest[i]) {
        if i > 0 {
          assert rest[1..][i - 1] == rest[i] && rest[1..][k - 1] == rest[k];
        }
      }
    } else if stays {
      PassedOverWaits(active, kept, rest);
    }
  }

  lemma PassedOverWaits(active: seq<Request>, kept: seq<Request>, rest: seq<Request>)
    requires rest != [] && (Blocked(rest[0], active) || Blocked(rest[0], kept))
    ensures rest[0] in Sweep(active, kept, rest).waiting
  {
    SweepConserves(active, kept + [rest[0]], rest[1..]);
    assert Sweep(active, kept, rest).waiting[|kept|] == rest[0];
  }

  lemma ExclusiveMore(active: seq<Request>, r: Request)
    requires Exclusive(active) && !Blocked(r, active)
    ensures Exclusive(active + [r])
  {
  }

  function IndexOf(rs: seq<Request>, r: Request): (k: nat)
    ensures k <= |rs| && (k < |rs| ==> rs[k] == r) && (k == |rs| ==> r !in rs)
  {
    if rs == [] || rs[0] == r then 0 else 1 + IndexOf(rs[1..], r)
  }

  function Dropped(rs: seq<Request>, k: nat): (rest: seq<Request>)
    requires k < |rs|
    ensures multiset(rest) == multiset(rs) - multiset{rs[k]} && rs[k] in multiset(rs)
  {
    assert rs == rs[..k] + [rs[k]] + rs[k + 1..];
    rs[..k] + rs[k + 1..]
  }

  function Released(q: Queues, r: Request): Queues
    requires r in q.active
  {
    Sweep(Dropped(q.active, IndexOf(q.active, r)), [], q.waiting)
  }

  lemma DroppedExclusive(active: seq<Request>, k: nat)
    requires Exclusive(active) && k < |active|
    ensures Exclusive(Dropped(active, k))
  {
  }

  /** A release keeps exclusion, grants everything that can be granted and loses nobody. */
  lemma ReleaseKeeps(q: Queues, r: Request)
    requires QueuesOk(q) && r in q.active
    ensures QueuesOk(Released(q, r))
    ensures multiset(Released(q, r).active) + multiset(Released(q, r).waiting) + multiset{r} == multiset(q.active) + multiset(q.waiting)
  {
    hide Conflicts, Exclusive, Blocked;
    var rest := Dropped(q.active, IndexOf(q.active, r));
    DroppedExclusive(q.active, IndexOf(q.active, r));
    assert QueuesOk(Queues(rest, []));
    SweepKeeps(rest, [], q.waiting);
    SweepConserves(rest, [], q.waiting);
  }

  /** Somebody in front of every queue of waiters is blocked by an active request only. */
  lemma FirstWaiterHasActiveBlocker(q: Queues) returns (i: nat)
    requires QueuesOk(q) && q.waiting != []
    ensures i < |q.active| && Conflicts(q.waiting[0], q.active[i])
  {
    assert Blocked(q.waiting[0], q.active) || Blocked(q.waiting[0], q.waiting[..0]);
    i :| 0 <= i < |q.active| && Conflicts(q.waiting[0], q.active[i]);
  }

  // ---- byte ranges ----

  /** The request for bytes `offset..offset + length`, in blocks of 32 KiB; None if the range is empty or runs past the last offset. */
  function Rounded(owner: nat, offset: nat, length: nat, write: bool): (r: Option<Request>)
    ensures r.Some? <==> length > 0 && offset + (length - 1) <= 0xFFFF_FFFF_FFFF_FFFF
    ensures r.Some? ==> r.value.owner == owner && r.value.write == write
    ensures r.Some? ==> r.value.first * 32768 <= offset < (r.value.first + 1) * 32768
    ensures r.Some? ==> r.value.last * 32768 <= offset + length - 1 < (r.value.last + 1) * 32768
  {
    if length == 0 || offset > MAX_OFFSET || offset > MAX_OFFSET - (length - 1) then None
    else Some(Request(owner, offset / 32768, (offset + length - 1) / 32768, write))
  }

  /** Two active permits share no byte unless both are for reading. */
  lemma PermitsShareNoByte(q: Queues, i: nat, j: nat, x: nat,
                           o1: nat, a1: nat, n1: nat, w1: bool, o2: nat, a2: nat, n2: nat, w2: bool)
    requires QueuesOk(q) && i < j < |q.active|
    requires Rounded(o1, a1, n1, w1) == Some(q.active[i]) && Rounded(o2, a2, n2, w2) == Some(q.active[j])
    requires a1 <= x < a1 + n1 && a2 <= x < a2 + n2
    ensures !w1 && !w2
  {
  }

  /** Two requests that share no block, or that are both for reading, can be held together. */
  lemma TogetherUnlessTheyShareABlock(o1: nat, a1: nat, n1: nat, w1: bool, o2: nat, a2: nat, n2: nat, w2: bool)
    requires Rounded(o1, a1, n1, w1).Some? && Rounded(o2, a2, n2, w2).Some?
    ensures Conflicts(Rounded(o1, a1, n1, w1).value, Rounded(o2, a2, n2, w2).value) <==>
              (w1 || w2) && a1 / 32768 <= (a2 + n2 - 1) / 32768 && a2 / 32768 <= (a1 + n1 - 1) / 32768
  {
  }

  // ---- the arbiter ----

  class RangeState {
    var active: seq<Request>
    var waiting: seq<Request>

    ghost predicate Valid()
      reads this
    {
      QueuesOk(Queues(active, waiting))
    }

    constructor ()
      ensures Valid() && active == [] && waiting == []
    {
      active, waiting := [], [];
    }

    method AnyConflict(r: Request, others: seq<Request>) returns (blocked: bool)
      ensures blocked <==> Blocked(r, others)
    {
      var i := 0;
      while i < |others|
        invariant 0 <= i <= |others| && forall k :: 0 <= k < i ==> !Conflicts(r, others[k])
      {
        if Conflicts(r, others[i]) {
          return true;
        }
        i := i + 1;
      }
      return false;
    }

    method Acquire(r: Request) returns (granted: bool)
      requires Valid()
      modifies this
      ensures Valid() && Queues(active, waiting) == Acquired(Queues(old(active), old(waiting)), r)
      ensures granted <==> forall s :: s in old(active) || s in old(waiting) ==> r.last < s.first || s.last < r.first || (!r.write && !s.write)
      ensures granted ==> active == old(active) + [r] && waiting == old(waiting)
      ensures !granted ==> active == old(active) && waiting == old(waiting) + [r]
    {
      AcquireKeeps(Queues(active, waiting), r);
      BlockedExactly(r, active);
      BlockedExactly(r, waiting);
      var byActive := AnyConflict(r, active);
      var byWaiter := AnyConflict(r, waiting);
      if !byActive && !byWaiter {
        active := active + [r];
        return true;
      }
      waiting := waiting + [r];
      return false;
    }

    /** One pass over the queue; a waiter is passed over while an active request or a waiter left in front conflicts. */
    method GrantWaiters()
      modifies this
      ensures Queues(active, waiting) == Sweep(old(active), [], old(waiting))
    {
      var k := 0;
      while k < |waiting|
        invariant 0 <= k <= |waiting|
        invariant Sweep(active, waiting[..k], waiting[k..]) == Sweep(old(active), [], old(waiting))
        decreases |waiting| - k
      {
        var r := waiting[k];
        var blocked := AnyConflict(r, active);
        if !blocked {
          blocked := AnyConflict(r, waiting[..k]);
        }
        assert waiting[k..][0] == r && waiting[k..][1..] == waiting[k + 1..];
        if blocked {
          assert waiting[..k] + [r] == waiting[..k + 1];
          k := k + 1;
        } else {
          ghost var before := waiting;
          active := active + [r];
          waiting := waiting[..k] + waiting[k + 1..];
          assert waiting[..k] == before[..k] && waiting[k..] == before[k + 1..];
        }
      }
      assert waiting[..k] == waiting && waiting[k..] == [];
    }

    /** False is the source's invalid handle. */
    method Release(r: Request) returns (ok: bool)
      requires Valid()
      modifies this
      ensures Valid() && (ok <==> r in old(active))
      ensures ok ==> Queues(active, waiting) == Released(Queues(old(active), old(waiting)), r)
      ensures !ok ==> active == old(active) && waiting == old(waiting)
    {
      var k := IndexOf(active, r);
      if k == |active| {
        return false;
      }
      ReleaseKeeps(Queues(active, waiting), r);
      active := Dropped(active, k);
      GrantWaiters();
      ok := true;
    }
  }
}
