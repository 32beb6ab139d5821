/** The ticket queue that orders overlapping NVMe writes, and its place in the runs of the write machine. */
module WriteQueue {
  import opened Media
  import opened NvmePlan
  import opened NvmeWrites

  datatype Ticket = Ticket(sequence: nat, begin: nat, end: nat)

  predicate TicketsOverlap(t: Ticket, u: Ticket) {
    t.begin < u.end && u.begin < t.end
  }

  ghost predicate Sorted(queue: seq<Ticket>) {
    forall i, j :: 0 <= i < j < |queue| ==> queue[i].sequence < queue[j].sequence
  }

  /** Nothing in front of position `k` overlaps it. */
  ghost predicate Clear(queue: seq<Ticket>, k: nat)
    requires k < |queue|
  {
    forall i :: 0 <= i < k ==> !TicketsOverlap(queue[i], queue[k])
  }

  ghost predicate Linked(queue: seq<Ticket>, sequence: nat) {
    exists k :: 0 <= k < |queue| && queue[k].sequence == sequence
  }

  /** Position of a ticket in the queue, |queue| if it is not linked. */
  function Position(queue: seq<Ticket>, sequence: nat): (k: nat)
    ensures k <= |queue|
    ensures k < |queue| ==> queue[k].sequence == sequence
    ensures forall i :: 0 <= i < k ==> queue[i].sequence != sequence
  {
    if queue == [] || queue[0].sequence == sequence then 0 else 1 + Position(queue[1..], sequence)
  }

  function Without(queue: seq<Ticket>, k: nat): (rest: seq<Ticket>)
    requires k < |queue|
    ensures |rest| == |queue| - 1
    ensures forall l :: 0 <= l < |rest| ==> rest[l] == queue[if l < k then l else l + 1]
  {
    queue[..k] + queue[k + 1..]
  }

  /** Taking a ticket out of the queue leaves the others as clear as they were. */
  lemma StillClear(queue: seq<Ticket>, k: nat, j: nat)
    requires k < |queue| && j < |queue| - 1 && Clear(queue, if j < k then j else j + 1)
    ensures Clear(Without(queue, k), j)
  {
  }

  class WriteCoordinator {
    var queue: seq<Ticket>
    var granted: set<nat>
    var last: nat
    /** The numbers of all tickets ever given out. */
    ghost var accepted: set<nat>

    /** Granted tickets are clear of everything in front of them, so no two of them overlap. */
    ghost predicate Valid()
      reads this
    {
      && Sorted(queue) && last <= MAX_U64 && (forall n :: n in accepted <==> 0 < n <= last)
      && (forall k :: 0 <= k < |queue| ==> queue[k].sequence in accepted && queue[k].begin < queue[k].end)
      && (forall k :: 0 <= k < |queue| && queue[k].sequence in granted ==> Clear(queue, k))
      && (forall sequence :: sequence in granted ==> Linked(queue, sequence))
    }

    constructor ()
      ensures Valid() && queue == [] && granted == {} && last == 0 && accepted == {}
    {
      queue, granted, last, accepted := [], {}, 0, {};
    }

    method Accept(begin: nat, end: nat) returns (r: Option<Ticket>)
      requires Valid()
      modifies this
      ensures Valid()
      ensures r.Some? <==> begin < end && old(last) < 0xFFFF_FFFF_FFFF_FFFF
      ensures r.Some? ==> last == old(last) + 1 && r.value == Ticket(last, begin, end) && queue == old(queue) + [r.value]
      ensures r.Some? ==> accepted == old(accepted) + {last} && forall n :: n in old(accepted) ==> n < last
      ensures r.None? ==> queue == old(queue) && last == old(last) && accepted == old(accepted)
      ensures granted == old(granted)
    {
      if begin >= end || last == MAX_U64 {
        return None;
      }
      last := last + 1;
      accepted := accepted + {last};
      queue := queue + [Ticket(last, begin, end)];
      forall sequence | sequence in granted ensures Linked(queue, sequence) {
        var k :| 0 <= k < |old(queue)| && old(queue)[k].sequence == sequence;
        assert queue[k].sequence == sequence;
      }
      r := Some(Ticket(last, begin, end));
    }

    method TryGrant(sequence: nat) returns (ok: bool)
      requires Valid()
      modifies this`granted
      ensures Valid()
      ensures ok <==> Linked(queue, sequence) && Clear(queue, Position(queue, sequence))
      ensures ok <==> exists k :: 0 <= k < |queue| && queue[k].sequence == sequence && forall i :: 0 <= i < k ==>
                queue[i].end <= queue[k].begin || queue[k].end <= queue[i].begin
      ensures granted == if ok then old(granted) + {sequence} else old(granted)
    {
      var k := Position(queue, sequence);
      if k == |queue| {
        return false;
      }
      if sequence in granted {
        assert granted + {sequence} == granted;
        return true;
      }
      var i := 0;
      while i < k
        invariant 0 <= i <= k
        invariant forall j :: 0 <= j < i ==> !TicketsOverlap(queue[j], queue[k])
      {
        if TicketsOverlap(queue[i], queue[k]) {
          return false;
        }
        i := i + 1;
      }
      granted := granted + {sequence};
      ok := true;
    }

    method Complete(sequence: nat)
      requires Valid()
      modifies this
      ensures Valid() && last == old(last) && accepted == old(accepted)
      ensures var k := Position(old(queue), sequence);
              queue == if k < |old(queue)| then Without(old(queue), k) else old(queue)
      ensures granted == old(granted) - {sequence}
    {
      var k := Position(queue, sequence);
      if k < |queue| {
        ghost var before := queue;
        queue := Without(queue, k);
        granted := granted - {sequence};
        forall j | 0 <= j < |queue| && queue[j].sequence in granted ensures Clear(queue, j) {
          StillClear(before, k, j);
        }
        forall other | other in granted ensures Linked(queue, other) {
          var j :| 0 <= j < |before| && before[j].sequence == other;
          assert queue[if j < k then j else j - 1].sequence == other;
        }
      }
    }

    /** A fence behind every ticket given out so far and in front of every later one. */
    method CaptureFence() returns (fence: nat)
      requires Valid()
      ensures forall n :: n in accepted <==> 0 < n <= fence
      ensures forall k :: 0 <= k < |queue| ==> queue[k].sequence <= fence
    {
      fence := last;
    }

    method Passed(fence: nat) returns (ready: bool)
      ensures ready <==> forall k :: 0 <= k < |queue| ==> queue[k].sequence > fence
    {
      var k := 0;
      while k < |queue|
        invariant 0 <= k <= |queue|
        invariant forall j :: 0 <= j < k ==> queue[j].sequence > fence
      {
        if queue[k].sequence <= fence {
          return false;
        }
        k := k + 1;
      }
      ready := true;
    }

    /** No two granted tickets overlap. */
    lemma GrantedApart(j: nat, k: nat)
      requires Valid() && j < |queue| && k < |queue| && j != k
      requires queue[j].sequence in granted && queue[k].sequence in granted
      ensures !TicketsOverlap(queue[j], queue[k])
    {
      if j < k {
        assert Clear(queue, k);
      } else {
        assert Clear(queue, j);
      }
    }
  }

  // ---- the queue of a state of the write machine ----

  function TicketOf(s: State, i: nat): Ticket
    requires i < |s.plans|
  {
    Ticket(i + 1, s.plans[i].begin, s.plans[i].end)
  }

  /** The tickets of the first `n` writes that are not complete. */
  function QueueOf(s: State, n: nat): seq<Ticket>
    requires n <= |s.plans| == |s.stages|
  {
    if n == 0 then []
    else if s.stages[n - 1].Complete? then QueueOf(s, n - 1)
    else QueueOf(s, n - 1) + [TicketOf(s, n - 1)]
  }

  lemma {:induction false} QueueHolds(s: State, n: nat, t: Ticket)
    requires n <= |s.plans| == |s.stages|
    ensures t in QueueOf(s, n) <==> 0 < t.sequence <= n && t == TicketOf(s, t.sequence - 1) && !s.stages[t.sequence - 1].Complete?
  {
    if n > 0 {
      QueueHolds(s, n - 1, t);
    }
  }

  lemma {:induction false} QueueSorted(s: State, n: nat)
    requires n <= |s.plans| == |s.stages|
    ensures Sorted(QueueOf(s, n)) && forall k :: 0 <= k < |QueueOf(s, n)| ==> 0 < QueueOf(s, n)[k].sequence <= n
  {
    if n > 0 {
      QueueSorted(s, n - 1);
    }
  }

  lemma AtPosition(queue: seq<Ticket>, t: Ticket)
    requires Sorted(queue) && t in queue
    ensures Position(queue, t.sequence) < |queue| && queue[Position(queue, t.sequence)] == t
    ensures forall k :: 0 <= k < |queue| ==> (k < Position(queue, t.sequence) <==> queue[k].sequence < t.sequence)
  {
    hide Position;
    var k :| 0 <= k < |queue| && queue[k] == t;
    assert Position(queue, t.sequence) == k;
  }

  lemma ClearMeansGrantable(s: State, j: nat)
    requires j < |s.plans| == |s.stages| && TicketOf(s, j) in QueueOf(s, |s.plans|) && Sorted(QueueOf(s, |s.plans|))
    requires var queue := QueueOf(s, |s.plans|); Position(queue, j + 1) < |queue| && Clear(queue, Position(queue, j + 1))
    ensures Grantable(s, j)
  {
    hide QueueOf, Position, Sorted;
    var queue := QueueOf(s, |s.plans|);
    AtPosition(queue, TicketOf(s, j));
    forall i | 0 <= i < j && !s.stages[i].Complete? ensures !Overlap(s.plans[i], s.plans[j]) {
      QueueHolds(s, |s.plans|, TicketOf(s, i));
      var p :| 0 <= p < |queue| && queue[p] == TicketOf(s, i);
      assert !TicketsOverlap(queue[p], queue[Position(queue, j + 1)]);
    }
  }

  lemma GrantableMeansClear(s: State, j: nat)
    requires j < |s.plans| == |s.stages| && TicketOf(s, j) in QueueOf(s, |s.plans|) && Sorted(QueueOf(s, |s.plans|))
    requires Grantable(s, j)
    ensures var queue := QueueOf(s, |s.plans|); Position(queue, j + 1) < |queue| && Clear(queue, Position(queue, j + 1))
  {
    hide QueueOf, Position, Sorted;
    var queue := QueueOf(s, |s.plans|);
    AtPosition(queue, TicketOf(s, j));
    var k := Position(queue, j + 1);
    forall p | 0 <= p < k ensures !TicketsOverlap(queue[p], queue[k]) {
      assert queue[p] in queue;
      QueueHolds(s, |s.plans|, queue[p]);
    }
  }

  /** What the queue answers to a grant is what the write machine asks of a grant. */
  lemma GrantMatchesQueue(s: State, j: nat)
    requires j < |s.plans| == |s.stages| && !s.stages[j].Complete?
    ensures var queue := QueueOf(s, |s.plans|);
            Position(queue, j + 1) < |queue| && (Clear(queue, Position(queue, j + 1)) <==> Grantable(s, j))
  {
    hide QueueOf, Position, Sorted, Clear, Grantable;
    QueueHolds(s, |s.plans|, TicketOf(s, j));
    QueueSorted(s, |s.plans|);
    AtPosition(QueueOf(s, |s.plans|), TicketOf(s, j));
    if Grantable(s, j) {
      GrantableMeansClear(s, j);
    } else if Clear(QueueOf(s, |s.plans|), Position(QueueOf(s, |s.plans|), j + 1)) {
      ClearMeansGrantable(s, j);
    }
  }

  lemma FenceMatchesQueue(s: State, fence: nat)
    requires |s.plans| == |s.stages|
    ensures FenceReady(s, fence) <==> forall k :: 0 <= k < |QueueOf(s, |s.plans|)| ==> QueueOf(s, |s.plans|)[k].sequence > fence
  {
    var queue := QueueOf(s, |s.plans|);
    forall k | 0 <= k < |queue| ensures 0 < queue[k].sequence <= |s.plans| && !s.stages[queue[k].sequence - 1].Complete? {
      assert queue[k] in queue;
      QueueHolds(s, |s.plans|, queue[k]);
    }
    forall i | 0 <= i < |s.stages| && i < fence && !s.stages[i].Complete?
      ensures exists k :: 0 <= k < |queue| && queue[k].sequence == i + 1
    {
      QueueHolds(s, |s.plans|, TicketOf(s, i));
    }
  }
}
