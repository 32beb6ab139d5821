/** The shared-memory ring: reservations published and slots released in any order, messages received in order. */
module IpcRing {
  import opened Arithmetic
  import opened Media

  // ---- slots of positions ----

  /** The slot of position `p`: positions go round the ring. */
  function SlotOf(p: nat, capacity: nat): (slot: nat)
    requires capacity > 0
    ensures slot < capacity
  {
    Rest(p, capacity)
  }

  lemma SlotIsRemainder(p: nat, capacity: nat)
    requires capacity > 0
    ensures SlotOf(p, capacity) == p % capacity
  {
    RestIsRemainder(p, capacity);
  }

  // ---- the ring in shared memory, and what has happened on it ----

  datatype Memory<Msg> = Memory(capacity: nat, gens: seq<nat>, cells: seq<Option<Msg>>, producer: nat, consumer: nat)

  /** Every message by position, None until it is published; positions the consumer took and has not given back. */
  datatype History<Msg> = History(sent: seq<Option<Msg>>, held: set<nat>)

  /** Position `p` is in use: reserved, published and unread, or held by the consumer. */
  ghost predicate Live<Msg>(m: Memory<Msg>, h: History<Msg>, p: nat)
    requires p < |h.sent|
  {
    h.sent[p].None? || p >= m.consumer || p in h.held
  }

  ghost function GenOf<Msg>(m: Memory<Msg>, h: History<Msg>, p: nat): nat
    requires p < |h.sent|
  {
    if h.sent[p].None? then p else if Live(m, h, p) then p + 1 else p + m.capacity
  }

  predicate Shaped<Msg>(m: Memory<Msg>) {
    m.capacity >= 2 && |m.gens| == |m.cells| == m.capacity
  }

  /** The slot of `p`, the last position of its slot, tells where `p` stands and keeps its message while it is live. */
  ghost predicate SlotOk<Msg>(m: Memory<Msg>, h: History<Msg>, p: nat)
    requires Shaped(m) && p < |h.sent|
  {
    && m.gens[SlotOf(p, m.capacity)] == GenOf(m, h, p)
    && (h.sent[p].Some? && Live(m, h, p) ==> m.cells[SlotOf(p, m.capacity)] == h.sent[p])
  }

  /** Position `p` was handed out: live only within the last lap, and then its slot speaks for it. */
  ghost predicate PositionOk<Msg>(m: Memory<Msg>, h: History<Msg>, p: nat)
    requires Shaped(m) && p < |h.sent|
  {
    && (p < m.consumer ==> h.sent[p].Some?)
    && (Live(m, h, p) ==> m.producer <= p + m.capacity)
    && (m.producer <= p + m.capacity ==> SlotOk(m, h, p))
  }

  ghost predicate RingOk<Msg>(m: Memory<Msg>, h: History<Msg>) {
    && Shaped(m) && |h.sent| == m.producer && m.consumer <= m.producer
    && (forall p :: p in h.held ==> p < m.consumer)
    && (forall p :: 0 <= p < m.producer ==> PositionOk(m, h, p))
    && (forall p :: m.producer <= p < m.capacity ==> m.gens[SlotOf(p, m.capacity)] == p)
  }

  function Fresh<Msg>(capacity: nat): Memory<Msg> {
    Memory(capacity, seq(capacity, i requires 0 <= i => i), seq(capacity, i => None), 0, 0)
  }

  lemma FreshOk<Msg>(capacity: nat)
    requires capacity >= 2
    ensures RingOk<Msg>(Fresh(capacity), History([], {}))
  {
  }

  // ---- reserve ----

  predicate CanReserve<Msg>(m: Memory<Msg>)
    requires Shaped(m)
  {
    m.gens[SlotOf(m.producer, m.capacity)] == m.producer
  }

  /** The position one lap back, if there is one, is done with. */
  ghost predicate Room<Msg>(m: Memory<Msg>, h: History<Msg>) {
    m.producer < m.capacity || (m.producer - m.capacity < |h.sent| && !Live(m, h, m.producer - m.capacity))
  }

  /** A position can be reserved exactly when the position one lap back is no longer in use. */
  lemma ReserveBlocksExactly<Msg>(m: Memory<Msg>, h: History<Msg>)
    requires RingOk(m, h)
    ensures CanReserve(m) <==> Room(m, h)
  {
    if m.producer >= m.capacity {
      assert PositionOk(m, h, m.producer - m.capacity);
    }
  }

  function Reserved<Msg>(m: Memory<Msg>): Memory<Msg> {
    m.(producer := m.producer + 1)
  }

  lemma ReserveKeeps<Msg>(m: Memory<Msg>, h: History<Msg>)
    requires RingOk(m, h) && CanReserve(m)
    ensures RingOk(Reserved(m), History(h.sent + [None], h.held))
  {
    var m', h' := Reserved(m), History(h.sent + [None], h.held);
    ReserveBlocksExactly(m, h);
    forall p | 0 <= p < m'.producer ensures PositionOk(m', h', p) {
      if p < m.producer {
        assert PositionOk(m, h, p);
        assert Live(m', h', p) <==> Live(m, h, p);
      }
    }
  }

  // ---- publish ----

  function Published<Msg>(m: Memory<Msg>, p: nat, msg: Msg): Memory<Msg>
    requires Shaped(m)
  {
    var k := SlotOf(p, m.capacity);
    m.(gens := m.gens[k := p + 1], cells := m.cells[k := Some(msg)])
  }

  lemma OtherSlot<Msg>(m: Memory<Msg>, h: History<Msg>, p: nat, q: nat)
    requires RingOk(m, h) && p < m.producer && q < m.producer && p != q && m.producer <= p + m.capacity && m.producer <= q + m.capacity
    ensures SlotOf(p, m.capacity) != SlotOf(q, m.capacity)
  {
    if p < q {
      RestsDiffer(p, q, m.capacity);
    } else {
      RestsDiffer(q, p, m.capacity);
    }
  }

  lemma UnusedSlot<Msg>(m: Memory<Msg>, p: nat, q: nat)
    requires Shaped(m) && p < m.producer <= q < m.capacity
    ensures SlotOf(p, m.capacity) != SlotOf(q, m.capacity)
  {
  }

  lemma PublishKeeps<Msg>(m: Memory<Msg>, h: History<Msg>, p: nat, msg: Msg)
    requires RingOk(m, h) && p < m.producer && h.sent[p].None?
    ensures RingOk(Published(m, p, msg), History(h.sent[p := Some(msg)], h.held))
  {
    var m', h' := Published(m, p, msg), History(h.sent[p := Some(msg)], h.held);
    assert PositionOk(m, h, p);
    forall q | 0 <= q < m.producer ensures PositionOk(m', h', q) {
      assert PositionOk(m, h, q);
      if q != p && m.producer <= q + m.capacity {
        OtherSlot(m, h, p, q);
      }
    }
    forall q | m'.producer <= q < m'.capacity ensures m'.gens[SlotOf(q, m'.capacity)] == q {
      UnusedSlot(m, p, q);
    }
  }

  // ---- acquire ----

  predicate CanAcquire<Msg>(m: Memory<Msg>)
    requires Shaped(m)
  {
    m.gens[SlotOf(m.consumer, m.capacity)] == m.consumer + 1
  }

  /** The consumer gets the next position exactly when it has been published, and then the message sent there. */
  lemma AcquireInOrder<Msg>(m: Memory<Msg>, h: History<Msg>)
    requires RingOk(m, h)
    ensures CanAcquire(m) <==> m.consumer < m.producer && h.sent[m.consumer].Some?
    ensures CanAcquire(m) ==> m.cells[SlotOf(m.consumer, m.capacity)] == h.sent[m.consumer]
  {
    if m.consumer < m.producer {
      assert PositionOk(m, h, m.consumer);
    } else if m.producer >= m.capacity {
      assert PositionOk(m, h, m.producer - m.capacity);
    }
  }

  function AcquiredNext<Msg>(m: Memory<Msg>): Memory<Msg> {
    m.(consumer := m.consumer + 1)
  }

  lemma AcquireKeeps<Msg>(m: Memory<Msg>, h: History<Msg>)
    requires RingOk(m, h) && CanAcquire(m)
    ensures RingOk(AcquiredNext(m), History(h.sent, h.held + {m.consumer}))
  {
    var m', h' := AcquiredNext(m), History(h.sent, h.held + {m.consumer});
    AcquireInOrder(m, h);
    forall p | 0 <= p < m'.producer ensures PositionOk(m', h', p) {
      assert PositionOk(m, h, p);
      assert Live(m', h', p) <==> Live(m, h, p);
    }
  }

  // ---- release ----

  function Given<Msg>(m: Memory<Msg>, p: nat): Memory<Msg>
    requires Shaped(m)
  {
    m.(gens := m.gens[SlotOf(p, m.capacity) := p + m.capacity])
  }

  lemma ReleaseKeeps<Msg>(m: Memory<Msg>, h: History<Msg>, p: nat)
    requires RingOk(m, h) && p in h.held
    ensures RingOk(Given(m, p), History(h.sent, h.held - {p}))
  {
    var m', h' := Given(m, p), History(h.sent, h.held - {p});
    assert PositionOk(m, h, p);
    forall q | 0 <= q < m.producer ensures PositionOk(m', h', q) {
      assert PositionOk(m, h, q);
      if q != p && m.producer <= q + m.capacity {
        OtherSlot(m, h, p, q);
      }
    }
    forall q | m'.producer <= q < m'.capacity ensures m'.gens[SlotOf(q, m'.capacity)] == q {
      UnusedSlot(m, p, q);
    }
  }

  // ---- the ring as an object ----

  ghost predicate Delivered<Msg>(sent: seq<Option<Msg>>, received: seq<Msg>) {
    |received| <= |sent| && forall p :: 0 <= p < |received| ==> sent[p] == Some(received[p])
  }

  class Ring<Msg> {
    var memory: Memory<Msg>
    ghost var history: History<Msg>
    /** What the consumer has got, in the order it got it. */
    ghost var received: seq<Msg>

    /** The consumer has got, without gap, repeat or exchange, the messages of the first positions. */
    ghost predicate Valid()
      reads this
    {
      RingOk(memory, history) && |received| == memory.consumer && Delivered(history.sent, received)
    }

    constructor (capacity: nat)
      requires capacity >= 2
      ensures Valid() && memory == Fresh(capacity) && memory.capacity == capacity && memory.producer == memory.consumer == 0 && history == History([], {}) && received == []
    {
      memory, history, received := Fresh(capacity), History([], {}), [];
      new;
      FreshOk<Msg>(capacity);
    }

    /** None is would_block. */
    method TryReserve() returns (p: Option<nat>)
      requires Valid()
      modifies this
      ensures Valid() && received == old(received)
      ensures p.Some? <==> Room(old(memory), old(history))
      ensures p.None? ==> memory == old(memory) && history == old(history)
      ensures memory.capacity == old(memory).capacity && memory.producer == |history.sent|
      ensures p.Some? ==> p.value == |old(history).sent| && history == History(old(history).sent + [None], old(history).held)
    {
      hide RingOk;
      assert Shaped(memory) && |history.sent| == memory.producer by { RingShape(memory, history); }
      ReserveBlocksExactly(memory, history);
      if !CanReserve(memory) {
        return None;
      }
      ReserveKeeps(memory, history);
      p := Some(memory.producer);
      memory, history := Reserved(memory), History(history.sent + [None], history.held);
    }

    method Publish(p: nat, msg: Msg)
      requires Valid() && p < |history.sent| && history.sent[p].None?
      modifies this
      ensures Valid() && received == old(received)
      ensures history == History(old(history).sent[p := Some(msg)], old(history).held)
      ensures memory.capacity == old(memory).capacity
    {
      hide RingOk;
      assert Shaped(memory) && |history.sent| == memory.producer by { RingShape(memory, history); }
      PublishKeeps(memory, history, p, msg);
      memory, history := Published(memory, p, msg), History(history.sent[p := Some(msg)], history.held);
    }

    /** False is would_block. */
    method TryPush(msg: Msg) returns (ok: bool)
      requires Valid()
      modifies this
      ensures Valid() && received == old(received)
      ensures ok <==> Room(old(memory), old(history))
      ensures memory.capacity == old(memory).capacity
      ensures ok ==> history == History(old(history).sent + [Some(msg)], old(history).held)
      ensures !ok ==> history == old(history)
    {
      var p := TryReserve();
      if p.None? {
        return false;
      }
      Publish(p.value, msg);
      ok := true;
    }

    /** The message at the next position, if it is there; the slot stays the consumer's until it is given back. */
    method TryAcquire() returns (r: Option<(nat, Msg)>)
      requires Valid()
      modifies this
      ensures Valid()
      ensures r.Some? <==> old(memory).consumer < |old(history).sent| && old(history).sent[old(memory).consumer].Some?
      ensures r.Some? ==> r.value.0 == old(memory).consumer && Some(r.value.1) == old(history).sent[old(memory).consumer]
      ensures r.Some? ==> memory.consumer == old(memory).consumer + 1 && history == History(old(history).sent, old(history).held + {r.value.0})
      ensures r.Some? ==> received == old(received) + [r.value.1] && memory.capacity == old(memory).capacity
      ensures r.None? ==> memory == old(memory) && history == old(history) && received == old(received)
    {
      hide RingOk;
      assert Shaped(memory) && |history.sent| == memory.producer by { RingShape(memory, history); }
      AcquireInOrder(memory, history);
      if !CanAcquire(memory) {
        return None;
      }
      AcquireKeeps(memory, history);
      var p := memory.consumer;
      r := Some((p, memory.cells[SlotOf(p, memory.capacity)].value));
      memory, history := AcquiredNext(memory), History(history.sent, history.held + {p});
      received := received + [r.value.1];
    }

    method GiveBack(p: nat)
      requires Valid() && p in history.held
      modifies this
      ensures Valid() && received == old(received) && memory.consumer == old(memory).consumer && memory.capacity == old(memory).capacity
      ensures history == History(old(history).sent, old(history).held - {p})
    {
      hide RingOk;
      assert Shaped(memory) by { RingShape(memory, history); }
      ReleaseKeeps(memory, history, p);
      memory, history := Given(memory, p), History(history.sent, history.held - {p});
    }
  }

  lemma RingShape<Msg>(m: Memory<Msg>, h: History<Msg>)
    requires RingOk(m, h)
    ensures Shaped(m) && |h.sent| == m.producer && m.consumer <= m.producer
  {
  }

  // ---- why two slots at least ----

  /** With one slot a published message that nobody has read looks like a free slot. */
  lemma OneSlotOverwrites()
    ensures var m := Memory(1, [1], [Some(7)], 1, 0);
            m.gens[SlotOf(m.producer, m.capacity)] == m.producer && m.consumer < m.producer
            && m.gens[SlotOf(m.consumer, m.capacity)] == m.consumer + 1
  {
  }
}
