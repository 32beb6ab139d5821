/** Byte-addressed media (the SSD and the PMEM arena) and batches of write requests on them. */
module Media {

  newtype byte = b: int | 0 <= b < 256

  datatype Option<+T> = None | Some(value: T)

  /** One request of a batch: put `data` at device offset `off`. */
  datatype Req = Req(off: int, data: seq<byte>)

  predicate InBounds(r: Req, size: nat) {
    0 <= r.off && r.off + |r.data| <= size
  }

  predicate Covers(r: Req, a: int) {
    r.off <= a < r.off + |r.data|
  }

  predicate Apart(r: Req, s: Req) {
    r.off + |r.data| <= s.off || s.off + |s.data| <= r.off
  }

  ghost predicate AllInBounds(rs: seq<Req>, size: nat) {
    forall r :: r in rs ==> InBounds(r, size)
  }

  ghost predicate PairwiseApart(rs: seq<Req>) {
    forall i, j :: 0 <= i < j < |rs| ==> Apart(rs[i], rs[j])
  }

  ghost predicate CrossApart(rs: seq<Req>, ss: seq<Req>) {
    forall r, s :: r in rs && s in ss ==> Apart(r, s)
  }

  ghost predicate Touched(rs: seq<Req>, a: int) {
    exists r :: r in rs && Covers(r, a)
  }

  function Put(m: seq<byte>, r: Req): (m': seq<byte>)
    requires InBounds(r, |m|)
    ensures |m'| == |m|
    ensures forall a :: 0 <= a < |m| ==> m'[a] == if Covers(r, a) then r.data[a - r.off] else m[a]
  {
    m[..r.off] + r.data + m[r.off + |r.data|..]
  }

  /** The batch applied in submission order. */
  function PutAll(m: seq<byte>, rs: seq<Req>): (m': seq<byte>)
    requires AllInBounds(rs, |m|)
    ensures |m'| == |m|
  {
    if rs == [] then m
    else
      assert rs[|rs| - 1] in rs;
      Put(PutAll(m, rs[..|rs| - 1]), rs[|rs| - 1])
  }

  predicate IsSchedule(schedule: seq<nat>, n: nat) {
    forall k :: 0 <= k < |schedule| ==> schedule[k] < n
  }

  /** The requests applied in the order `schedule` names them; a request may be named more than once. */
  function PutScheduled(m: seq<byte>, rs: seq<Req>, schedule: seq<nat>): (m': seq<byte>)
    requires AllInBounds(rs, |m|)
    requires IsSchedule(schedule, |rs|)
    ensures |m'| == |m|
  {
    if schedule == [] then m
    else
      var last := schedule[|schedule| - 1];
      Put(PutScheduled(m, rs, schedule[..|schedule| - 1]), rs[last])
  }

  /** Every request of the batch is on the medium and no other byte moved. */
  ghost predicate Settled(m': seq<byte>, m: seq<byte>, rs: seq<Req>) {
    && |m'| == |m|
    && (forall r, a :: r in rs && Covers(r, a) && 0 <= a < |m| ==> m'[a] == r.data[a - r.off])
    && (forall a :: 0 <= a < |m| && !Touched(rs, a) ==> m'[a] == m[a])
  }

  /** Some bytes of some requests have reached the medium: what a crash can leave of a batch. */
  ghost predicate Torn(m': seq<byte>, m: seq<byte>, rs: seq<Req>) {
    && |m'| == |m|
    && forall a :: 0 <= a < |m| && m'[a] != m[a] ==> exists r :: r in rs && Covers(r, a) && m'[a] == r.data[a - r.off]
  }

  lemma SettledIsTorn(m': seq<byte>, m: seq<byte>, rs: seq<Req>)
    requires Settled(m', m, rs)
    ensures Torn(m', m, rs)
  {
  }

  /** The requests a schedule names. */
  function Named(rs: seq<Req>, schedule: seq<nat>): (named: seq<Req>)
    requires IsSchedule(schedule, |rs|)
    ensures |named| == |schedule|
    ensures forall k :: 0 <= k < |schedule| ==> named[k] == rs[schedule[k]]
  {
    seq(|schedule|, k requires 0 <= k < |schedule| => rs[schedule[k]])
  }

  lemma OneRequestPerByte(rs: seq<Req>, i: nat, j: nat, a: int)
    requires PairwiseApart(rs) && i < |rs| && j < |rs|
    requires Covers(rs[i], a) && Covers(rs[j], a)
    ensures i == j
  {
  }

  /** A batch of disjoint requests under any schedule: exactly the named requests are on the medium. */
  lemma {:induction false} ScheduleSettles(m: seq<byte>, rs: seq<Req>, schedule: seq<nat>)
    requires AllInBounds(rs, |m|) && PairwiseApart(rs)
    requires IsSchedule(schedule, |rs|)
    ensures Settled(PutScheduled(m, rs, schedule), m, Named(rs, schedule))
  {
    if schedule != [] {
      var front, last := schedule[..|schedule| - 1], schedule[|schedule| - 1];
      ScheduleSettles(m, rs, front);
      var before, after := PutScheduled(m, rs, front), PutScheduled(m, rs, schedule);
      var named, namedFront := Named(rs, schedule), Named(rs, front);
      assert named == namedFront + [rs[last]];
      forall r, a | r in named && Covers(r, a) && 0 <= a < |m| ensures after[a] == r.data[a - r.off] {
        if Covers(rs[last], a) {
          var k :| 0 <= k < |named| && named[k] == r;
          OneRequestPerByte(rs, schedule[k], last, a);
        } else {
          assert r in namedFront;
        }
      }
      forall a | 0 <= a < |m| && !Touched(named, a) ensures after[a] == m[a] {
        assert rs[last] == named[|named| - 1] && rs[last] in named;
        assert !Covers(rs[last], a);
        assert forall r :: r in namedFront ==> r in named;
        assert !Touched(namedFront, a);
      }
    }
  }

  lemma {:induction false} SubmissionOrderIsASchedule(m: seq<byte>, rs: seq<Req>, n: nat)
    requires AllInBounds(rs, |m|) && n <= |rs|
    ensures AllInBounds(rs[..n], |m|)
    ensures PutAll(m, rs[..n]) == PutScheduled(m, rs, seq(n, i => i))
  {
    forall r | r in rs[..n] ensures InBounds(r, |m|) {
      assert r in rs;
    }
    if n != 0 {
      SubmissionOrderIsASchedule(m, rs, n - 1);
      var schedule: seq<nat> := seq(n, i => i);
      assert schedule[..n - 1] == seq(n - 1, i => i);
      assert rs[..n][..n - 1] == rs[..n - 1];
      assert rs[..n][n - 1] == rs[n - 1];
    }
  }

  lemma PutAllSettles(m: seq<byte>, rs: seq<Req>)
    requires AllInBounds(rs, |m|) && PairwiseApart(rs)
    ensures Settled(PutAll(m, rs), m, rs)
  {
  }

  lemma SettledIsUnique(m1: seq<byte>, m2: seq<byte>, m: seq<byte>, rs: seq<Req>, ss: seq<Req>)
    requires Settled(m1, m, rs) && Settled(m2, m, ss)
    requires forall r :: r in rs <==> r in ss
    ensures m1 == m2
  {
  }

  /** Completion order, overlap and repeats of a disjoint batch are invisible once every request is done. */
  lemma BatchOrderIsIrrelevant(m: seq<byte>, rs: seq<Req>, schedule: seq<nat>)
    requires AllInBounds(rs, |m|) && PairwiseApart(rs)
    requires IsSchedule(schedule, |rs|)
    requires forall r :: r in rs ==> r in Named(rs, schedule)
    ensures PutScheduled(m, rs, schedule) == PutAll(m, rs)
  {
    ScheduleSettles(m, rs, schedule);
    PutAllSettles(m, rs);
    var named := Named(rs, schedule);
    assert forall k :: 0 <= k < |named| ==> named[k] in rs;
    SettledIsUnique(PutScheduled(m, rs, schedule), PutAll(m, rs), m, named, rs);
  }

  lemma ConcatApart(rs: seq<Req>, ss: seq<Req>)
    requires PairwiseApart(rs) && PairwiseApart(ss) && CrossApart(rs, ss)
    ensures PairwiseApart(rs + ss)
  {
  }
}
