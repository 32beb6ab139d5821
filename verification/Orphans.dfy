/** Open references and deferred deletion: storage exists exactly while it has a name or is open, and when that fails. */
module Orphans {
  import opened Media

  const MAX_REFERENCES: nat := 0xFFFF_FFFF_FFFF_FFFF

  // ---- the life of one inode number ----

  /** How an open found the inode: by its name, the parent locked until the reference is taken, or as a directory itself,
      through "." or "..", with only that directory locked. */
  datatype Way = ByName | BySelf

  datatype Look = Look(way: Way, age: nat)

  /** `age` is how many inodes have had this number. Opens that have looked and not yet taken their reference, and the
      handles: each with the age of the inode it looked at. */
  datatype Openers = Openers(age: nat, looks: map<nat, Look>, handles: multiset<nat>)

  /** On disk: allocated, named by a directory entry, marked as an orphan. In memory: open references and orphan mark. */
  datatype Life = Life(stored: bool, named: bool, flagged: bool, references: nat, orphaned: bool, openers: Openers)

  /** `commit` says whether the journal commit of the operation succeeds. */
  datatype Event =
    | Create
    | LookUp(o: nat, way: Way)
    | Retain(o: nat)
    | GiveUp(o: nat)
    | OpenNumber
    | Close(handle: nat, commit: bool)
    | Remove(commit: bool)
    | Crash

  /** The open that looked is still about the inode that is there. */
  predicate Current(l: Life, o: nat) {
    o in l.openers.looks && l.stored && l.openers.looks[o].age == l.openers.age
  }

  /** The locks an open holds from its look to its reference keep removals of that inode out, but not a last close. */
  ghost predicate Enabled(l: Life, e: Event) {
    match e
    case Create => !l.stored
    case LookUp(o, way) => o !in l.openers.looks && if way.ByName? then l.named else l.stored
    case Retain(o) => o in l.openers.looks
    case GiveUp(o) => o in l.openers.looks
    case OpenNumber => l.stored
    case Close(handle, _) => handle in l.openers.handles
    case Remove(_) => l.named && forall o :: o in l.openers.looks ==> !Current(l, o)
    case Crash => true
  }

  function Opened(l: Life, age: nat): Life {
    l.(references := l.references + 1, openers := l.openers.(handles := l.openers.handles + multiset{age}))
  }

  function Dropped(l: Life, handle: nat): Life {
    l.(references := if l.references > 0 then l.references - 1 else 0, openers := l.openers.(handles := l.openers.handles - multiset{handle}))
  }

  function Freed(l: Life): Life {
    l.(stored := false, flagged := false, references := 0, orphaned := false, openers := l.openers.(handles := multiset{}))
  }

  function Crashed(l: Life): Life {
    l.(stored := l.stored && !l.flagged, flagged := false, references := 0, orphaned := false, openers := Openers(l.openers.age, map[], multiset{}))
  }

  function Next(l: Life, e: Event): Life
    requires Enabled(l, e)
  {
    match e
    case Create => l.(stored := true, named := true, openers := l.openers.(age := l.openers.age + 1))
    case LookUp(o, way) => l.(openers := l.openers.(looks := l.openers.looks[o := Look(way, l.openers.age)]))
    case Retain(o) => Opened(l.(openers := l.openers.(looks := l.openers.looks - {o})), l.openers.looks[o].age)
    case GiveUp(o) => l.(openers := l.openers.(looks := l.openers.looks - {o}))
    case OpenNumber => Opened(l, l.openers.age)
    case Remove(commit) =>
      if !commit then l
      else if l.references > 0 then l.(named := false, flagged := true, orphaned := true)
      else l.(stored := false, named := false)
    case Close(handle, commit) =>
      if l.references != 1 || !l.orphaned then Dropped(l, handle) else if commit then Freed(l) else l
    case Crash => Crashed(l)
  }

  /** A number that no inode has had yet. */
  function Unused(): Life {
    Life(false, false, false, 0, false, Openers(0, map[], multiset{}))
  }

  /** What holds after every run: the marks are in step, storage waits for a name or for a last close, the references are
      the handles, and an open by name has the inode it looked at in its hands. */
  ghost predicate LifeOk(l: Life) {
    && (l.orphaned <==> l.flagged) && !(l.named && l.flagged) && (l.stored <==> l.named || l.flagged)
    && (l.flagged ==> l.references > 0) && |l.openers.handles| == l.references
    && (forall a :: a in l.openers.handles ==> a <= l.openers.age)
    && forall o :: o in l.openers.looks ==>
         l.openers.looks[o].age <= l.openers.age && (l.openers.looks[o].way.ByName? ==> l.named && Current(l, o))
  }

  /** Every handle is on the inode that has the number now, and that inode is stored. */
  ghost predicate Sound(l: Life) {
    forall a :: a in l.openers.handles ==> l.stored && a == l.openers.age
  }

  lemma StepKeepsLifeOk(l: Life, e: Event)
    requires LifeOk(l) && Enabled(l, e)
    ensures LifeOk(Next(l, e))
  {
    match e
    case Close(handle, commit) => CloseKeepsLifeOk(l, handle, commit);
    case _ =>
  }

  lemma CloseKeepsLifeOk(l: Life, handle: nat, commit: bool)
    requires LifeOk(l) && handle in l.openers.handles
    ensures LifeOk(Next(l, Close(handle, commit)))
  {
    assert forall a :: a in l.openers.handles - multiset{handle} ==> a in l.openers.handles;
  }

  ghost predicate CanRun(l: Life, events: seq<Event>)
    decreases |events|
  {
    events == [] || (Enabled(l, events[0]) && CanRun(Next(l, events[0]), events[1..]))
  }

  ghost function Run(l: Life, events: seq<Event>): Life
    requires CanRun(l, events)
    decreases |events|
  {
    if events == [] then l else Run(Next(l, events[0]), events[1..])
  }

  lemma {:induction false} RunKeepsLifeOk(l: Life, events: seq<Event>)
    requires LifeOk(l) && CanRun(l, events)
    ensures LifeOk(Run(l, events))
    decreases |events|
  {
    if events != [] {
      StepKeepsLifeOk(l, events[0]);
      RunKeepsLifeOk(Next(l, events[0]), events[1..]);
    }
  }

  /** What the events alone say: whether the number has a name, given whether it had one. */
  function NameAfter(named: bool, events: seq<Event>): bool
    decreases |events|
  {
    if events == [] then named
    else
      var e := events[0];
      NameAfter(if e == Create then true else if e == Remove(true) then false else named, events[1..])
  }

  /** In every run a number has a name exactly from a creation to the next committed removal. */
  lemma {:induction false} NamedFromCreationToRemoval(l: Life, events: seq<Event>)
    requires CanRun(l, events)
    ensures Run(l, events).named == NameAfter(l.named, events)
    decreases |events|
  {
    if events != [] {
      NamedFromCreationToRemoval(Next(l, events[0]), events[1..]);
    }
  }

  // ---- a reference taken too late ----

  /** An open takes its reference after the inode it looked at has gone. */
  ghost predicate Late(l: Life, e: Event) {
    e.Retain? && !Current(l, e.o)
  }

  /** The last close of an orphan, committed: its inode is freed. */
  ghost predicate Frees(l: Life, e: Event) {
    e.Close? && e.commit && l.references == 1 && l.orphaned
  }

  ghost predicate SomeLate(l: Life, events: seq<Event>)
    requires CanRun(l, events)
    decreases |events|
  {
    events != [] && (Late(l, events[0]) || SomeLate(Next(l, events[0]), events[1..]))
  }

  ghost predicate SomeFrees(l: Life, events: seq<Event>)
    requires CanRun(l, events)
    decreases |events|
  {
    events != [] && (Frees(l, events[0]) || SomeFrees(Next(l, events[0]), events[1..]))
  }

  ghost predicate AlwaysSound(l: Life, events: seq<Event>)
    requires CanRun(l, events)
    decreases |events|
  {
    Sound(l) && (events != [] ==> AlwaysSound(Next(l, events[0]), events[1..]))
  }

  lemma StepKeepsSoundExactly(l: Life, e: Event)
    requires LifeOk(l) && Sound(l) && Enabled(l, e)
    ensures Sound(Next(l, e)) <==> !Late(l, e)
  {
    match e
    case Retain(o) => assert l.openers.looks[o].age in Next(l, e).openers.handles;
    case Close(handle, commit) => CloseKeepsSound(l, handle, commit);
    case _ =>
      if l.references == 0 {
        assert l.openers.handles == multiset{};
      }
  }

  lemma CloseKeepsSound(l: Life, handle: nat, commit: bool)
    requires LifeOk(l) && Sound(l) && handle in l.openers.handles
    ensures Sound(Next(l, Close(handle, commit)))
  {
    assert forall a :: a in l.openers.handles - multiset{handle} ==> a in l.openers.handles;
  }

  /** In every run: no handle is ever on a freed inode, or on another one that got its number, if and only if no open took
      its reference too late. */
  lemma {:induction false} SoundExactlyWithoutLateOpens(l: Life, events: seq<Event>)
    requires LifeOk(l) && Sound(l) && CanRun(l, events)
    ensures AlwaysSound(l, events) <==> !SomeLate(l, events)
    decreases |events|
  {
    if events != [] {
      StepKeepsLifeOk(l, events[0]);
      StepKeepsSoundExactly(l, events[0]);
      if !Late(l, events[0]) {
        SoundExactlyWithoutLateOpens(Next(l, events[0]), events[1..]);
      }
    }
  }

  lemma {:induction false} SoundAtTheEnd(l: Life, events: seq<Event>)
    requires CanRun(l, events) && AlwaysSound(l, events)
    ensures Sound(Run(l, events))
    decreases |events|
  {
    if events != [] {
      SoundAtTheEnd(Next(l, events[0]), events[1..]);
    }
  }

  /** In every run, with failing commits and crashes anywhere, storage is there exactly for a name or a deletion that waits
      for a last close; and exactly for a name or a handle unless an open was too late. */
  lemma StorageLivesWhileNeeded(events: seq<Event>)
    requires CanRun(Unused(), events)
    ensures var l := Run(Unused(), events);
            && (l.stored <==> l.named || l.flagged) && (l.flagged ==> l.references > 0)
            && (!SomeLate(Unused(), events) ==> (l.stored <==> l.named || l.references > 0))
  {
    RunKeepsLifeOk(Unused(), events);
    if !SomeLate(Unused(), events) {
      SoundExactlyWithoutLateOpens(Unused(), events);
      SoundAtTheEnd(Unused(), events);
      NeededWhenSound(Run(Unused(), events));
    }
  }

  lemma HandleHasReference(l: Life, handle: nat)
    requires LifeOk(l) && handle in l.openers.handles
    ensures l.references > 0
  {
    assert l.openers.handles[handle] > 0;
  }

  lemma MarksInStep(l: Life)
    requires LifeOk(l)
    ensures l.orphaned <==> l.flagged
  {
  }

  lemma NamedIsNoOrphan(l: Life)
    requires LifeOk(l) && l.named
    ensures !l.orphaned && !l.flagged
  {
  }

  lemma NamedLookIsCurrent(l: Life, o: nat)
    requires LifeOk(l) && o in l.openers.looks
    ensures l.openers.looks[o].way.ByName? ==> l.named && l.stored && Current(l, o)
  {
  }

  lemma NeededWhenSound(l: Life)
    requires LifeOk(l) && Sound(l)
    ensures l.stored <==> l.named || l.references > 0
  {
    if l.references > 0 {
      var a :| a in l.openers.handles;
    }
  }

  /** The events between the look and the reference of open `o`: its own next step and a crash are not among them. */
  ghost predicate Between(o: nat, events: seq<Event>) {
    forall k :: 0 <= k < |events| ==> events[k] != Retain(o) && events[k] != GiveUp(o) && events[k] != Crash
  }

  lemma StepBetween(l: Life, e: Event, o: nat)
    requires LifeOk(l) && Enabled(l, e) && o in l.openers.looks && e != Retain(o) && e != GiveUp(o) && e != Crash
    ensures o in Next(l, e).openers.looks && (Current(Next(l, e), o) <==> Current(l, o) && !Frees(l, e))
    ensures Current(l, o) && l.named ==> Next(l, e).named && !Frees(l, e)
  {
  }

  lemma {:induction false} CurrentUntilFreed(l: Life, o: nat, between: seq<Event>)
    requires LifeOk(l) && o in l.openers.looks && CanRun(l, between) && Between(o, between)
    ensures var l' := Run(l, between);
            && o in l'.openers.looks && (Current(l', o) <==> Current(l, o) && !SomeFrees(l, between))
            && (Current(l, o) && l.named ==> l'.named && !SomeFrees(l, between))
    decreases |between|
  {
    if between != [] {
      StepBetween(l, between[0], o);
      StepKeepsLifeOk(l, between[0]);
      CurrentUntilFreed(Next(l, between[0]), o, between[1..]);
    }
  }

  /** Whatever runs between the look of an open and its reference: the reference is too late if and only if a committed last
      close of that orphan is among it. An inode that had a name when it was looked at is never too late. */
  lemma LateExactlyAfterALastClose(l: Life, o: nat, way: Way, between: seq<Event>)
    requires LifeOk(l) && Enabled(l, LookUp(o, way)) && CanRun(Next(l, LookUp(o, way)), between) && Between(o, between)
    ensures var looked := Next(l, LookUp(o, way));
            && Enabled(Run(looked, between), Retain(o))
            && (Late(Run(looked, between), Retain(o)) <==> SomeFrees(looked, between))
            && (l.named || way.ByName? ==> !SomeFrees(looked, between))
  {
    StepKeepsLifeOk(l, LookUp(o, way));
    CurrentUntilFreed(Next(l, LookUp(o, way)), o, between);
  }

  // ---- opens that are always safe ----

  /** Every open of the run finds its inode under a name, or takes the inode's lock before it looks. */
  ghost predicate FindNames(l: Life, events: seq<Event>)
    requires CanRun(l, events)
    decreases |events|
  {
    events == [] || ((events[0].LookUp? ==> l.named) && FindNames(Next(l, events[0]), events[1..]))
  }

  ghost predicate LooksNamed(l: Life) {
    forall o :: o in l.openers.looks ==> l.named && Current(l, o)
  }

  lemma {:induction false} NoLateOpensByName(l: Life, events: seq<Event>)
    requires LifeOk(l) && LooksNamed(l) && CanRun(l, events) && FindNames(l, events)
    ensures !SomeLate(l, events)
    decreases |events|
  {
    if events != [] {
      StepKeepsLifeOk(l, events[0]);
      NoLateOpensByName(Next(l, events[0]), events[1..]);
    }
  }

  /** Opens by name, and opens of a directory by its number, never leave a handle on a freed inode. */
  lemma OpensByNameAreSound(events: seq<Event>)
    requires CanRun(Unused(), events) && FindNames(Unused(), events)
    ensures AlwaysSound(Unused(), events)
  {
    NoLateOpensByName(Unused(), events);
    SoundExactlyWithoutLateOpens(Unused(), events);
  }

  // ---- a run that goes wrong ----

  /** A directory is opened and removed; somebody else looks at it through ".."; its last handle is closed. */
  function UntilFreed(): seq<Event> {
    [Create, OpenNumber, Remove(true), LookUp(0, BySelf), Close(1, true)]
  }

  /** The reference comes too late: a handle on an inode that is not stored. The next inode with that number has the handle
      from its birth, and its removal waits for somebody who never opened it. */
  lemma LateOpen()
    ensures CanRun(Unused(), UntilFreed())
    ensures var freed := Run(Unused(), UntilFreed());
            && Enabled(freed, Retain(0)) && Late(freed, Retain(0))
            && var open := Next(freed, Retain(0));
               && !open.stored && open.references == 1 && Enabled(open, Create)
               && var reused := Next(open, Create);
                  && reused.references == 1 && !Sound(reused) && Enabled(reused, Remove(true))
                  && var removed := Next(reused, Remove(true)); removed.stored && !removed.named && 2 !in removed.openers.handles
  {
    var l1 := Next(Unused(), Create);
    var l2 := Next(l1, OpenNumber);
    var l3 := Next(l2, Remove(true));
    var l4 := Next(l3, LookUp(0, BySelf));
    var l5 := Next(l4, Close(1, true));
    var events := UntilFreed();
    assert events[1..][1..] == [Remove(true), LookUp(0, BySelf), Close(1, true)];
    assert events[1..][1..][1..] == [LookUp(0, BySelf), Close(1, true)];
    assert events[1..][1..][1..][1..] == [Close(1, true)];
    assert CanRun(l4, [Close(1, true)]) && Run(l4, [Close(1, true)]) == l5;
    assert CanRun(l3, events[1..][1..][1..]) && Run(l3, events[1..][1..][1..]) == l5;
    assert CanRun(l2, events[1..][1..]) && Run(l2, events[1..][1..]) == l5;
    assert 1 in Next(Next(l5, Retain(0)), Create).openers.handles;
  }

  // ---- freed for good ----

  /** Inode number `age` with this number is gone: it is not stored, and nobody has it open. */
  ghost predicate Gone(l: Life, age: nat) {
    (l.stored ==> l.openers.age > age) && age <= l.openers.age && age !in l.openers.handles
  }

  ghost predicate NobodyLooks(l: Life, age: nat) {
    forall o :: o in l.openers.looks ==> l.openers.looks[o].age != age
  }

  lemma GoneStep(l: Life, age: nat, e: Event)
    requires LifeOk(l) && Gone(l, age) && NobodyLooks(l, age) && Enabled(l, e)
    ensures Gone(Next(l, e), age) && NobodyLooks(Next(l, e), age)
  {
  }

  lemma {:induction false} GoneStaysGone(l: Life, age: nat, events: seq<Event>)
    requires LifeOk(l) && Gone(l, age) && NobodyLooks(l, age) && CanRun(l, events)
    ensures age !in Run(l, events).openers.handles
    decreases |events|
  {
    if events != [] {
      hide LifeOk, Gone, NobodyLooks, Next, Enabled;
      StepKeepsLifeOk(l, events[0]);
      GoneStep(l, age, events[0]);
      GoneStaysGone(Next(l, events[0]), age, events[1..]);
    }
  }

  lemma {:induction false} NeverStoredAgain(l: Life, age: nat, events: seq<Event>)
    requires (l.stored ==> l.openers.age > age) && age <= l.openers.age && CanRun(l, events)
    ensures var l' := Run(l, events); (l'.stored ==> l'.openers.age > age) && age <= l'.openers.age
    decreases |events|
  {
    if events != [] {
      NeverStoredAgain(Next(l, events[0]), age, events[1..]);
    }
  }

  /** A freed inode is never stored again, in any run; and it is never open again, in any run, if and only if at that moment
      no open that looked at it was still to take its reference. */
  lemma FreedForGood(l: Life, age: nat)
    requires LifeOk(l) && Gone(l, age)
    ensures forall events :: CanRun(l, events) && Run(l, events).stored ==> Run(l, events).openers.age > age
    ensures (forall events :: CanRun(l, events) ==> age !in Run(l, events).openers.handles) <==> NobodyLooks(l, age)
  {
    forall events | CanRun(l, events) && Run(l, events).stored ensures Run(l, events).openers.age > age {
      NeverStoredAgain(l, age, events);
    }
    if NobodyLooks(l, age) {
      forall events | CanRun(l, events) ensures age !in Run(l, events).openers.handles {
        GoneStaysGone(l, age, events);
      }
    } else {
      var o :| o in l.openers.looks && l.openers.looks[o].age == age;
      var l' := Next(l, Retain(o));
      assert [Retain(o)][1..] == [] && CanRun(l', []) && Run(l', []) == l';
      assert CanRun(l, [Retain(o)]) && Run(l, [Retain(o)]) == l';
      assert age in Run(l, [Retain(o)]).openers.handles;
    }
  }

  // ---- what the coordinator keeps in memory ----

  datatype Tracked = Tracked(references: nat, orphaned: bool)

  datatype Disposition = ReferenceRemains | LastReference | DeleteOrphan

  datatype Released = Counted(disposition: Disposition) | BadHandle

  /** The open references and the orphan mark of every inode; an inode that is not tracked has neither. */
  class InodeStates {
    var states: map<nat, Tracked>

    ghost predicate Valid()
      reads this
    {
      forall i :: i in states ==> states[i].references > 0
    }

    ghost function References(inode: nat): nat
      reads this
    {
      if inode in states then states[inode].references else 0
    }

    ghost predicate Orphaned(inode: nat)
      reads this
    {
      inode in states && states[inode].orphaned
    }

    constructor ()
      ensures Valid() && states == map[]
    {
      states := map[];
    }

    /** One more reference; `room` says whether a new state can be allocated. */
    method Retain(inode: nat, room: bool) returns (ok: bool)
      requires Valid()
      modifies this
      ensures Valid() && (ok <==> References(inode) == old(References(inode)) + 1)
      ensures ok <==> old(References(inode)) < MAX_REFERENCES && (old(References(inode)) > 0 || room)
      ensures !ok ==> References(inode) == old(References(inode))
      ensures Orphaned(inode) == old(Orphaned(inode))
      ensures forall j :: j != inode ==> References(j) == old(References(j)) && Orphaned(j) == old(Orphaned(j))
    {
      if inode !in states {
        if !room {
          return false;
        }
        states := states[inode := Tracked(1, false)];
        return true;
      }
      if states[inode].references >= MAX_REFERENCES {
        return false;
      }
      states := states[inode := states[inode].(references := states[inode].references + 1)];
      return true;
    }

    /** True: the inode is open, so its deletion has to wait. */
    method MarkOrphanIfOpen(inode: nat) returns (deferred: bool)
      requires Valid()
      modifies this
      ensures Valid() && (deferred <==> References(inode) > 0) && (Orphaned(inode) <==> deferred)
      ensures forall j :: References(j) == old(References(j)) && (j != inode ==> Orphaned(j) == old(Orphaned(j)))
    {
      if inode !in states {
        return false;
      }
      states := states[inode := states[inode].(orphaned := true)];
      return true;
    }

    method RollbackOrphan(inode: nat)
      requires Valid()
      modifies this
      ensures Valid() && !Orphaned(inode)
      ensures forall j :: References(j) == old(References(j)) && (j != inode ==> Orphaned(j) == old(Orphaned(j)))
    {
      if inode in states {
        states := states[inode := states[inode].(orphaned := false)];
      }
    }

    /** The last reference to an orphan stays until its deletion has been committed. */
    method ReleaseReference(inode: nat) returns (r: Released)
      requires Valid()
      modifies this
      ensures Valid()
      ensures (r.BadHandle? <==> old(References(inode)) == 0) && (r == Counted(ReferenceRemains) <==> old(References(inode)) > 1)
      ensures r == Counted(DeleteOrphan) <==> old(References(inode)) == 1 && old(Orphaned(inode))
      ensures r == Counted(LastReference) <==> old(References(inode)) == 1 && !old(Orphaned(inode))
      ensures References(inode) == old(References(inode)) - if r == Counted(ReferenceRemains) || r == Counted(LastReference) then 1 else 0
      ensures Orphaned(inode) == old(Orphaned(inode))
      ensures forall j :: j != inode ==> References(j) == old(References(j)) && Orphaned(j) == old(Orphaned(j))
    {
      if inode !in states {
        return BadHandle;
      }
      var t := states[inode];
      if t.references > 1 {
        states := states[inode := t.(references := t.references - 1)];
        return Counted(ReferenceRemains);
      }
      if !t.orphaned {
        states := states - {inode};
        return Counted(LastReference);
      }
      r := Counted(DeleteOrphan);
    }

    method Erase(inode: nat)
      requires Valid()
      modifies this
      ensures Valid() && References(inode) == 0 && !Orphaned(inode)
      ensures forall j :: j != inode ==> References(j) == old(References(j)) && Orphaned(j) == old(Orphaned(j))
    {
      states := states - {inode};
    }
  }

  // ---- all inodes: the coordinator and what is on disk ----

  /** The inodes that are allocated, that a directory entry names, and that carry the durable orphan flag. */
  class Inodes {
    const coordinator: InodeStates
    var stored: set<nat>
    var named: set<nat>
    var flagged: set<nat>
    ghost var openers: map<nat, Openers>

    ghost function OpenersOf(i: nat): Openers
      reads this
    {
      if i in openers then openers[i] else Unused().openers
    }

    ghost function LifeOf(i: nat): Life
      reads this, coordinator
    {
      Life(i in stored, i in named, i in flagged, coordinator.References(i), coordinator.Orphaned(i), OpenersOf(i))
    }

    /** Every inode number is in a state its life can reach. */
    ghost predicate Valid()
      reads this, coordinator
    {
      coordinator.Valid() && forall i :: LifeOk(LifeOf(i))
    }

    /** Whatever has been called: an inode is stored exactly for a name or a deletion that waits for a last close; exactly for
        a name or a reference while its handles are sound. */
    lemma StoredWhileNeeded(i: nat)
      requires Valid()
      ensures i in stored <==> i in named || i in flagged
      ensures i in flagged ==> coordinator.References(i) > 0
      ensures Sound(LifeOf(i)) ==> (i in stored <==> i in named || coordinator.References(i) > 0)
    {
      assert LifeOk(LifeOf(i));
      if Sound(LifeOf(i)) {
        NeededWhenSound(LifeOf(i));
      }
    }

    constructor ()
      ensures Valid() && fresh(coordinator) && coordinator.states == map[]
      ensures forall i :: LifeOf(i) == Unused()
    {
      coordinator := new InodeStates();
      stored, named, flagged, openers := {}, {}, {}, map[];
    }

    /** A new inode under a new name; its number is free on disk, whatever the coordinator still has under it. */
    method Make(i: nat)
      requires Valid() && i !in stored
      modifies this
      ensures stored == old(stored) + {i} && named == old(named) + {i} && flagged == old(flagged)
      ensures Valid() && forall j :: LifeOf(j) == if j == i then Next(old(LifeOf(j)), Create) else old(LifeOf(j))
    {
      hide LifeOk, InodeStates.References, InodeStates.Orphaned, InodeStates.Valid;
      StepKeepsLifeOk(LifeOf(i), Create);
      stored, named := stored + {i}, named + {i};
      openers := openers[i := OpenersOf(i).(age := OpenersOf(i).age + 1)];
      assert forall j :: j != i ==> LifeOf(j) == old(LifeOf(j));
    }

    /** First half of an open: the directory entry, or the directory itself, leads to an inode that can be read. */
    method Find(i: nat, way: Way, ghost o: nat) returns (found: bool)
      requires Valid() && o !in OpenersOf(i).looks
      modifies this`openers
      ensures found <==> if way.ByName? then i in named else i in stored
      ensures Valid() && forall j :: LifeOf(j) == if j == i && found then Next(old(LifeOf(j)), LookUp(o, way)) else old(LifeOf(j))
    {
      assert LifeOk(LifeOf(i));
      found := if way.ByName? then i in named else i in stored;
      if found {
        StepKeepsLifeOk(LifeOf(i), LookUp(o, way));
        openers := openers[i := OpenersOf(i).(looks := OpenersOf(i).looks[o := Look(way, OpenersOf(i).age)])];
      }
      assert forall j :: j != i ==> LifeOf(j) == old(LifeOf(j));
    }

    /** Second half, with the inode's state locked: a reference to the number, without a second look. */
    method Take(i: nat, room: bool, ghost o: nat) returns (ok: bool)
      requires Valid() && o in OpenersOf(i).looks
      modifies this`openers, coordinator
      ensures Valid() && forall j :: LifeOf(j) == if j == i then Next(old(LifeOf(j)), if ok then Retain(o) else GiveUp(o)) else old(LifeOf(j))
      ensures ok <==> old(coordinator.References(i)) < 0xFFFF_FFFF_FFFF_FFFF && (old(coordinator.References(i)) > 0 || room)
      ensures coordinator.References(i) == old(coordinator.References(i)) + if ok then 1 else 0
      ensures old(OpenersOf(i)).looks[o].way.ByName? ==> i in named && i in stored
      ensures ok && old(Sound(LifeOf(i))) ==> (Sound(LifeOf(i)) <==> old(Current(LifeOf(i), o)))
    {
      hide LifeOk, Sound, Current, InodeStates.References, InodeStates.Orphaned, InodeStates.Valid;
      ghost var l, age := LifeOf(i), OpenersOf(i).looks[o].age;
      NamedLookIsCurrent(l, o);
      ok := coordinator.Retain(i, room);
      ghost var rest := OpenersOf(i).(looks := OpenersOf(i).looks - {o});
      if ok {
        StepKeepsLifeOk(l, Retain(o));
        if Sound(l) {
          StepKeepsSoundExactly(l, Retain(o));
        }
        openers := openers[i := rest.(handles := rest.handles + multiset{age})];
      } else {
        StepKeepsLifeOk(l, GiveUp(o));
        openers := openers[i := rest];
      }
      assert forall j :: j != i ==> LifeOf(j) == old(LifeOf(j));
    }

    /** A directory is opened by its number: the state is locked first, then the inode is looked at. */
    method OpenDirectory(i: nat, room: bool) returns (ok: bool)
      requires Valid()
      modifies this`openers, coordinator
      ensures ok <==> i in stored && old(coordinator.References(i)) < 0xFFFF_FFFF_FFFF_FFFF && (old(coordinator.References(i)) > 0 || room)
      ensures coordinator.References(i) == old(coordinator.References(i)) + if ok then 1 else 0
      ensures Valid() && forall j :: LifeOf(j) == if j == i && ok then Next(old(LifeOf(j)), OpenNumber) else old(LifeOf(j))
      ensures old(Sound(LifeOf(i))) ==> Sound(LifeOf(i))
    {
      hide LifeOk, Sound, InodeStates.References, InodeStates.Orphaned, InodeStates.Valid;
      if i !in stored {
        return false;
      }
      ghost var l := LifeOf(i);
      ok := coordinator.Retain(i, room);
      if ok {
        StepKeepsLifeOk(l, OpenNumber);
        if Sound(l) {
          StepKeepsSoundExactly(l, OpenNumber);
        }
        openers := openers[i := OpenersOf(i).(handles := OpenersOf(i).handles + multiset{OpenersOf(i).age})];
      }
      assert forall j :: j != i ==> LifeOf(j) == old(LifeOf(j));
    }

    /** The last name of an inode goes, by a removal or by a rename over it: deletion now, or deferred while it is open. */
    method Unlink(i: nat, commit: bool)
      requires Valid() && (i in named ==> Enabled(LifeOf(i), Remove(commit)))
      modifies this, coordinator
      ensures commit ==> named == old(named) - {i}
      ensures commit && i in old(named) ==>
                var open := old(coordinator.References(i)) > 0;
                && stored == (if open then old(stored) else old(stored) - {i}) && flagged == (if open then old(flagged) + {i} else old(flagged))
                && coordinator.References(i) == old(coordinator.References(i)) && (coordinator.Orphaned(i) <==> open)
      ensures !commit || i !in old(named) ==> named == old(named) && stored == old(stored) && flagged == old(flagged)
      ensures Valid() && forall j :: LifeOf(j) == if j == i && i in old(named) then Next(old(LifeOf(j)), Remove(commit)) else old(LifeOf(j))
    {
      hide LifeOk, InodeStates.References, InodeStates.Orphaned, InodeStates.Valid;
      if i !in named {
        return;
      }
      NamedIsNoOrphan(LifeOf(i));
      StepKeepsLifeOk(LifeOf(i), Remove(commit));
      var deferred := coordinator.MarkOrphanIfOpen(i);
      if !commit {
        if deferred {
          coordinator.RollbackOrphan(i);
        }
      } else if deferred {
        named, flagged := named - {i}, flagged + {i};
      } else {
        named, stored := named - {i}, stored - {i};
        coordinator.Erase(i);
      }
      assert forall j :: j != i ==> LifeOf(j) == old(LifeOf(j));
    }

    /** The last reference of an orphan goes, and the inode with it. */
    method Delete(i: nat)
      requires coordinator.Valid()
      modifies this, coordinator
      ensures stored == old(stored) - {i} && flagged == old(flagged) - {i} && named == old(named)
      ensures coordinator.Valid() && coordinator.References(i) == 0
      ensures forall j :: LifeOf(j) == if j == i then old(Freed(LifeOf(j))) else old(LifeOf(j))
    {
      hide InodeStates.References, InodeStates.Orphaned, InodeStates.Valid;
      stored, flagged := stored - {i}, flagged - {i};
      coordinator.Erase(i);
      openers := openers[i := OpenersOf(i).(handles := multiset{})];
    }

    /** One reference less, unless it is the last one of an orphan. */
    method Drop(i: nat, ghost handle: nat) returns (last: bool)
      requires coordinator.Valid() && coordinator.References(i) > 0
      modifies this, coordinator
      ensures stored == old(stored) && flagged == old(flagged) && named == old(named)
      ensures coordinator.Valid() && (last <==> old(coordinator.References(i) == 1 && coordinator.Orphaned(i)))
      ensures coordinator.References(i) == old(coordinator.References(i)) - if last then 0 else 1
      ensures forall j :: LifeOf(j) == if j == i && !last then old(Dropped(LifeOf(j), handle)) else old(LifeOf(j))
    {
      hide InodeStates.References, InodeStates.Orphaned, InodeStates.Valid;
      var disposition := coordinator.ReleaseReference(i);
      last := disposition == Counted(DeleteOrphan);
      if !last {
        openers := openers[i := OpenersOf(i).(handles := OpenersOf(i).handles - multiset{handle})];
      }
    }

    /** A handle is closed; the last one of an orphan takes the inode with it. */
    method Release(i: nat, commit: bool, ghost handle: nat)
      requires Valid() && handle in OpenersOf(i).handles
      modifies this, coordinator
      ensures var references, freed := old(coordinator.References(i)), old(coordinator.References(i)) == 1 && i in old(flagged);
              && references > 0 && named == old(named)
              && coordinator.References(i) == (if freed && !commit then 1 else references - 1)
              && stored == (if freed && commit then old(stored) - {i} else old(stored))
              && flagged == (if freed && commit then old(flagged) - {i} else old(flagged))
      ensures Valid() && forall j :: LifeOf(j) == if j == i then Next(old(LifeOf(j)), Close(handle, commit)) else old(LifeOf(j))
    {
      hide LifeOk, Dropped, Freed, InodeStates.References, InodeStates.Orphaned, InodeStates.Valid;
      HandleHasReference(LifeOf(i), handle);
      MarksInStep(LifeOf(i));
      StepKeepsLifeOk(LifeOf(i), Close(handle, commit));
      var last := Drop(i, handle);
      if last && commit {
        Delete(i);
      }
    }
  }

  lemma CrashIs(l: Life)
    requires LifeOk(l)
    ensures Enabled(l, Crash) && Next(l, Crash) == Crashed(l) && LifeOk(Crashed(l))
  {
    StepKeepsLifeOk(l, Crash);
  }

  lemma NothingTracked(coordinator: InodeStates, i: nat)
    requires coordinator.states == map[]
    ensures coordinator.Valid() && coordinator.References(i) == 0 && !coordinator.Orphaned(i)
  {
  }

  /** After a crash the memory is empty and every flagged inode is deleted, one transaction after the other. */
  method Recover(before: Inodes) returns (after: Inodes)
    requires before.Valid()
    ensures fresh(after) && fresh(after.coordinator) && after.Valid()
    ensures after.named == before.named && after.stored == before.stored - before.flagged && after.flagged == {}
    ensures after.coordinator.states == map[]
    ensures forall i :: after.LifeOf(i) == Next(before.LifeOf(i), Crash)
  {
    hide LifeOk, Next, InodeStates.References, InodeStates.Orphaned, InodeStates.Valid;
    after := new Inodes();
    after.stored, after.named, after.flagged := before.stored, before.named, before.flagged;
    ghost var openers := map i | i in before.openers :: Openers(before.openers[i].age, map[], multiset{});
    after.openers := openers;
    var rest := before.flagged;
    while rest != {}
      invariant rest <= before.flagged && fresh(after) && fresh(after.coordinator)
      invariant after.stored == before.stored - (before.flagged - rest) && after.flagged == rest && after.named == before.named
      invariant after.coordinator.states == map[] && after.openers == openers
      decreases |rest|
    {
      var i :| i in rest;
      after.stored, after.flagged := after.stored - {i}, after.flagged - {i};
      rest := rest - {i};
    }
    NothingTracked(after.coordinator, 0);
    forall i ensures after.LifeOf(i) == Next(before.LifeOf(i), Crash) && LifeOk(after.LifeOf(i)) {
      CrashIs(before.LifeOf(i));
      assert after.LifeOf(i) == Crashed(before.LifeOf(i)) by {
        NothingTracked(after.coordinator, i);
      }
    }
  }
}
