/** Directory files with their dentry caches: lookups answer from the cache exactly what the slots on disk say, over
    creates, removals and renames. */
module Dentries {
  import opened Media

  const DIRECTORY: nat := 1

  /** One directory entry slot; a free one has type 0 on disk. */
  datatype Slot = Free | Used(name: string, inode: nat, kind: nat)

  datatype Dentry = Dentry(inode: nat, offset: nat, kind: nat)

  predicate Names(s: Slot, name: string) {
    s.Used? && s.name == name
  }

  /** The first slot from `k` on that holds `name`. */
  function Lookup(slots: seq<Slot>, k: nat, name: string): (r: Option<Dentry>)
    requires k <= |slots|
    ensures r.Some? ==> k <= r.value.offset < |slots| && slots[r.value.offset] == Used(name, r.value.inode, r.value.kind)
    ensures r.None? ==> forall j :: k <= j < |slots| ==> !Names(slots[j], name)
    decreases |slots| - k
  {
    if k == |slots| then None
    else if Names(slots[k], name) then Some(Dentry(slots[k].inode, k, slots[k].kind))
    else Lookup(slots, k + 1, name)
  }

  ghost predicate UniqueNames(slots: seq<Slot>) {
    forall i, j :: 0 <= i < j < |slots| && slots[i].Used? && slots[j].Used? ==> slots[i].name != slots[j].name
  }

  /** With unique names any slot that holds the name is the answer. */
  lemma {:induction false} LookupIs(slots: seq<Slot>, k: nat, j: nat, name: string)
    requires UniqueNames(slots) && k <= j < |slots| && Names(slots[j], name)
    ensures Lookup(slots, k, name) == Some(Dentry(slots[j].inode, j, slots[j].kind))
    decreases |slots| - k
  {
  }

  lemma LookupNone(slots: seq<Slot>, name: string)
    requires forall j :: 0 <= j < |slots| ==> !Names(slots[j], name)
    ensures Lookup(slots, 0, name) == None
  {
  }

  /** A slot put at `k`: the old ones, the new one, one more if `k` is the end. */
  function PutSlot(slots: seq<Slot>, k: nat, s: Slot): (r: seq<Slot>)
    requires k <= |slots|
    ensures |r| == if k < |slots| then |slots| else |slots| + 1
    ensures forall j :: 0 <= j < |r| ==> r[j] == if j == k then s else slots[j]
  {
    if k < |slots| then slots[k := s] else slots + [s]
  }

  /** An entry put into a free slot keeps the names unique exactly when its name is new. */
  lemma InsertedUniqueExactly(slots: seq<Slot>, k: nat, s: Slot)
    requires UniqueNames(slots) && k <= |slots| && (k < |slots| ==> slots[k].Free?) && s.Used?
    ensures UniqueNames(PutSlot(slots, k, s)) <==> Lookup(slots, 0, s.name).None?
  {
    var r := PutSlot(slots, k, s);
    if Lookup(slots, 0, s.name).Some? {
      var j := Lookup(slots, 0, s.name).value.offset;
      assert r[j].Used? && r[k].Used? && r[j].name == r[k].name && j != k;
    }
  }

  /** Filling a free slot adds one name to the directory and changes no other. */
  lemma InsertedLookup(slots: seq<Slot>, k: nat, s: Slot, name: string)
    requires UniqueNames(slots) && k <= |slots| && (k < |slots| ==> slots[k].Free?) && s.Used? && Lookup(slots, 0, s.name).None?
    ensures UniqueNames(PutSlot(slots, k, s))
    ensures Lookup(PutSlot(slots, k, s), 0, name) == if name == s.name then Some(Dentry(s.inode, k, s.kind)) else Lookup(slots, 0, name)
  {
  }

  /** Freeing a slot takes its name out of the directory and changes no other. */
  lemma FreedLookup(slots: seq<Slot>, k: nat, name: string)
    requires UniqueNames(slots) && k < |slots| && slots[k].Used?
    ensures UniqueNames(slots[k := Free])
    ensures Lookup(slots[k := Free], 0, name) == if name == slots[k].name then None else Lookup(slots, 0, name)
  {
    var r := slots[k := Free];
    if name == slots[k].name {
      LookupNone(r, name);
    } else if Lookup(slots, 0, name).Some? {
      LookupIs(r, 0, Lookup(slots, 0, name).value.offset, name);
    } else {
      LookupNone(r, name);
    }
  }

  /** Rewriting a used slot takes its old name out, puts the new one in and changes no other. */
  lemma RewrittenLookup(slots: seq<Slot>, k: nat, s: Slot, name: string)
    requires UniqueNames(slots) && k < |slots| && slots[k].Used? && s.Used?
    requires s.name == slots[k].name || Lookup(slots, 0, s.name).None?
    ensures UniqueNames(slots[k := s])
    ensures Lookup(slots[k := s], 0, name) ==
            if name == s.name then Some(Dentry(s.inode, k, s.kind)) else if name == slots[k].name then None else Lookup(slots, 0, name)
  {
    var r := slots[k := s];
    if name == s.name {
      LookupIs(r, 0, k, name);
    } else if name != slots[k].name && Lookup(slots, 0, name).Some? {
      LookupIs(r, 0, Lookup(slots, 0, name).value.offset, name);
    } else {
      LookupNone(r, name);
    }
  }

  // ---- the cache ----

  /** Outside the names in `off`: whatever is cached is on disk, and a complete cache has every name. */
  ghost predicate AgreesBut(slots: seq<Slot>, names: map<string, Dentry>, complete: bool, off: set<string>) {
    && (forall n :: n in names && n !in off ==> Lookup(slots, 0, n) == Some(names[n]))
    && (complete ==> forall n :: n !in off && Lookup(slots, 0, n).Some? ==> n in names)
  }

  ghost predicate Agrees(slots: seq<Slot>, names: map<string, Dentry>, complete: bool) {
    AgreesBut(slots, names, complete, {})
  }

  /** Every name of the first `k` slots is cached. */
  ghost predicate CachedBelow(slots: seq<Slot>, names: map<string, Dentry>, k: nat) {
    forall j :: 0 <= j < k && j < |slots| && slots[j].Used? ==> slots[j].name in names
  }

  lemma CachedAll(slots: seq<Slot>, names: map<string, Dentry>, complete: bool)
    requires Agrees(slots, names, complete) && CachedBelow(slots, names, |slots|)
    ensures Agrees(slots, names, true)
  {
  }

  /** Slots that changed under some names only leave the cache right about all others. */
  lemma ChangedUnder(slots': seq<Slot>, slots: seq<Slot>, names: map<string, Dentry>, complete: bool, off: set<string>)
    requires Agrees(slots, names, complete) && forall n :: n !in off ==> Lookup(slots', 0, n) == Lookup(slots, 0, n)
    ensures AgreesBut(slots', names, complete, off)
  {
  }

  /** The two fixed entries of a directory. */
  predicate DotsOk(slots: seq<Slot>) {
    |slots| >= 2 && Names(slots[0], ".") && Names(slots[1], "..") && slots[1].kind == DIRECTORY
  }

  predicate Ordinary(name: string) {
    name != "." && name != ".."
  }

  /** What reading an inode gives. */
  datatype Status = There | Gone | Unreadable

  datatype Errno = ENOENT | EEXIST | EIO | ENOTDIR | EISDIR | ENOTEMPTY | EAGAIN

  datatype FindResult = Found(entry: Dentry) | NotFound(error: Errno)

  /** The name has an entry whose inode does not exist, which a lookup reports like no entry at all. */
  predicate Dangling(slots: seq<Slot>, name: string, status: nat -> Status) {
    Lookup(slots, 0, name).Some? && status(Lookup(slots, 0, name).value.inode).Gone?
  }

  function Finds(slots: seq<Slot>, name: string, status: nat -> Status): FindResult {
    match Lookup(slots, 0, name)
    case None => NotFound(ENOENT)
    case Some(d) =>
      match status(d.inode)
      case There => Found(d)
      case Gone => NotFound(ENOENT)
      case Unreadable => NotFound(EIO)
  }

  datatype Outcome = Done | Failed(error: Errno)

  /** Nothing but the two fixed entries. */
  predicate OnlyDots(slots: seq<Slot>) {
    forall j :: 2 <= j < |slots| ==> slots[j].Free?
  }

  /** The answer to a removal of a name of kind `kind`. */
  function Removed(found: FindResult, kind: nat, expected: Option<nat>, empty: bool, commits: bool): Outcome {
    if found.NotFound? then Failed(found.error)
    else if expected.Some? && found.entry.inode != expected.value then Failed(EAGAIN)
    else if found.entry.kind != kind then Failed(if kind == DIRECTORY then ENOTDIR else EISDIR)
    else if kind == DIRECTORY && !empty then Failed(ENOTEMPTY)
    else if !commits then Failed(EIO)
    else Done
  }

  class Directory {
    var slots: seq<Slot>
    var names: map<string, Dentry>
    var complete: bool

    ghost predicate Valid()
      reads this
    {
      DotsOk(slots) && UniqueNames(slots) && Agrees(slots, names, complete)
    }

    /** A new directory: its two fixed entries on disk, and in the cache as far as there is room. */
    constructor (inode: nat, parent: nat, dotRoom: bool, dotdotRoom: bool)
      ensures Valid() && slots == [Used(".", inode, DIRECTORY), Used("..", parent, DIRECTORY)]
    {
      slots, names, complete := [Used(".", inode, DIRECTORY), Used("..", parent, DIRECTORY)], map[], false;
      new;
      LookupIs(slots, 0, 0, ".");
      LookupIs(slots, 0, 1, "..");
      var dot := CacheDentry(".", Dentry(inode, 0, DIRECTORY), dotRoom, {});
      var dotdot := CacheDentry("..", Dentry(parent, 1, DIRECTORY), dotdotRoom, {});
      if dot && dotdot {
        assert CachedBelow(slots, names, |slots|);
        CachedAll(slots, names, complete);
        complete := true;
      }
    }

    /** The entry of `name` as it is on disk goes into the cache, and the cache is right about it again even if there is no
        room: then it is only incomplete. */
    method CacheDentry(name: string, d: Dentry, room: bool, ghost off: set<string>) returns (ok: bool)
      modifies this`names, this`complete
      ensures old(AgreesBut(slots, names, complete, off)) && Lookup(slots, 0, name) == Some(d) ==> AgreesBut(slots, names, complete, off - {name})
      ensures (ok <==> room || name in old(names)) && (ok <==> name in names)
      ensures forall n :: n in old(names) ==> n in names
      ensures complete ==> old(complete)
    {
      if name in names || room {
        names := names[name := d];
        return true;
      }
      complete := false;
      ok := false;
    }

    /** A name that is no longer on disk goes out of the cache, and the cache is right about it again. */
    method EraseDentry(name: string, ghost off: set<string>)
      modifies this`names
      ensures old(AgreesBut(slots, names, complete, off)) && Lookup(slots, 0, name).None? ==> AgreesBut(slots, names, complete, off - {name})
      ensures name !in names && forall n :: n in old(names) && n != name ==> n in names
    {
      names := names - {name};
    }

    /** `room(k)` says whether the cache can take in the entry of slot `k`. */
    method Scan(name: string, room: nat -> bool, status: nat -> Status) returns (r: FindResult)
      requires Valid()
      modifies this`names, this`complete
      ensures Valid() && r == Finds(slots, name, status)
      ensures r.Found? <==> Lookup(slots, 0, name).Some? && status(Lookup(slots, 0, name).value.inode) == There
      ensures r.Found? ==> Some(r.entry) == Lookup(slots, 0, name)
      ensures r == NotFound(EIO) <==> Lookup(slots, 0, name).Some? && status(Lookup(slots, 0, name).value.inode) == Unreadable
      ensures r.NotFound? ==> r.error == ENOENT || r.error == EIO
    {
      hide AgreesBut, UniqueNames;
      var located: Option<Dentry> := None;
      var allCached, k := true, 0;
      while k < |slots|
        invariant 0 <= k <= |slots| && Valid()
        invariant located.None? ==> Lookup(slots, 0, name) == Lookup(slots, k, name)
        invariant located.Some? ==> Lookup(slots, 0, name) == located && status(located.value.inode).There?
        invariant allCached ==> CachedBelow(slots, names, k)
      {
        if slots[k].Used? {
          var d := Dentry(slots[k].inode, k, slots[k].kind);
          LookupIs(slots, 0, k, slots[k].name);
          var cached := CacheDentry(slots[k].name, d, room(k), {});
          assert {} - {slots[k].name} == {};
          allCached := allCached && cached;
          if located.None? && slots[k].name == name {
            if !status(d.inode).There? {
              return NotFound(if status(d.inode).Gone? then ENOENT else EIO);
            }
            located := Some(d);
          }
        }
        k := k + 1;
      }
      if allCached {
        CachedAll(slots, names, complete);
        complete := true;
      }
      r := if located.Some? then Found(located.value) else NotFound(ENOENT);
    }

    /** Hit, known miss, or a scan of the slots: always the answer the slots give. A cached inode that cannot be read makes
        the whole cache of the directory go. */
    method Find(name: string, room: nat -> bool, status: nat -> Status) returns (r: FindResult)
      requires Valid()
      modifies this`names, this`complete
      ensures Valid() && r == Finds(slots, name, status)
      ensures r.Found? <==> Lookup(slots, 0, name).Some? && status(Lookup(slots, 0, name).value.inode) == There
      ensures r.Found? ==> Some(r.entry) == Lookup(slots, 0, name)
      ensures r == NotFound(EIO) <==> Lookup(slots, 0, name).Some? && status(Lookup(slots, 0, name).value.inode) == Unreadable
      ensures r.NotFound? ==> r.error == ENOENT || r.error == EIO
    {
      var invalidated := false;
      if name in names {
        var d := names[name];
        if status(d.inode).There? {
          return Found(d);
        }
        names, complete := map[], false;
        invalidated := true;
        if !status(d.inode).Gone? {
          return NotFound(EIO);
        }
      }
      if !invalidated && complete {
        return NotFound(ENOENT);
      }
      r := Scan(name, room, status);
    }

    method FreeSlot() returns (k: nat)
      requires |slots| >= 2
      ensures 2 <= k <= |slots| && (k < |slots| ==> slots[k].Free?)
      ensures forall j :: 2 <= j < k ==> slots[j].Used?
    {
      k := 2;
      while k < |slots|
        invariant 2 <= k <= |slots| && forall j :: 2 <= j < k ==> slots[j].Used?
      {
        if slots[k].Free? {
          return;
        }
        k := k + 1;
      }
    }

    method IsEmpty() returns (empty: bool)
      requires |slots| >= 2
      ensures empty <==> OnlyDots(slots)
    {
      var k := 2;
      while k < |slots|
        invariant 2 <= k <= |slots| && forall j :: 2 <= j < k ==> slots[j].Free?
      {
        if slots[k].Used? {
          return false;
        }
        k := k + 1;
      }
      return true;
    }

    /** A new name. `commits` says whether the journal takes the transaction. Only a name whose entry is dangling is put in
        a second time. */
    method Insert(name: string, inode: nat, kind: nat, room: nat -> bool, status: nat -> Status, commits: bool) returns (r: Outcome)
      requires Valid() && Ordinary(name)
      modifies this
      ensures Valid() <==> !(Dangling(old(slots), name, status) && commits)
      ensures r.Done? <==> Finds(old(slots), name, status) == NotFound(ENOENT) && commits
      ensures r.Failed? ==> slots == old(slots)
      ensures Finds(old(slots), name, status).Found? ==> r == Failed(EEXIST)
      ensures r.Done? && Valid() ==> Lookup(slots, 0, name).Some? && Lookup(slots, 0, name).value.inode == inode && Lookup(slots, 0, name).value.kind == kind
      ensures r.Done? && Valid() ==> forall n :: n != name ==> Lookup(slots, 0, n) == Lookup(old(slots), 0, n)
    {
      hide AgreesBut, UniqueNames;
      var existing := Find(name, room, status);
      if existing.Found? {
        return Failed(EEXIST);
      }
      if existing.error != ENOENT {
        return Failed(existing.error);
      }
      var k := FreeSlot();
      if !commits {
        return Failed(EIO);
      }
      InsertedUniqueExactly(slots, k, Used(name, inode, kind));
      if Lookup(slots, 0, name).None? {
        forall n ensures Lookup(PutSlot(slots, k, Used(name, inode, kind)), 0, n) ==
                         if n == name then Some(Dentry(inode, k, kind)) else Lookup(slots, 0, n) {
          InsertedLookup(slots, k, Used(name, inode, kind), n);
        }
        InsertedLookup(slots, k, Used(name, inode, kind), name);
        ChangedUnder(PutSlot(slots, k, Used(name, inode, kind)), slots, names, complete, {name});
      }
      slots := PutSlot(slots, k, Used(name, inode, kind));
      var cached := CacheDentry(name, Dentry(inode, k, kind), room(k), {name});
      assert {name} - {name} == {};
      r := Done;
    }

    /** A name of the expected kind removed, a directory only if `child`, the directory it leads to, is empty; `expected` is
        the inode that was found before the locks were taken. */
    method Delete(name: string, kind: nat, expected: Option<nat>, child: Directory?, room: nat -> bool, status: nat -> Status, commits: bool)
      returns (r: Outcome)
      requires Valid() && Ordinary(name) && (child != null ==> |child.slots| >= 2)
      requires Lookup(slots, 0, name).Some? && Lookup(slots, 0, name).value.kind == DIRECTORY ==> child != null
      modifies this
      ensures Valid()
      ensures r == old(Removed(Finds(slots, name, status), kind, expected, child != null && OnlyDots(child.slots), commits))
      ensures var found := Finds(old(slots), name, status);
              if found.NotFound? then r == Failed(found.error)
              else
                var wrong := expected.Some? && expected.value != found.entry.inode;
                && (wrong ==> r == Failed(EAGAIN))
                && (!wrong && kind == DIRECTORY && found.entry.kind != DIRECTORY ==> r == Failed(ENOTDIR))
                && (!wrong && kind != DIRECTORY && found.entry.kind != kind ==> r == Failed(EISDIR))
                && (!wrong && found.entry.kind == kind == DIRECTORY && !old(OnlyDots(child.slots)) ==> r == Failed(ENOTEMPTY))
                && (!wrong && found.entry.kind == kind && (kind == DIRECTORY ==> old(OnlyDots(child.slots))) ==>
                      r == if commits then Done else Failed(EIO))
      ensures r.Failed? ==> slots == old(slots)
      ensures r.Done? ==> Lookup(slots, 0, name).None?
      ensures r.Done? ==> forall n :: n != name ==> Lookup(slots, 0, n) == Lookup(old(slots), 0, n)
    {
      hide AgreesBut, UniqueNames;
      var found := Find(name, room, status);
      if found.NotFound? {
        return Failed(found.error);
      }
      if expected.Some? && found.entry.inode != expected.value {
        return Failed(EAGAIN);
      }
      if found.entry.kind != kind {
        return Failed(if kind == DIRECTORY then ENOTDIR else EISDIR);
      }
      if kind == DIRECTORY {
        var empty := child.IsEmpty();
        if !empty {
          return Failed(ENOTEMPTY);
        }
      }
      if !commits {
        return Failed(EIO);
      }
      var k := found.entry.offset;
      forall n ensures Lookup(slots[k := Free], 0, n) == if n == name then None else Lookup(slots, 0, n) {
        FreedLookup(slots, k, n);
      }
      FreedLookup(slots, k, name);
      ChangedUnder(slots[k := Free], slots, names, complete, {name});
      slots := slots[k := Free];
      EraseDentry(name, {name});
      assert {name} - {name} == {};
      r := Done;
    }
  }

  // ---- renames ----

  /** What the checks of a rename say before anything is written; None is to go on. `empty` is whether the replaced
      directory has no entries. */
  function Refused(source: FindResult, target: FindResult, sameName: bool, empty: bool): Option<Outcome> {
    if source.NotFound? then Some(Failed(source.error))
    else if sameName then Some(Done)
    else if target.NotFound? then if target.error == ENOENT then None else Some(Failed(target.error))
    else if target.entry.inode == source.entry.inode then Some(Done)
    else if source.entry.kind == DIRECTORY && target.entry.kind != DIRECTORY then Some(Failed(ENOTDIR))
    else if source.entry.kind != DIRECTORY && target.entry.kind == DIRECTORY then Some(Failed(EISDIR))
    else if target.entry.kind == DIRECTORY && !empty then Some(Failed(ENOTEMPTY))
    else None
  }

  /** The slots after a rename inside one directory: the target's slot, or the source's own, gets the new entry. */
  function RenamedSlots(slots: seq<Slot>, source: Dentry, target: Option<Dentry>, newName: string): seq<Slot>
    requires source.offset < |slots| && (target.Some? ==> target.value.offset < |slots|)
  {
    var entry := Used(newName, source.inode, source.kind);
    if target.Some? then slots[target.value.offset := entry][source.offset := Free] else slots[source.offset := entry]
  }

  lemma RenamedLookup(slots: seq<Slot>, oldName: string, newName: string, n: string)
    requires UniqueNames(slots) && Lookup(slots, 0, oldName).Some? && oldName != newName
    ensures var source, target := Lookup(slots, 0, oldName).value, Lookup(slots, 0, newName);
            var slots' := RenamedSlots(slots, source, target, newName);
            && UniqueNames(slots')
            && Lookup(slots', 0, n) ==
               if n == newName then Some(source.(offset := if target.Some? then target.value.offset else source.offset))
               else if n == oldName then None
               else Lookup(slots, 0, n)
  {
    hide UniqueNames;
    var source, target := Lookup(slots, 0, oldName).value, Lookup(slots, 0, newName);
    var entry := Used(newName, source.inode, source.kind);
    if target.Some? {
      var slots1 := slots[target.value.offset := entry];
      RewrittenLookup(slots, target.value.offset, entry, n);
      FreedLookup(slots1, source.offset, n);
    } else {
      RewrittenLookup(slots, source.offset, entry, n);
    }
  }

  lemma RenamedKeepsDots(slots: seq<Slot>, oldName: string, newName: string)
    requires UniqueNames(slots) && DotsOk(slots) && Lookup(slots, 0, oldName).Some? && Ordinary(oldName) && Ordinary(newName)
    ensures DotsOk(RenamedSlots(slots, Lookup(slots, 0, oldName).value, Lookup(slots, 0, newName), newName))
  {
  }

  /** The rename goes through. */
  predicate Goes(source: FindResult, target: FindResult, sameName: bool, empty: bool, commits: bool) {
    Refused(source, target, sameName, empty).None? && commits
  }

  function Answer(source: FindResult, target: FindResult, sameName: bool, empty: bool, commits: bool): Outcome {
    var refused := Refused(source, target, sameName, empty);
    if refused.Some? then refused.value else if commits then Done else Failed(EIO)
  }

  lemma RenamedTwice(slots: seq<Slot>, oldName: string, newName: string)
    requires Lookup(slots, 0, oldName).Some? && Lookup(slots, 0, newName).Some? && oldName != newName
    ensures var source := Lookup(slots, 0, oldName).value;
            !UniqueNames(slots[source.offset := Used(newName, source.inode, source.kind)])
  {
    var source, j := Lookup(slots, 0, oldName).value, Lookup(slots, 0, newName).value.offset;
    var slots' := slots[source.offset := Used(newName, source.inode, source.kind)];
    assert j != source.offset && slots'[j].Used? && slots'[source.offset].Used? && slots'[j].name == slots'[source.offset].name;
  }

  /** `replaced` is the directory behind the new name, if a directory is there. */
  ghost predicate LeadsTo(slots: seq<Slot>, newName: string, replaced: Directory?)
    reads replaced
  {
    && (replaced != null ==> |replaced.slots| >= 2)
    && (Lookup(slots, 0, newName).Some? && Lookup(slots, 0, newName).value.kind == DIRECTORY ==> replaced != null)
  }

  method ReplacedIsEmpty(target: FindResult, replaced: Directory?) returns (empty: bool)
    requires replaced != null ==> |replaced.slots| >= 2
    requires target.Found? && target.entry.kind == DIRECTORY ==> replaced != null
    ensures target.Found? && target.entry.kind == DIRECTORY ==> (empty <==> OnlyDots(replaced.slots))
  {
    empty := false;
    if target.Found? && target.entry.kind == DIRECTORY {
      empty := replaced.IsEmpty();
    }
  }

  /** The checks that every rename makes; `stop` is the answer if it ends there. */
  method CheckNames(from: Directory, into: Directory, oldName: string, newName: string, replaced: Directory?,
                    room: nat -> bool, status: nat -> Status)
    returns (stop: Option<Outcome>, source: FindResult, target: FindResult)
    requires from.Valid() && into.Valid() && LeadsTo(into.slots, newName, replaced)
    modifies from`names, from`complete, into`names, into`complete
    ensures from.Valid() && into.Valid() && source == Finds(from.slots, oldName, status)
    ensures var same := from == into && oldName == newName;
            && (source.Found? && !same ==> target == Finds(into.slots, newName, status))
            && stop == Refused(source, target, same, replaced != null && OnlyDots(replaced.slots))
    ensures source.NotFound? ==> stop == Some(Failed(source.error))
    ensures source.Found? && from == into && oldName == newName ==> stop == Some(Done)
    ensures source.Found? && (from != into || oldName != newName) ==> (target == NotFound(ENOENT) ==> stop == None)
    ensures source.Found? && (from != into || oldName != newName) && target.NotFound? && target.error != ENOENT ==> stop == Some(Failed(target.error))
    ensures source.Found? && (from != into || oldName != newName) && target.Found? ==>
              var kind, onto, same := source.entry.kind, target.entry.kind, source.entry.inode == target.entry.inode;
              && (same ==> stop == Some(Done))
              && (!same && kind == DIRECTORY && onto != DIRECTORY ==> stop == Some(Failed(ENOTDIR)))
              && (!same && kind != DIRECTORY && onto == DIRECTORY ==> stop == Some(Failed(EISDIR)))
              && (!same && kind == onto == DIRECTORY && !OnlyDots(replaced.slots) ==> stop == Some(Failed(ENOTEMPTY)))
              && (!same && (kind == DIRECTORY <==> onto == DIRECTORY) && (onto == DIRECTORY ==> OnlyDots(replaced.slots)) ==> stop == None)
  {
    hide AgreesBut, UniqueNames, Lookup, OnlyDots, DotsOk;
    target := NotFound(ENOENT);
    source := from.Find(oldName, room, status);
    if source.NotFound? {
      stop := Some(Failed(source.error));
      return;
    }
    if from == into && oldName == newName {
      stop := Some(Done);
      return;
    }
    target := into.Find(newName, room, status);
    var empty := ReplacedIsEmpty(target, replaced);
    stop := Refused(source, target, false, empty);
  }

  /** A rename inside one directory: the old name is gone, the new one leads to the renamed inode, every other name leads
      where it did, on disk and in the cache; or nothing has changed. Only a dangling entry of the new name spoils it. */
  method RenameWithin(d: Directory, oldName: string, newName: string, replaced: Directory?, room: nat -> bool, status: nat -> Status, commits: bool)
    returns (r: Outcome)
    requires d.Valid() && Ordinary(oldName) && Ordinary(newName) && LeadsTo(d.slots, newName, replaced)
    modifies d
    ensures var source, target := Finds(old(d.slots), oldName, status), Finds(old(d.slots), newName, status);
            var empty := old(replaced != null && OnlyDots(replaced.slots));
            && r == Answer(source, target, oldName == newName, empty, commits)
            && (d.Valid() <==> !(Dangling(old(d.slots), newName, status) && Goes(source, target, oldName == newName, empty, commits)))
            && if !Goes(source, target, oldName == newName, empty, commits) then d.slots == old(d.slots)
               else
                 var slot := if target.Found? then target.entry.offset else source.entry.offset;
                 d.Valid() ==>
                   && Lookup(d.slots, 0, newName) == Some(source.entry.(offset := slot))
                   && Lookup(d.slots, 0, oldName).None?
                   && forall n :: n != oldName && n != newName ==> Lookup(d.slots, 0, n) == Lookup(old(d.slots), 0, n)
    ensures var source, target := Finds(old(d.slots), oldName, status), Finds(old(d.slots), newName, status);
            && (source.NotFound? ==> r == Failed(source.error) && d.slots == old(d.slots))
            && (source.Found? && oldName == newName ==> r == Done && d.slots == old(d.slots))
            && (source.Found? && oldName != newName && target.NotFound? && target.error != ENOENT ==>
                  r == Failed(target.error) && d.slots == old(d.slots))
            && (source.Found? && oldName != newName && target == NotFound(ENOENT) ==> r == if commits then Done else Failed(EIO))
    ensures var source, target := Finds(old(d.slots), oldName, status), Finds(old(d.slots), newName, status);
            source.Found? && oldName != newName && target.Found? ==>
              var from, onto, same := source.entry.kind, target.entry.kind, source.entry.inode == target.entry.inode;
              && (same ==> r == Done && d.slots == old(d.slots))
              && (!same && from == DIRECTORY && onto != DIRECTORY ==> r == Failed(ENOTDIR) && d.slots == old(d.slots))
              && (!same && from != DIRECTORY && onto == DIRECTORY ==> r == Failed(EISDIR) && d.slots == old(d.slots))
              && (!same && from == onto == DIRECTORY && !old(OnlyDots(replaced.slots)) ==> r == Failed(ENOTEMPTY) && d.slots == old(d.slots))
              && (!same && (from == DIRECTORY <==> onto == DIRECTORY) && (onto == DIRECTORY ==> old(OnlyDots(replaced.slots))) ==>
                    && r == (if commits then Done else Failed(EIO))
                    && (commits ==> d.Valid() && Lookup(d.slots, 0, newName) == Some(source.entry.(offset := target.entry.offset))))
  {
    hide AgreesBut, UniqueNames;
    var stop, source, target := CheckNames(d, d, oldName, newName, replaced, room, status);
    if stop.Some? {
      return stop.value;
    }
    var slot := if target.Found? then target.entry.offset else source.entry.offset;
    if !commits {
      return Failed(EIO);
    }
    if Dangling(d.slots, newName, status) {
      RenamedTwice(d.slots, oldName, newName);
    } else {
      WithinSlots(d, oldName, newName, source.entry, slot);
    }
    d.slots := d.slots[slot := Used(newName, source.entry.inode, source.entry.kind)];
    if slot != source.entry.offset {
      d.slots := d.slots[source.entry.offset := Free];
    }
    d.EraseDentry(oldName, {oldName, newName});
    assert {oldName, newName} - {oldName} == {newName};
    var cached := d.CacheDentry(newName, source.entry.(offset := slot), room(slot), {newName});
    assert {newName} - {newName} == {};
    r := Done;
  }

  lemma WithinSlots(d: Directory, oldName: string, newName: string, source: Dentry, slot: nat)
    requires d.Valid() && Ordinary(oldName) && Ordinary(newName) && oldName != newName && Lookup(d.slots, 0, oldName) == Some(source)
    requires slot == match Lookup(d.slots, 0, newName) case Some(t) => t.offset case None => source.offset
    ensures slot < |d.slots|
    ensures var slots1 := d.slots[slot := Used(newName, source.inode, source.kind)];
            var slots' := if slot != source.offset then slots1[source.offset := Free] else slots1;
            && DotsOk(slots') && UniqueNames(slots') && AgreesBut(slots', d.names, d.complete, {oldName, newName})
            && Lookup(slots', 0, newName) == Some(source.(offset := slot)) && Lookup(slots', 0, oldName).None?
            && forall n :: n != oldName && n != newName ==> Lookup(slots', 0, n) == Lookup(d.slots, 0, n)
  {
    hide AgreesBut, UniqueNames;
    var slots' := RenamedSlots(d.slots, source, Lookup(d.slots, 0, newName), newName);
    forall n ensures Lookup(slots', 0, n) == if n == newName then Some(source.(offset := slot)) else if n == oldName then None
                                             else Lookup(d.slots, 0, n) {
      RenamedLookup(d.slots, oldName, newName, n);
    }
    RenamedLookup(d.slots, oldName, newName, newName);
    RenamedKeepsDots(d.slots, oldName, newName);
    ChangedUnder(slots', d.slots, d.names, d.complete, {oldName, newName});
  }

  /** What a rename between directories says: a directory that moves must also have its ".." found. */
  function AnswerAcross(source: FindResult, target: FindResult, dotdot: Option<FindResult>, empty: bool, commits: bool): Outcome {
    var refused := Refused(source, target, false, empty);
    if refused.Some? then refused.value
    else if dotdot.Some? && dotdot.value.NotFound? then Failed(dotdot.value.error)
    else if commits then Done else Failed(EIO)
  }

  predicate GoesAcross(source: FindResult, target: FindResult, dotdot: Option<FindResult>, empty: bool, commits: bool) {
    Refused(source, target, false, empty).None? && (dotdot.Some? ==> dotdot.value.Found?) && commits
  }

  /** Putting the new entry into the target's slot, or a free one. */
  lemma IntoSlots(d: Directory, newName: string, entry: Slot, slot: nat)
    requires d.Valid() && Ordinary(newName) && entry.Used? && entry.name == newName && slot <= |d.slots|
    requires match Lookup(d.slots, 0, newName) case Some(t) => slot == t.offset case None => slot >= 2 && (slot < |d.slots| ==> d.slots[slot].Free?)
    ensures var slots' := PutSlot(d.slots, slot, entry);
            && DotsOk(slots') && UniqueNames(slots') && AgreesBut(slots', d.names, d.complete, {newName})
            && Lookup(slots', 0, newName) == Some(Dentry(entry.inode, slot, entry.kind))
            && forall n :: n != newName ==> Lookup(slots', 0, n) == Lookup(d.slots, 0, n)
  {
    hide AgreesBut, UniqueNames;
    var slots' := PutSlot(d.slots, slot, entry);
    forall n ensures Lookup(slots', 0, n) == if n == newName then Some(Dentry(entry.inode, slot, entry.kind)) else Lookup(d.slots, 0, n) {
      if Lookup(d.slots, 0, newName).Some? {
        RewrittenLookup(d.slots, slot, entry, n);
      } else {
        InsertedLookup(d.slots, slot, entry, n);
      }
    }
    if Lookup(d.slots, 0, newName).Some? {
      RewrittenLookup(d.slots, slot, entry, newName);
    } else {
      InsertedLookup(d.slots, slot, entry, newName);
    }
    ChangedUnder(slots', d.slots, d.names, d.complete, {newName});
  }

  lemma OutSlots(d: Directory, oldName: string)
    requires d.Valid() && Ordinary(oldName) && Lookup(d.slots, 0, oldName).Some?
    ensures var slots' := d.slots[Lookup(d.slots, 0, oldName).value.offset := Free];
            && DotsOk(slots') && UniqueNames(slots') && AgreesBut(slots', d.names, d.complete, {oldName})
            && Lookup(slots', 0, oldName).None?
            && forall n :: n != oldName ==> Lookup(slots', 0, n) == Lookup(d.slots, 0, n)
  {
    hide AgreesBut, UniqueNames;
    var k := Lookup(d.slots, 0, oldName).value.offset;
    forall n ensures Lookup(d.slots[k := Free], 0, n) == if n == oldName then None else Lookup(d.slots, 0, n) {
      FreedLookup(d.slots, k, n);
    }
    FreedLookup(d.slots, k, oldName);
    ChangedUnder(d.slots[k := Free], d.slots, d.names, d.complete, {oldName});
  }

  /** ".." is always the second slot, so it can be repointed there. */
  lemma UpSlots(d: Directory, parent: nat)
    requires d.Valid()
    ensures Lookup(d.slots, 0, "..").Some? && Lookup(d.slots, 0, "..").value.offset == 1 && Lookup(d.slots, 0, "..").value.kind == DIRECTORY
    ensures var slots' := d.slots[1 := Used("..", parent, DIRECTORY)];
            && DotsOk(slots') && UniqueNames(slots') && AgreesBut(slots', d.names, d.complete, {".."})
            && Lookup(slots', 0, "..") == Some(Dentry(parent, 1, DIRECTORY))
            && forall n :: n != ".." ==> Lookup(slots', 0, n) == Lookup(d.slots, 0, n)
  {
    hide AgreesBut, UniqueNames;
    LookupIs(d.slots, 0, 1, "..");
    var slots' := d.slots[1 := Used("..", parent, DIRECTORY)];
    forall n ensures Lookup(slots', 0, n) == if n == ".." then Some(Dentry(parent, 1, DIRECTORY)) else Lookup(d.slots, 0, n) {
      RewrittenLookup(d.slots, 1, Used("..", parent, DIRECTORY), n);
    }
    RewrittenLookup(d.slots, 1, Used("..", parent, DIRECTORY), "..");
    ChangedUnder(slots', d.slots, d.names, d.complete, {".."});
  }

  /** What a rename that went through has done to the directory the name has left. */
  ghost predicate Left(slots': seq<Slot>, slots: seq<Slot>, oldName: string) {
    Lookup(slots', 0, oldName).None? && forall n :: n != oldName ==> Lookup(slots', 0, n) == Lookup(slots, 0, n)
  }

  /** ... and to a directory in which one name has a new entry. */
  ghost predicate Entered(slots': seq<Slot>, slots: seq<Slot>, name: string, d: Dentry) {
    Lookup(slots', 0, name) == Some(d) && forall n :: n != name ==> Lookup(slots', 0, n) == Lookup(slots, 0, n)
  }

  /** The slot for the new entry: the replaced one, or a free one. */
  predicate SlotFor(slots: seq<Slot>, newName: string, target: Option<Dentry>, slot: nat) {
    && slot <= |slots| && (target.Some? ==> Lookup(slots, 0, newName) == target)
    && if target.Some? then slot == target.value.offset else slot >= 2 && (slot < |slots| ==> slots[slot].Free?)
  }

  lemma IntoAny(d: Directory, newName: string, inode: nat, kind: nat, target: Option<Dentry>, slot: nat)
    requires d.Valid() && Ordinary(newName) && SlotFor(d.slots, newName, target, slot)
    ensures var slots' := PutSlot(d.slots, slot, Used(newName, inode, kind));
            if target.None? && Lookup(d.slots, 0, newName).Some? then !UniqueNames(slots')
            else
              && DotsOk(slots') && UniqueNames(slots') && AgreesBut(slots', d.names, d.complete, {newName})
              && Entered(slots', d.slots, newName, Dentry(inode, slot, kind))
  {
    hide AgreesBut, UniqueNames;
    if target.None? && Lookup(d.slots, 0, newName).Some? {
      InsertedUniqueExactly(d.slots, slot, Used(newName, inode, kind));
    } else {
      IntoSlots(d, newName, Used(newName, inode, kind), slot);
    }
  }

  /** The three writes of a rename between directories, then the three changes of the caches. `target` is the entry it
      replaces; an entry of the new name that it does not know of is the one thing that spoils the directory. */
  method CommitRename(from: Directory, into: Directory, moved: Directory?, intoInode: nat, oldName: string, newName: string,
                      source: Dentry, target: Option<Dentry>, slot: nat, up: nat, room: nat -> bool)
    requires from != into && from.Valid() && into.Valid() && Ordinary(oldName) && Ordinary(newName)
    requires moved != null ==> moved != from && moved != into && moved.Valid() && up == 1
    requires Lookup(from.slots, 0, oldName) == Some(source) && SlotFor(into.slots, newName, target, slot)
    modifies from, into, if moved != null then {moved} else {}
    ensures from.Valid() && Left(from.slots, old(from.slots), oldName)
    ensures into.Valid() <==> target.Some? || Lookup(old(into.slots), 0, newName).None?
    ensures into.Valid() ==> Entered(into.slots, old(into.slots), newName, source.(offset := slot))
    ensures moved != null ==> moved.Valid() && Entered(moved.slots, old(moved.slots), "..", Dentry(intoInode, 1, DIRECTORY))
  {
    hide AgreesBut, UniqueNames, Lookup, DotsOk;
    IntoAny(into, newName, source.inode, source.kind, target, slot);
    OutSlots(from, oldName);
    into.slots := PutSlot(into.slots, slot, Used(newName, source.inode, source.kind));
    from.slots := from.slots[source.offset := Free];
    if moved != null {
      UpSlots(moved, intoInode);
      moved.slots := moved.slots[up := Used("..", intoInode, DIRECTORY)];
    }
    from.EraseDentry(oldName, {oldName});
    var cached := into.CacheDentry(newName, source.(offset := slot), room(slot), {newName});
    assert {oldName} - {oldName} == {} && {newName} - {newName} == {};
    if moved != null {
      cached := moved.CacheDentry("..", Dentry(intoInode, up, DIRECTORY), room(up), {".."});
      assert {".."} - {".."} == {};
    }
  }

  lemma HasDots(d: Directory)
    requires d.Valid()
    ensures |d.slots| >= 2
  {
  }

  /** The checks of a rename between two directories; `stop` is the answer if it ends there. `up` is the slot of "..". */
  method CheckAcross(from: Directory, into: Directory, moved: Directory?, oldName: string, newName: string, replaced: Directory?,
                     room: nat -> bool, status: nat -> Status)
    returns (stop: Option<Outcome>, source: FindResult, target: FindResult, up: nat)
    requires from != into && from.Valid() && into.Valid() && (moved != null ==> moved.Valid()) && LeadsTo(into.slots, newName, replaced)
    requires Lookup(from.slots, 0, oldName).Some? ==> (moved != null <==> Lookup(from.slots, 0, oldName).value.kind == DIRECTORY)
    modifies from`names, from`complete, into`names, into`complete
    modifies (if moved != null then {moved} else {})`names, (if moved != null then {moved} else {})`complete
    ensures from.Valid() && into.Valid() && (moved != null ==> moved.Valid())
    ensures source == Finds(from.slots, oldName, status)
    ensures source.Found? ==> target == Finds(into.slots, newName, status)
    ensures source.Found? ==>
              var dotdot := if moved != null then Some(Finds(moved.slots, "..", status)) else None;
              var empty := replaced != null && OnlyDots(replaced.slots);
              && (stop.None? <==> GoesAcross(source, target, dotdot, empty, true))
              && (stop.Some? ==> forall commits :: stop.value == AnswerAcross(source, target, dotdot, empty, commits))
    ensures source.NotFound? ==> stop == Some(Failed(source.error))
    ensures source.Found? && target.NotFound? && target.error != ENOENT ==> stop == Some(Failed(target.error))
    ensures source.Found? && target.Found? ==>
              var kind, onto, same := source.entry.kind, target.entry.kind, source.entry.inode == target.entry.inode;
              && (same ==> stop == Some(Done))
              && (!same && kind == DIRECTORY && onto != DIRECTORY ==> stop == Some(Failed(ENOTDIR)))
              && (!same && kind != DIRECTORY && onto == DIRECTORY ==> stop == Some(Failed(EISDIR)))
              && (!same && kind == onto == DIRECTORY && !OnlyDots(replaced.slots) ==> stop == Some(Failed(ENOTEMPTY)))
    ensures stop.None? && moved != null ==> up == 1
  {
    hide AgreesBut, UniqueNames, Lookup, OnlyDots, DotsOk;
    up := 0;
    stop, source, target := CheckNames(from, into, oldName, newName, replaced, room, status);
    if stop.None? && source.entry.kind == DIRECTORY {
      var dotdot := moved.Find("..", room, status);
      if dotdot.NotFound? {
        stop := Some(Failed(dotdot.error));
      } else {
        UpSlots(moved, 0);
        up := dotdot.entry.offset;
      }
    }
  }

  /** A rename between two directories, of a file or of the directory `moved`: the name leaves one directory, leads to its
      inode in the other, and a moved directory has the new parent behind ".."; or nothing has changed anywhere. */
  method RenameAcross(from: Directory, into: Directory, moved: Directory?, intoInode: nat, oldName: string, newName: string, replaced: Directory?,
                      room: nat -> bool, status: nat -> Status, commits: bool) returns (r: Outcome)
    requires from != into && from.Valid() && into.Valid() && Ordinary(oldName) && Ordinary(newName)
    requires moved != null ==> moved != from && moved != into && moved.Valid()
    requires LeadsTo(into.slots, newName, replaced)
    requires Lookup(from.slots, 0, oldName).Some? ==> (moved != null <==> Lookup(from.slots, 0, oldName).value.kind == DIRECTORY)
    modifies from, into, if moved != null then {moved} else {}
    ensures from.Valid() && (moved != null ==> moved.Valid())
    ensures var source, target := Finds(old(from.slots), oldName, status), Finds(old(into.slots), newName, status);
            var dotdot := if moved != null then Some(Finds(old(moved.slots), "..", status)) else None;
            var empty := old(replaced != null && OnlyDots(replaced.slots));
            && r == AnswerAcross(source, target, dotdot, empty, commits)
            && (into.Valid() <==> !(Dangling(old(into.slots), newName, status) && GoesAcross(source, target, dotdot, empty, commits)))
            && if !GoesAcross(source, target, dotdot, empty, commits) then
                 from.slots == old(from.slots) && into.slots == old(into.slots) && (moved != null ==> moved.slots == old(moved.slots))
               else
                 && Left(from.slots, old(from.slots), oldName)
                 && (into.Valid() ==>
                       exists slot :: SlotFor(old(into.slots), newName, if target.Found? then Some(target.entry) else None, slot)
                                      && Entered(into.slots, old(into.slots), newName, source.entry.(offset := slot)))
                 && (moved != null ==> Entered(moved.slots, old(moved.slots), "..", Dentry(intoInode, 1, DIRECTORY)))
    ensures var source, target := Finds(old(from.slots), oldName, status), Finds(old(into.slots), newName, status);
            && (source.NotFound? ==> r == Failed(source.error))
            && (source.Found? && target.NotFound? && target.error != ENOENT ==> r == Failed(target.error))
            && (source.Found? && target == NotFound(ENOENT) && moved == null ==> r == if commits then Done else Failed(EIO))
    ensures var source, target := Finds(old(from.slots), oldName, status), Finds(old(into.slots), newName, status);
            source.Found? && target.Found? ==>
              var kind, onto, same := source.entry.kind, target.entry.kind, source.entry.inode == target.entry.inode;
              && (same ==> r == Done)
              && (!same && kind == DIRECTORY && onto != DIRECTORY ==> r == Failed(ENOTDIR))
              && (!same && kind != DIRECTORY && onto == DIRECTORY ==> r == Failed(EISDIR))
              && (!same && kind == onto == DIRECTORY && !old(OnlyDots(replaced.slots)) ==> r == Failed(ENOTEMPTY))
              && (!same && kind != DIRECTORY && onto != DIRECTORY ==> r == if commits then Done else Failed(EIO))
    ensures var source, target := Finds(old(from.slots), oldName, status), Finds(old(into.slots), newName, status);
            r.Failed? || source.NotFound? || (target.Found? && target.entry.inode == source.entry.inode) ==>
              from.slots == old(from.slots) && into.slots == old(into.slots) && (moved != null ==> moved.slots == old(moved.slots))
    ensures var source, target := Finds(old(from.slots), oldName, status), Finds(old(into.slots), newName, status);
            source.Found? && source.entry.kind == DIRECTORY && (target == NotFound(ENOENT)
              || (target.Found? && target.entry.inode != source.entry.inode && target.entry.kind == DIRECTORY && old(OnlyDots(replaced.slots)))) ==>
              var up := Finds(old(moved.slots), "..", status);
              r == if up.NotFound? then Failed(up.error) else if commits then Done else Failed(EIO)
  {
    hide AgreesBut, UniqueNames, Lookup, Left, Entered, OnlyDots, DotsOk;
    var stop, source, target, up := CheckAcross(from, into, moved, oldName, newName, replaced, room, status);
    if stop.Some? {
      return stop.value;
    }
    var slot := 0;
    if target.Found? {
      slot := target.entry.offset;
    } else {
      HasDots(into);
      slot := into.FreeSlot();
    }
    if !commits {
      return Failed(EIO);
    }
    CommitRename(from, into, moved, intoInode, oldName, newName, source.entry, if target.Found? then Some(target.entry) else None, slot, up, room);
    r := Done;
  }
}
