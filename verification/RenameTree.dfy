/** Directory renames under the topology gate: the directories below the root stay one tree while other operations go on. */
module RenameTree {
  import opened Media

  const ROOT: nat := 0

  /** A directory: its entries that are directories, and where its ".." leads. */
  datatype Dir = Dir(children: map<string, nat>, up: nat)

  /** The ancestor walk of a rename, from the new parent towards the root. */
  datatype Walk = Walk(source: nat, target: nat, current: nat)

  /** `tree` are the directories that hang below the root, `orphans` those that were removed while somebody had them open. */
  datatype State = State(dirs: map<nat, Dir>, tree: set<nat>, orphans: set<nat>, gate: Option<Walk>)

  datatype Event =
    | Mkdir(p: nat, name: string, inode: nat)
    | Rmdir(p: nat, name: string, open: bool)
    | StartRename(source: nat, target: nat)
    | WalkStep
    | CancelRename
    | CommitRename(p: nat, name: string, q: nat, newName: string, open: bool)
    | RenameWithin(p: nat, name: string, newName: string, open: bool)
    | LastClose(d: nat)

  ghost predicate Linked(s: State, d: nat) {
    d in s.dirs && d in s.tree
  }

  /** What an entry that is to be replaced or removed must be: an empty directory other than the root. */
  ghost predicate Removable(s: State, d: nat) {
    d in s.dirs && d != ROOT && s.dirs[d].children == map[]
  }

  ghost predicate Replaceable(s: State, q: nat, name: string, source: nat)
    requires q in s.dirs
  {
    name in s.dirs[q].children ==> Removable(s, s.dirs[q].children[name]) && s.dirs[q].children[name] != source
  }

  ghost predicate Enabled(s: State, e: Event) {
    match e
    case Mkdir(p, name, inode) => p in s.dirs && name !in s.dirs[p].children && inode !in s.dirs
    case Rmdir(p, name, open) => s.gate.None? && Linked(s, p) && name in s.dirs[p].children && Removable(s, s.dirs[p].children[name])
    case StartRename(source, target) => s.gate.None? && Linked(s, source) && Linked(s, target) && source != ROOT
    case WalkStep => s.gate.Some? && s.gate.value.current in s.dirs && s.gate.value.current != ROOT && s.gate.value.current != s.gate.value.source
    case CancelRename => s.gate.Some?
    case CommitRename(p, name, q, newName, open) =>
      && s.gate.Some? && s.gate.value.current == ROOT && q == s.gate.value.target && p != q
      && Linked(s, p) && Linked(s, q) && name in s.dirs[p].children && s.dirs[p].children[name] == s.gate.value.source
      && s.gate.value.source in s.dirs && Replaceable(s, q, newName, s.gate.value.source)
    case RenameWithin(p, name, newName, open) =>
      && s.gate.None? && Linked(s, p) && name in s.dirs[p].children && s.dirs[p].children[name] in s.dirs && name != newName
      && Replaceable(s, p, newName, s.dirs[p].children[name])
    case LastClose(d) => d in s.orphans
  }

  // ---- the changes ----

  function Unlinked(dirs: map<nat, Dir>, p: nat, name: string): (r: map<nat, Dir>)
    requires p in dirs
    ensures r.Keys == dirs.Keys
  {
    dirs[p := dirs[p].(children := dirs[p].children - {name})]
  }

  function Entered(dirs: map<nat, Dir>, p: nat, name: string, d: nat): (r: map<nat, Dir>)
    requires p in dirs
    ensures r.Keys == dirs.Keys
  {
    dirs[p := dirs[p].(children := dirs[p].children[name := d])]
  }

  function Raised(dirs: map<nat, Dir>, d: nat, up: nat): (r: map<nat, Dir>)
    requires d in dirs
    ensures r.Keys == dirs.Keys
  {
    dirs[d := dirs[d].(up := up)]
  }

  /** Directory `d` leaves the tree: kept as an orphan while it is open, else gone. */
  function Dropped(s: State, d: nat, open: bool): State {
    if open then s.(tree := s.tree - {d}, orphans := s.orphans + {d}) else s.(dirs := s.dirs - {d}, tree := s.tree - {d})
  }

  /** The entry `name` of `q` out of the way, if there is one. */
  function Cleared(s: State, q: nat, name: string, open: bool): State
    requires q in s.dirs
  {
    if name in s.dirs[q].children
    then Dropped(s.(dirs := Unlinked(s.dirs, q, name)), s.dirs[q].children[name], open) else s
  }

  ghost function Next(s: State, e: Event): State
    requires Enabled(s, e)
  {
    match e
    case Mkdir(p, name, inode) =>
      s.(dirs := Entered(s.dirs, p, name, inode)[inode := Dir(map[], p)], tree := if p in s.tree then s.tree + {inode} else s.tree)
    case Rmdir(p, name, open) => Cleared(s, p, name, open)
    case StartRename(source, target) => s.(gate := Some(Walk(source, target, target)))
    case WalkStep => s.(gate := Some(s.gate.value.(current := s.dirs[s.gate.value.current].up)))
    case CancelRename => s.(gate := None)
    case CommitRename(p, name, q, newName, open) =>
      Moved(Cleared(s, q, newName, open), p, name, q, newName).(gate := None)
    case RenameWithin(p, name, newName, open) =>
      Moved(Cleared(s, p, newName, open), p, name, p, newName)
    case LastClose(d) => s.(dirs := s.dirs - {d}, orphans := s.orphans - {d})
  }

  /** The entry `name` of `p` becomes the entry `newName` of `q`. */
  ghost function Moved(s: State, p: nat, name: string, q: nat, newName: string): State {
    if p in s.dirs && q in s.dirs && name in s.dirs[p].children && s.dirs[p].children[name] in s.dirs then
      var d := s.dirs[p].children[name];
      s.(dirs := Raised(Entered(Unlinked(s.dirs, p, name), q, newName, d), d, q))
    else s
  }

  // ---- climbing ----

  /** The directory `n` levels above `d`. */
  function Climb(dirs: map<nat, Dir>, d: nat, n: nat): Option<nat>
    decreases n
  {
    if n == 0 then Some(d)
    else if d in dirs && d != ROOT then Climb(dirs, dirs[d].up, n - 1)
    else None
  }

  ghost predicate ReachesRoot(dirs: map<nat, Dir>, d: nat) {
    exists n: nat :: Climb(dirs, d, n) == Some(ROOT)
  }

  /** `a` is `d` or above it. */
  ghost predicate IsAbove(dirs: map<nat, Dir>, a: nat, d: nat) {
    exists n: nat :: Climb(dirs, d, n) == Some(a)
  }

  lemma {:induction false} ClimbOn(dirs: map<nat, Dir>, d: nat, n: nat)
    requires Climb(dirs, d, n).Some?
    ensures var x := Climb(dirs, d, n).value;
            Climb(dirs, d, n + 1) == if x in dirs && x != ROOT then Some(dirs[x].up) else None
    decreases n
  {
    if n > 0 {
      ClimbOn(dirs, dirs[d].up, n - 1);
    }
  }

  /** Above the root there is nothing. */
  lemma {:induction false} ClimbEnds(dirs: map<nat, Dir>, d: nat, n: nat, m: nat)
    requires Climb(dirs, d, n) == Some(ROOT) && m > n
    ensures Climb(dirs, d, m) == None
    decreases n
  {
    if n > 0 {
      ClimbEnds(dirs, dirs[d].up, n - 1, m - 1);
    }
  }

  /** ".." of every directory on the way is the same in both. */
  ghost predicate SameUps(dirs': map<nat, Dir>, dirs: map<nat, Dir>, except: nat) {
    forall d :: d in dirs && d != except ==> d in dirs' && dirs'[d].up == dirs[d].up
  }

  lemma {:induction false} ClimbSame(dirs': map<nat, Dir>, dirs: map<nat, Dir>, except: nat, d: nat, n: nat)
    requires SameUps(dirs', dirs, except) && Climb(dirs, d, n).Some?
    requires forall k :: 0 <= k < n ==> Climb(dirs, d, k) != Some(except)
    ensures Climb(dirs', d, n) == Climb(dirs, d, n)
    decreases n
  {
    if n > 0 {
      assert Climb(dirs, d, 0) == Some(d);
      forall k | 0 <= k < n - 1 ensures Climb(dirs, dirs[d].up, k) != Some(except) {
        assert Climb(dirs, d, k + 1) == Climb(dirs, dirs[d].up, k);
      }
      ClimbSame(dirs', dirs, except, dirs[d].up, n - 1);
    }
  }

  /** A directory moved under one that is not below it leaves everybody a way to the root. */
  lemma {:induction false} MovedReaches(dirs': map<nat, Dir>, dirs: map<nat, Dir>, source: nat, target: nat, d: nat, n: nat)
    requires SameUps(dirs', dirs, source) && source in dirs' && dirs'[source].up == target && source != ROOT
    requires ReachesRoot(dirs, target) && !IsAbove(dirs, source, target)
    requires Climb(dirs, d, n) == Some(ROOT)
    ensures ReachesRoot(dirs', d)
    decreases n
  {
    if d == ROOT {
      assert Climb(dirs', d, 0) == Some(ROOT);
    } else if d == source {
      var m: nat :| Climb(dirs, target, m) == Some(ROOT);
      ClimbSame(dirs', dirs, source, target, m);
      assert Climb(dirs', d, m + 1) == Some(ROOT);
    } else {
      MovedReaches(dirs', dirs, source, target, dirs[d].up, n - 1);
      var m: nat :| Climb(dirs', dirs[d].up, m) == Some(ROOT);
      assert Climb(dirs', d, m + 1) == Some(ROOT);
    }
  }

  // ---- the invariant ----

  predicate HasChild(dirs: map<nat, Dir>, p: nat, a: string, c: nat) {
    p in dirs && a in dirs[p].children && dirs[p].children[a] == c
  }

  /** An entry of a linked directory leads to a linked one whose ".." leads back, any other entry to one that is not linked. */
  ghost predicate EntriesOk(s: State) {
    forall p, a, c :: HasChild(s.dirs, p, a, c) ==>
      (Linked(s, p) <==> Linked(s, c)) && (Linked(s, c) ==> c != ROOT && s.dirs[c].up == p)
  }

  /** Every entry, below the root or not, leads to a directory that exists, and none to an orphan. */
  ghost predicate TargetsOk(s: State) {
    && s.tree <= s.dirs.Keys && s.orphans <= s.dirs.Keys
    && forall p, a, c :: HasChild(s.dirs, p, a, c) ==> c in s.dirs && c !in s.orphans
  }

  ghost predicate OneName(s: State) {
    forall p, a, b, c :: Linked(s, p) && HasChild(s.dirs, p, a, c) && HasChild(s.dirs, p, b, c) ==> a == b
  }

  ghost predicate HasEntry(dirs: map<nat, Dir>, p: nat, c: nat) {
    exists a :: HasChild(dirs, p, a, c)
  }

  ghost predicate UpsOk(s: State) {
    forall d :: Linked(s, d) && d != ROOT ==> HasEntry(s.dirs, s.dirs[d].up, d)
  }

  ghost predicate AllReach(s: State) {
    forall d :: Linked(s, d) ==> ReachesRoot(s.dirs, d)
  }

  /** One tree: every linked directory has exactly one entry, in the directory its ".." names, and a way to the root. */
  ghost predicate TreeOk(s: State) {
    Linked(s, ROOT) && s.tree !! s.orphans && TargetsOk(s) && EntriesOk(s) && OneName(s) && UpsOk(s) && AllReach(s)
  }

  /** The walk has come from the target to `current` without meeting the source. */
  ghost predicate WalkedTo(dirs: map<nat, Dir>, w: Walk, k: nat) {
    Climb(dirs, w.target, k) == Some(w.current) && forall j :: 0 <= j < k ==> Climb(dirs, w.target, j) != Some(w.source)
  }

  ghost predicate WalkOk(s: State) {
    s.gate.Some? ==>
      Linked(s, s.gate.value.target) && s.gate.value.source != ROOT && exists k: nat :: WalkedTo(s.dirs, s.gate.value, k)
  }

  ghost predicate Inv(s: State) {
    TreeOk(s) && WalkOk(s)
  }

  /** A walk that got to the root without meeting the source proves that the target is not below it. */
  lemma WalkProves(s: State)
    requires WalkOk(s) && s.gate.Some? && s.gate.value.current == ROOT
    ensures !IsAbove(s.dirs, s.gate.value.source, s.gate.value.target)
  {
    var w := s.gate.value;
    var k: nat :| WalkedTo(s.dirs, w, k);
    forall n: nat ensures Climb(s.dirs, w.target, n) != Some(w.source) {
      if n > k {
        ClimbEnds(s.dirs, w.target, k, n);
      }
    }
  }

  lemma WalkStepKeeps(s: State)
    requires Inv(s) && Enabled(s, WalkStep)
    ensures Inv(Next(s, WalkStep))
  {
    hide TreeOk;
    var w, s' := s.gate.value, Next(s, WalkStep);
    var k: nat :| WalkedTo(s.dirs, w, k);
    ClimbOn(s.dirs, w.target, k);
    assert WalkedTo(s'.dirs, s'.gate.value, k + 1);
    assert TreeOk(s') by { OnlyGate(s, s'); }
  }

  lemma OnlyGate(s: State, s': State)
    requires TreeOk(s) && s' == s.(gate := s'.gate)
    ensures TreeOk(s')
  {
  }

  lemma StartKeeps(s: State, source: nat, target: nat)
    requires Inv(s) && Enabled(s, StartRename(source, target))
    ensures Inv(Next(s, StartRename(source, target)))
  {
    hide TreeOk;
    var s' := Next(s, StartRename(source, target));
    assert WalkedTo(s'.dirs, s'.gate.value, 0);
    assert TreeOk(s') by { OnlyGate(s, s'); }
  }

  // ---- mkdir ----

  lemma MkdirReaches(s: State, p: nat, name: string, inode: nat, d: nat)
    requires Enabled(s, Mkdir(p, name, inode)) && ReachesRoot(s.dirs, d)
    ensures ReachesRoot(Next(s, Mkdir(p, name, inode)).dirs, d)
  {
    var dirs' := Next(s, Mkdir(p, name, inode)).dirs;
    var n: nat :| Climb(s.dirs, d, n) == Some(ROOT);
    MkdirClimb(s, p, name, inode, d, n);
  }

  lemma MkdirClimb(s: State, p: nat, name: string, inode: nat, d: nat, n: nat)
    requires Enabled(s, Mkdir(p, name, inode)) && Climb(s.dirs, d, n).Some?
    ensures Climb(Next(s, Mkdir(p, name, inode)).dirs, d, n) == Climb(s.dirs, d, n)
    decreases n
  {
  }

  lemma MkdirChildren(s: State, p: nat, name: string, inode: nat, x: nat, a: string, c: nat)
    requires Enabled(s, Mkdir(p, name, inode))
    ensures HasChild(Next(s, Mkdir(p, name, inode)).dirs, x, a, c) <==> (x == p && a == name && c == inode) || HasChild(s.dirs, x, a, c)
  {
  }

  lemma MkdirDirs(s: State, p: nat, name: string, inode: nat, d: nat)
    requires TreeOk(s) && Enabled(s, Mkdir(p, name, inode))
    ensures var s' := Next(s, Mkdir(p, name, inode));
            && (Linked(s', d) <==> (d == inode && Linked(s, p)) || Linked(s, d)) && s'.orphans == s.orphans && inode !in s.orphans
            && (d in s.dirs ==> d != inode && s'.dirs[d].up == s.dirs[d].up) && s'.dirs[inode].up == p && inode != ROOT
            && (forall x, a :: !HasChild(s.dirs, x, a, inode))
  {
    hide AllReach, UpsOk, OneName, EntriesOk;
  }

  lemma MkdirTargets(s: State, p: nat, name: string, inode: nat)
    requires TreeOk(s) && Enabled(s, Mkdir(p, name, inode))
    ensures TargetsOk(Next(s, Mkdir(p, name, inode)))
  {
    hide AllReach, UpsOk, OneName, EntriesOk;
    var s' := Next(s, Mkdir(p, name, inode));
    forall x, a, c | HasChild(s'.dirs, x, a, c) ensures c in s'.dirs && c !in s'.orphans {
      MkdirChildren(s, p, name, inode, x, a, c);
    }
  }

  lemma MkdirEntries(s: State, p: nat, name: string, inode: nat)
    requires TreeOk(s) && Enabled(s, Mkdir(p, name, inode))
    ensures var s' := Next(s, Mkdir(p, name, inode)); Linked(s', ROOT) && EntriesOk(s') && OneName(s') && UpsOk(s')
  {
    hide AllReach, Next, Enabled;
    var s' := Next(s, Mkdir(p, name, inode));
    MkdirDirs(s, p, name, inode, ROOT);
    forall x, a, c | HasChild(s'.dirs, x, a, c)
      ensures (x == p && a == name && c == inode) || HasChild(s.dirs, x, a, c)
      ensures (Linked(s', x) <==> Linked(s', c)) && (Linked(s', c) ==> c != ROOT && s'.dirs[c].up == x)
    {
      MkdirChildren(s, p, name, inode, x, a, c);
      MkdirDirs(s, p, name, inode, x);
      MkdirDirs(s, p, name, inode, c);
    }
    forall x, a, b, c | Linked(s', x) && HasChild(s'.dirs, x, a, c) && HasChild(s'.dirs, x, b, c) ensures a == b {
      MkdirChildren(s, p, name, inode, x, a, c);
      MkdirChildren(s, p, name, inode, x, b, c);
      MkdirDirs(s, p, name, inode, x);
    }
    forall d | Linked(s', d) && d != ROOT ensures HasEntry(s'.dirs, s'.dirs[d].up, d) {
      MkdirDirs(s, p, name, inode, d);
      if d == inode {
        MkdirChildren(s, p, name, inode, p, name, inode);
      } else {
        var a :| HasChild(s.dirs, s.dirs[d].up, a, d);
        MkdirChildren(s, p, name, inode, s.dirs[d].up, a, d);
      }
    }
  }

  lemma MkdirKeeps(s: State, p: nat, name: string, inode: nat)
    requires Inv(s) && Enabled(s, Mkdir(p, name, inode))
    ensures Inv(Next(s, Mkdir(p, name, inode)))
  {
    hide EntriesOk, OneName, UpsOk, ReachesRoot;
    var s' := Next(s, Mkdir(p, name, inode));
    MkdirEntries(s, p, name, inode);
    MkdirTargets(s, p, name, inode);
    forall d | Linked(s', d) ensures ReachesRoot(s'.dirs, d) {
      MkdirReaches(s, p, name, inode, if d == inode then p else d);
      if d == inode {
        OneStepReaches(s'.dirs, inode);
      }
    }
    if s.gate.Some? {
      var k: nat :| WalkedTo(s.dirs, s.gate.value, k);
      forall j | 0 <= j <= k ensures Climb(s'.dirs, s.gate.value.target, j) == Climb(s.dirs, s.gate.value.target, j) {
        ClimbPrefix(s.dirs, s.gate.value.target, j, k);
        MkdirClimb(s, p, name, inode, s.gate.value.target, j);
      }
      assert WalkedTo(s'.dirs, s'.gate.value, k);
    }
  }

  lemma OneStepReaches(dirs: map<nat, Dir>, d: nat)
    requires d in dirs && d != ROOT && ReachesRoot(dirs, dirs[d].up)
    ensures ReachesRoot(dirs, d)
  {
    var n: nat :| Climb(dirs, dirs[d].up, n) == Some(ROOT);
    assert Climb(dirs, d, n + 1) == Some(ROOT);
  }

  lemma {:induction false} ClimbPrefix(dirs: map<nat, Dir>, d: nat, j: nat, k: nat)
    requires j <= k && Climb(dirs, d, k).Some?
    ensures Climb(dirs, d, j).Some?
    decreases j
  {
    if j > 0 {
      ClimbPrefix(dirs, dirs[d].up, j - 1, k - 1);
    }
  }

  /** In every state: a new directory hangs below the root if and only if its parent does. */
  lemma MkdirLinksExactlyUnderLinked(s: State, p: nat, name: string, inode: nat)
    requires Inv(s) && Enabled(s, Mkdir(p, name, inode))
    ensures Linked(Next(s, Mkdir(p, name, inode)), inode) <==> Linked(s, p)
  {
    MkdirDirs(s, p, name, inode, inode);
  }

  /** No directory is lost: each hangs below the root or is an orphan that its last close will free. */
  ghost predicate Whole(s: State) {
    forall d :: d in s.dirs ==> Linked(s, d) || d in s.orphans
  }

  /** While no directory is lost, the parents that are not linked are the orphans: a directory made in one that was removed
      while open hangs in the air, nothing below the root names it. */
  lemma MkdirKeepsWholeExactlyWhenLinked(s: State, p: nat, name: string, inode: nat)
    requires Inv(s) && Whole(s) && Enabled(s, Mkdir(p, name, inode))
    ensures Linked(Next(s, Mkdir(p, name, inode)), inode) <==> p !in s.orphans
    ensures Whole(Next(s, Mkdir(p, name, inode))) <==> p !in s.orphans
  {
    hide EntriesOk, OneName, UpsOk, AllReach, Next;
    var s' := Next(s, Mkdir(p, name, inode));
    assert Linked(s, p) <==> p !in s.orphans;
    MkdirOnly(s, p, name, inode);
    forall d | d in s.dirs || d == inode ensures (Linked(s', d) <==> (d == inode && Linked(s, p)) || Linked(s, d)) && d in s'.dirs {
      MkdirDirs(s, p, name, inode, d);
    }
  }

  lemma MkdirOnly(s: State, p: nat, name: string, inode: nat)
    requires TreeOk(s) && Enabled(s, Mkdir(p, name, inode))
    ensures Next(s, Mkdir(p, name, inode)).dirs.Keys == s.dirs.Keys + {inode} && Next(s, Mkdir(p, name, inode)).orphans == s.orphans
    ensures inode !in s.orphans
  {
  }

  // ---- taking an empty directory out ----

  lemma ClearedChildren(s: State, q: nat, name: string, open: bool, x: nat, a: string, c: nat)
    requires TreeOk(s) && Linked(s, q) && name in s.dirs[q].children && Removable(s, s.dirs[q].children[name])
    ensures HasChild(Cleared(s, q, name, open).dirs, x, a, c) <==> HasChild(s.dirs, x, a, c) && !(x == q && a == name)
  {
  }

  lemma ClearedDirs(s: State, q: nat, name: string, open: bool, d: nat)
    requires TreeOk(s) && Linked(s, q) && name in s.dirs[q].children && Removable(s, s.dirs[q].children[name])
    ensures var s', gone := Cleared(s, q, name, open), s.dirs[q].children[name];
            && (Linked(s', d) <==> Linked(s, d) && d != gone) && s'.tree !! s'.orphans
            && (d != gone && d in s.dirs ==> d in s'.dirs && s'.dirs[d].up == s.dirs[d].up)
  {
  }

  /** Nobody's way to the root leads through an empty directory. */
  lemma {:induction false} ClearedClimb(s: State, q: nat, name: string, open: bool, d: nat, n: nat)
    requires TreeOk(s) && Linked(s, q) && name in s.dirs[q].children && Removable(s, s.dirs[q].children[name])
    requires Linked(s, d) && d != s.dirs[q].children[name] && Climb(s.dirs, d, n) == Some(ROOT)
    ensures Climb(Cleared(s, q, name, open).dirs, d, n) == Some(ROOT)
    decreases n
  {
    hide AllReach, OneName, Cleared;
    ClearedDirs(s, q, name, open, d);
    if n > 0 {
      var gone, up := s.dirs[q].children[name], s.dirs[d].up;
      assert HasEntry(s.dirs, up, d);
      var a :| HasChild(s.dirs, up, a, d);
      assert Linked(s, up) && up != gone;
      ClearedClimb(s, q, name, open, up, n - 1);
    }
  }

  lemma ClearedEntries(s: State, q: nat, name: string, open: bool)
    requires TreeOk(s) && Linked(s, q) && name in s.dirs[q].children && Removable(s, s.dirs[q].children[name])
    ensures var s' := Cleared(s, q, name, open); Linked(s', ROOT) && EntriesOk(s') && OneName(s')
  {
    hide AllReach, UpsOk, Cleared;
    var s', gone := Cleared(s, q, name, open), s.dirs[q].children[name];
    assert HasChild(s.dirs, q, name, gone);
    ClearedDirs(s, q, name, open, ROOT);
    forall p, a, c | HasChild(s'.dirs, p, a, c)
      ensures HasChild(s.dirs, p, a, c)
      ensures (Linked(s', p) <==> Linked(s', c)) && (Linked(s', c) ==> c != ROOT && s'.dirs[c].up == p)
    {
      ClearedChildren(s, q, name, open, p, a, c);
      ClearedDirs(s, q, name, open, p);
      ClearedDirs(s, q, name, open, c);
      assert p != gone;
    }
    forall p, a, b, c | Linked(s', p) && HasChild(s'.dirs, p, a, c) && HasChild(s'.dirs, p, b, c) ensures a == b {
      ClearedChildren(s, q, name, open, p, a, c);
      ClearedChildren(s, q, name, open, p, b, c);
      ClearedDirs(s, q, name, open, p);
    }
  }

  /** The directory taken out had no other name. */
  lemma ClearedTargets(s: State, q: nat, name: string, open: bool)
    requires TreeOk(s) && Linked(s, q) && name in s.dirs[q].children && Removable(s, s.dirs[q].children[name])
    ensures TargetsOk(Cleared(s, q, name, open))
  {
    hide AllReach, UpsOk;
    var s', gone := Cleared(s, q, name, open), s.dirs[q].children[name];
    assert HasChild(s.dirs, q, name, gone);
    forall p, a, c | HasChild(s'.dirs, p, a, c) ensures c in s'.dirs && c !in s'.orphans {
      ClearedChildren(s, q, name, open, p, a, c);
      assert c != gone;
    }
  }

  lemma ClearedKeepsTree(s: State, q: nat, name: string, open: bool)
    requires TreeOk(s) && Linked(s, q) && name in s.dirs[q].children && Removable(s, s.dirs[q].children[name])
    ensures TreeOk(Cleared(s, q, name, open))
  {
    hide EntriesOk, OneName, TargetsOk, Cleared, Removable, ReachesRoot, HasChild;
    var s' := Cleared(s, q, name, open);
    ClearedEntries(s, q, name, open);
    ClearedTargets(s, q, name, open);
    ClearedDirs(s, q, name, open, ROOT);
    forall d | Linked(s', d) ensures ReachesRoot(s'.dirs, d) && (d != ROOT ==> HasEntry(s'.dirs, s'.dirs[d].up, d)) {
      ClearedDirs(s, q, name, open, d);
      ClearedDir(s, q, name, open, d);
    }
  }

  lemma ClearedDir(s: State, q: nat, name: string, open: bool, d: nat)
    requires TreeOk(s) && Linked(s, q) && name in s.dirs[q].children && Removable(s, s.dirs[q].children[name])
    requires Linked(s, d) && d != s.dirs[q].children[name] && d in Cleared(s, q, name, open).dirs
    ensures var s' := Cleared(s, q, name, open); ReachesRoot(s'.dirs, d) && (d != ROOT ==> HasEntry(s'.dirs, s'.dirs[d].up, d))
  {
    hide Cleared, EntriesOk, OneName;
    var s' := Cleared(s, q, name, open);
    ClearedDirs(s, q, name, open, d);
    var n: nat :| Climb(s.dirs, d, n) == Some(ROOT);
    ClearedClimb(s, q, name, open, d, n);
    if d != ROOT {
      var a :| HasChild(s.dirs, s.dirs[d].up, a, d);
      ClearedChildren(s, q, name, open, s.dirs[d].up, a, d);
    }
  }

  // ---- moving a directory ----

  /** What `Moved` needs: a linked directory at its old name, a free new name, and a target that is not below it. */
  ghost predicate MoveOk(s: State, p: nat, name: string, q: nat, newName: string, d: nat) {
    && HasChild(s.dirs, p, name, d) && Linked(s, p) && d in s.dirs && Linked(s, q)
    && newName !in s.dirs[q].children
    && (p == q || !IsAbove(s.dirs, d, q))
  }

  lemma MovedChildren(s: State, p: nat, name: string, q: nat, newName: string, d: nat, x: nat, a: string, c: nat)
    requires MoveOk(s, p, name, q, newName, d)
    ensures HasChild(Moved(s, p, name, q, newName).dirs, x, a, c) <==>
            (x == q && a == newName && c == d) || (HasChild(s.dirs, x, a, c) && !(x == p && a == name))
  {
  }

  lemma MovedDirs(s: State, p: nat, name: string, q: nat, newName: string, d: nat, x: nat)
    requires MoveOk(s, p, name, q, newName, d)
    ensures var s' := Moved(s, p, name, q, newName);
            && s'.dirs.Keys == s.dirs.Keys && s'.tree == s.tree && s'.orphans == s.orphans && s'.gate == s.gate
            && (x in s.dirs ==> s'.dirs[x].up == if x == d then q else s.dirs[x].up)
  {
  }

  lemma MovedEntries(s: State, p: nat, name: string, q: nat, newName: string, d: nat)
    requires TreeOk(s) && MoveOk(s, p, name, q, newName, d)
    ensures var s' := Moved(s, p, name, q, newName); Linked(s', ROOT) && EntriesOk(s') && OneName(s')
  {
    hide AllReach, UpsOk, Moved, IsAbove;
    var s' := Moved(s, p, name, q, newName);
    MovedDirs(s, p, name, q, newName, d, ROOT);
    forall x, a, c | HasChild(s'.dirs, x, a, c)
      ensures (Linked(s', x) <==> Linked(s', c)) && (Linked(s', c) ==> c != ROOT && s'.dirs[c].up == x)
    {
      MovedChildren(s, p, name, q, newName, d, x, a, c);
      MovedDirs(s, p, name, q, newName, d, c);
      assert HasChild(s.dirs, x, a, c) && c == d ==> x == p && a == name;
    }
    forall x, a, b, c | Linked(s', x) && HasChild(s'.dirs, x, a, c) && HasChild(s'.dirs, x, b, c) ensures a == b {
      MovedChildren(s, p, name, q, newName, d, x, a, c);
      MovedChildren(s, p, name, q, newName, d, x, b, c);
    }
  }

  lemma MovedTargets(s: State, p: nat, name: string, q: nat, newName: string, d: nat)
    requires TreeOk(s) && MoveOk(s, p, name, q, newName, d)
    ensures TargetsOk(Moved(s, p, name, q, newName))
  {
    hide AllReach, UpsOk, OneName, EntriesOk, Moved, IsAbove;
    var s' := Moved(s, p, name, q, newName);
    MovedDirs(s, p, name, q, newName, d, ROOT);
    forall x, a, c | HasChild(s'.dirs, x, a, c) ensures c in s'.dirs && c !in s'.orphans {
      MovedChildren(s, p, name, q, newName, d, x, a, c);
    }
  }

  lemma MovedUps(s: State, p: nat, name: string, q: nat, newName: string, d: nat, x: nat)
    requires TreeOk(s) && MoveOk(s, p, name, q, newName, d) && Linked(s, x) && x != ROOT && x in Moved(s, p, name, q, newName).dirs
    ensures var s' := Moved(s, p, name, q, newName); HasEntry(s'.dirs, s'.dirs[x].up, x)
  {
    hide AllReach, OneName, Moved, IsAbove;
    var s' := Moved(s, p, name, q, newName);
    MovedDirs(s, p, name, q, newName, d, x);
    if x == d {
      MovedChildren(s, p, name, q, newName, d, q, newName, d);
    } else {
      var a :| HasChild(s.dirs, s.dirs[x].up, a, x);
      MovedChildren(s, p, name, q, newName, d, s.dirs[x].up, a, x);
      assert HasChild(s'.dirs, s.dirs[x].up, a, x);
    }
  }

  lemma MovedReach(s: State, p: nat, name: string, q: nat, newName: string, d: nat, x: nat)
    requires TreeOk(s) && MoveOk(s, p, name, q, newName, d) && Linked(s, x)
    ensures ReachesRoot(Moved(s, p, name, q, newName).dirs, x)
  {
    hide UpsOk, OneName, Moved;
    var dirs' := Moved(s, p, name, q, newName).dirs;
    forall y | y in s.dirs ensures y in dirs' && dirs'[y].up == if y == d then q else s.dirs[y].up {
      MovedDirs(s, p, name, q, newName, d, y);
    }
    var n: nat :| Climb(s.dirs, x, n) == Some(ROOT);
    if p == q {
      SameUpsReach(dirs', s.dirs, x, n);
    } else {
      MovedReaches(dirs', s.dirs, d, q, x, n);
    }
  }

  lemma {:induction false} SameUpsReach(dirs': map<nat, Dir>, dirs: map<nat, Dir>, d: nat, n: nat)
    requires forall x :: x in dirs ==> x in dirs' && dirs'[x].up == dirs[x].up
    requires Climb(dirs, d, n) == Some(ROOT)
    ensures Climb(dirs', d, n) == Some(ROOT)
    decreases n
  {
    if n > 0 {
      SameUpsReach(dirs', dirs, dirs[d].up, n - 1);
    }
  }

  lemma MovedKeepsTree(s: State, p: nat, name: string, q: nat, newName: string, d: nat)
    requires TreeOk(s) && MoveOk(s, p, name, q, newName, d)
    ensures TreeOk(Moved(s, p, name, q, newName))
  {
    hide EntriesOk, OneName, TargetsOk, Moved, MoveOk, ReachesRoot, HasEntry;
    MovedEntries(s, p, name, q, newName, d);
    MovedTargets(s, p, name, q, newName, d);
    MovedDirs(s, p, name, q, newName, d, ROOT);
    var s' := Moved(s, p, name, q, newName);
    forall x | Linked(s', x) ensures ReachesRoot(s'.dirs, x) && (x != ROOT ==> HasEntry(s'.dirs, s'.dirs[x].up, x)) {
      MovedDirs(s, p, name, q, newName, d, x);
      MovedReach(s, p, name, q, newName, d, x);
      if x != ROOT {
        MovedUps(s, p, name, q, newName, d, x);
      }
    }
  }

  // ---- the events that need the gate ----

  lemma RmdirKeeps(s: State, p: nat, name: string, open: bool)
    requires Inv(s) && Enabled(s, Rmdir(p, name, open))
    ensures Inv(Next(s, Rmdir(p, name, open)))
  {
    hide TreeOk;
    ClearedKeepsTree(s, p, name, open);
  }

  /** After the old entry is out of the way the move is still what it was. */
  lemma ClearedMoveOk(s: State, p: nat, name: string, q: nat, newName: string, open: bool, d: nat)
    requires TreeOk(s) && HasChild(s.dirs, p, name, d) && Linked(s, p) && d in s.dirs && Linked(s, q) && Replaceable(s, q, newName, d)
    requires p != q || name != newName
    requires p == q || !IsAbove(s.dirs, d, q)
    ensures TreeOk(Cleared(s, q, newName, open)) && MoveOk(Cleared(s, q, newName, open), p, name, q, newName, d)
  {
    var s' := Cleared(s, q, newName, open);
    if newName in s.dirs[q].children {
      var gone := s.dirs[q].children[newName];
      hide Cleared, AllReach, UpsOk, OneName, MoveOk, IsAbove;
      assert HasChild(s.dirs, q, newName, gone);
      ClearedKeepsTree(s, q, newName, open);
      ClearedMove(s, p, name, q, newName, open, d);
    }
  }

  lemma ClearedMove(s: State, p: nat, name: string, q: nat, newName: string, open: bool, d: nat)
    requires TreeOk(s) && HasChild(s.dirs, p, name, d) && Linked(s, p) && d in s.dirs && Linked(s, q) && newName in s.dirs[q].children
    requires Removable(s, s.dirs[q].children[newName]) && s.dirs[q].children[newName] != d && (p != q || name != newName)
    requires p == q || !IsAbove(s.dirs, d, q)
    ensures MoveOk(Cleared(s, q, newName, open), p, name, q, newName, d)
  {
    hide Cleared, AllReach, OneName;
    var s', gone := Cleared(s, q, newName, open), s.dirs[q].children[newName];
    assert HasChild(s.dirs, q, newName, gone);
    ClearedChildren(s, q, newName, open, p, name, d);
    ClearedDirs(s, q, newName, open, d);
    ClearedDirs(s, q, newName, open, q);
    ClearedDirs(s, q, newName, open, p);
    assert q != gone by { assert HasChild(s.dirs, q, newName, gone) && s.dirs[gone].children == map[]; }
    forall c ensures !HasChild(s'.dirs, q, newName, c) {
      ClearedChildren(s, q, newName, open, q, newName, c);
    }
    assert newName in s'.dirs[q].children ==> HasChild(s'.dirs, q, newName, s'.dirs[q].children[newName]);
    if p != q {
      forall n: nat ensures Climb(s'.dirs, q, n) != Some(d) {
        FewerDirsClimb(s, q, newName, open, q, n);
      }
    }
  }

  /** Where one climbs after a directory was taken out, one climbed before. */
  lemma {:induction false} FewerDirsClimb(s: State, q: nat, name: string, open: bool, x: nat, n: nat)
    requires TreeOk(s) && Linked(s, q) && name in s.dirs[q].children && Removable(s, s.dirs[q].children[name])
    ensures var dirs' := Cleared(s, q, name, open).dirs; Climb(dirs', x, n).Some? ==> Climb(s.dirs, x, n) == Climb(dirs', x, n)
    decreases n
  {
    var dirs' := Cleared(s, q, name, open).dirs;
    if n > 0 && x in dirs' && x != ROOT {
      assert dirs'[x].up == s.dirs[x].up;
      FewerDirsClimb(s, q, name, open, dirs'[x].up, n - 1);
    }
  }

  lemma CommitKeeps(s: State, p: nat, name: string, q: nat, newName: string, open: bool)
    requires Inv(s) && Enabled(s, CommitRename(p, name, q, newName, open))
    ensures Inv(Next(s, CommitRename(p, name, q, newName, open)))
  {
    hide TreeOk, Cleared, Moved, MoveOk, IsAbove, Replaceable;
    var d := s.gate.value.source;
    WalkProves(s);
    assert HasChild(s.dirs, p, name, d);
    ClearedMoveOk(s, p, name, q, newName, open, d);
    MovedKeepsTree(Cleared(s, q, newName, open), p, name, q, newName, d);
    OnlyGate(Moved(Cleared(s, q, newName, open), p, name, q, newName), Next(s, CommitRename(p, name, q, newName, open)));
  }

  lemma WithinKeeps(s: State, p: nat, name: string, newName: string, open: bool)
    requires Inv(s) && Enabled(s, RenameWithin(p, name, newName, open))
    ensures Inv(Next(s, RenameWithin(p, name, newName, open)))
  {
    var d := s.dirs[p].children[name];
    assert HasChild(s.dirs, p, name, d) && Linked(s, p);
    hide TreeOk, MoveOk, IsAbove, Replaceable;
    ClearedMoveOk(s, p, name, p, newName, open, d);
    MovedKeepsTree(Cleared(s, p, newName, open), p, name, p, newName, d);
  }

  // ---- what the names are afterwards ----

  /** `now` has the entries of `before`, except that `p` has no entry `name` and `q` has the entry `newName` for `d`. */
  ghost predicate EntryMoved(now: map<nat, Dir>, before: map<nat, Dir>, p: nat, name: string, q: nat, newName: string, d: nat) {
    forall x, a, c :: HasChild(now, x, a, c) <==>
      if x == q && a == newName then c == d else HasChild(before, x, a, c) && !(x == p && a == name)
  }

  /** Directory `gone` left the tree: an orphan if it was open, else not there any more; nothing else did. */
  ghost predicate LeftTree(s': State, s: State, gone: set<nat>, open: bool) {
    && s'.tree == s.tree - gone && s'.orphans == (if open then s.orphans + gone else s.orphans)
    && s'.dirs.Keys == if open then s.dirs.Keys else s.dirs.Keys - gone
  }

  ghost function Behind(s: State, q: nat, name: string): set<nat> {
    if q in s.dirs && name in s.dirs[q].children then {s.dirs[q].children[name]} else {}
  }

  lemma ClearedNames(s: State, q: nat, name: string, open: bool)
    requires TreeOk(s) && Linked(s, q) && (name in s.dirs[q].children ==> Removable(s, s.dirs[q].children[name]))
    ensures var s' := Cleared(s, q, name, open);
            && LeftTree(s', s, Behind(s, q, name), open) && s'.gate == s.gate
            && (forall x, a, c :: HasChild(s'.dirs, x, a, c) <==> HasChild(s.dirs, x, a, c) && !(x == q && a == name))
            && forall x :: x in s'.dirs ==> x in s.dirs && s'.dirs[x].up == s.dirs[x].up
  {
    hide AllReach, UpsOk, OneName, EntriesOk;
    if name in s.dirs[q].children {
      forall x, a, c ensures HasChild(Cleared(s, q, name, open).dirs, x, a, c) <==> HasChild(s.dirs, x, a, c) && !(x == q && a == name) {
        ClearedChildren(s, q, name, open, x, a, c);
      }
    }
  }

  lemma RenamedNames(s: State, p: nat, name: string, q: nat, newName: string, open: bool, d: nat)
    requires TreeOk(s) && HasChild(s.dirs, p, name, d) && Linked(s, p) && d in s.dirs && Linked(s, q) && Replaceable(s, q, newName, d)
    requires (p != q || name != newName) && (p == q || !IsAbove(s.dirs, d, q))
    ensures var s' := Moved(Cleared(s, q, newName, open), p, name, q, newName);
            && EntryMoved(s'.dirs, s.dirs, p, name, q, newName, d) && LeftTree(s', s, Behind(s, q, newName), open)
            && d in s'.dirs && s'.dirs[d].up == q && forall x :: x in s'.dirs && x != d ==> s'.dirs[x].up == s.dirs[x].up
  {
    hide TreeOk, Cleared, Moved, IsAbove;
    var s1 := Cleared(s, q, newName, open);
    ClearedMoveOk(s, p, name, q, newName, open, d);
    ClearedNames(s, q, newName, open);
    var s' := Moved(s1, p, name, q, newName);
    forall x, a, c ensures HasChild(s'.dirs, x, a, c) <==>
      if x == q && a == newName then c == d else HasChild(s.dirs, x, a, c) && !(x == p && a == name)
    {
      MovedChildren(s1, p, name, q, newName, d, x, a, c);
    }
    forall x ensures x in s1.dirs ==> x in s'.dirs && s'.dirs[x].up == if x == d then q else s1.dirs[x].up {
      MovedDirs(s1, p, name, q, newName, d, x);
    }
    MovedDirs(s1, p, name, q, newName, d, d);
  }

  /** After a rename between directories the new name leads to the moved directory, whose ".." is the new parent; the old name
      is gone, a replaced directory has left the tree, and every other name leads where it did. */
  lemma CommitRenames(s: State, p: nat, name: string, q: nat, newName: string, open: bool)
    requires Inv(s) && Enabled(s, CommitRename(p, name, q, newName, open))
    ensures var s', d := Next(s, CommitRename(p, name, q, newName, open)), s.dirs[p].children[name];
            && EntryMoved(s'.dirs, s.dirs, p, name, q, newName, d) && LeftTree(s', s, Behind(s, q, newName), open)
            && d in s'.dirs && s'.dirs[d].up == q && s'.gate == None
            && forall x :: x in s'.dirs && x != d ==> s'.dirs[x].up == s.dirs[x].up
  {
    hide TreeOk, Cleared, Moved, IsAbove, Replaceable;
    WalkProves(s);
    RenamedNames(s, p, name, q, newName, open, s.gate.value.source);
  }

  lemma WithinRenames(s: State, p: nat, name: string, newName: string, open: bool)
    requires Inv(s) && Enabled(s, RenameWithin(p, name, newName, open))
    ensures var s', d := Next(s, RenameWithin(p, name, newName, open)), s.dirs[p].children[name];
            && EntryMoved(s'.dirs, s.dirs, p, name, p, newName, d) && LeftTree(s', s, Behind(s, p, newName), open)
            && d in s'.dirs && s'.dirs[d].up == p && forall x :: x in s'.dirs && x != d ==> s'.dirs[x].up == s.dirs[x].up
  {
    hide TreeOk, Cleared, Moved, IsAbove, Replaceable;
    RenamedNames(s, p, name, p, newName, open, s.dirs[p].children[name]);
  }

  /** A rename can be given up at any time: no name changes, and the gate is open for the next one. */
  lemma GivenUpRename(s: State, source: nat, target: nat)
    requires s.gate.Some? && Linked(s, source) && Linked(s, target) && source != ROOT
    ensures Enabled(s, CancelRename)
    ensures var s' := Next(s, CancelRename);
            s'.dirs == s.dirs && s'.tree == s.tree && s'.orphans == s.orphans && Enabled(s', StartRename(source, target))
  {
  }

  /** After an rmdir the name is gone, the directory has left the tree, and every other name leads where it did. */
  lemma RmdirRemoves(s: State, p: nat, name: string, open: bool)
    requires Inv(s) && Enabled(s, Rmdir(p, name, open))
    ensures var s' := Next(s, Rmdir(p, name, open));
            && LeftTree(s', s, {s.dirs[p].children[name]}, open) && s'.gate == s.gate
            && forall x, a, c :: HasChild(s'.dirs, x, a, c) <==> HasChild(s.dirs, x, a, c) && !(x == p && a == name)
  {
    hide TreeOk, Cleared;
    ClearedNames(s, p, name, open);
  }

  /** After a mkdir the name leads to the new empty directory, whose ".." is the parent; every other name leads where it did. */
  lemma MkdirMakes(s: State, p: nat, name: string, inode: nat)
    requires Inv(s) && Enabled(s, Mkdir(p, name, inode))
    ensures var s' := Next(s, Mkdir(p, name, inode));
            && EntryMoved(s'.dirs, s.dirs, p, name, p, name, inode) && s'.dirs[inode] == Dir(map[], p)
            && s'.dirs.Keys == s.dirs.Keys + {inode} && s'.orphans == s.orphans && s'.gate == s.gate
            && forall x :: x in s.dirs ==> s'.dirs[x].up == s.dirs[x].up
  {
    hide AllReach, UpsOk, OneName, EntriesOk;
    forall x, a, c ensures HasChild(Next(s, Mkdir(p, name, inode)).dirs, x, a, c) <==>
      if x == p && a == name then c == inode else HasChild(s.dirs, x, a, c)
    {
      MkdirChildren(s, p, name, inode, x, a, c);
    }
  }

  // ---- runs ----

  lemma LastCloseKeeps(s: State, d: nat)
    requires Inv(s) && Enabled(s, LastClose(d))
    ensures Inv(Next(s, LastClose(d)))
  {
    var s' := Next(s, LastClose(d));
    assert forall x :: Linked(s', x) <==> Linked(s, x);
    assert forall x, a, c :: HasChild(s'.dirs, x, a, c) <==> HasChild(s.dirs, x, a, c) && x != d;
    forall x | Linked(s', x) ensures ReachesRoot(s'.dirs, x) && (x != ROOT ==> HasEntry(s'.dirs, s'.dirs[x].up, x)) {
      var n: nat :| Climb(s.dirs, x, n) == Some(ROOT);
      LinkedClimb(s', s, x, n);
      if x != ROOT {
        var a :| HasChild(s.dirs, s.dirs[x].up, a, x);
        assert HasChild(s'.dirs, s.dirs[x].up, a, x);
      }
    }
    if s.gate.Some? {
      var k: nat :| WalkedTo(s.dirs, s.gate.value, k);
      forall j | 0 <= j <= k ensures Climb(s'.dirs, s.gate.value.target, j) == Climb(s.dirs, s.gate.value.target, j) {
        ClimbPrefix(s.dirs, s.gate.value.target, j, k);
        LinkedClimb(s', s, s.gate.value.target, j);
      }
      assert WalkedTo(s'.dirs, s'.gate.value, k);
    }
  }

  /** From a linked directory one climbs over linked ones only. */
  lemma {:induction false} LinkedClimb(s': State, s: State, d: nat, n: nat)
    requires TreeOk(s) && Linked(s, d) && Climb(s.dirs, d, n).Some?
    requires forall x :: Linked(s, x) ==> x in s'.dirs && s'.dirs[x].up == s.dirs[x].up
    ensures Climb(s'.dirs, d, n) == Climb(s.dirs, d, n)
    decreases n
  {
    if n > 0 {
      var a :| HasChild(s.dirs, s.dirs[d].up, a, d);
      LinkedClimb(s', s, s.dirs[d].up, n - 1);
    }
  }

  ghost predicate CanRun(s: State, events: seq<Event>)
    decreases |events|
  {
    events == [] || (Enabled(s, events[0]) && CanRun(Next(s, events[0]), events[1..]))
  }

  ghost function Run(s: State, events: seq<Event>): State
    requires CanRun(s, events)
    decreases |events|
  {
    if events == [] then s else Run(Next(s, events[0]), events[1..])
  }

  lemma StepKeeps(s: State, e: Event)
    requires Inv(s) && Enabled(s, e)
    ensures Inv(Next(s, e))
  {
    hide TreeOk, WalkOk;
    match e
    case Mkdir(p, name, inode) => MkdirKeeps(s, p, name, inode);
    case Rmdir(p, name, open) => RmdirKeeps(s, p, name, open);
    case StartRename(source, target) => StartKeeps(s, source, target);
    case WalkStep => WalkStepKeeps(s);
    case CancelRename => CancelKeeps(s);
    case CommitRename(p, name, q, newName, open) => CommitKeeps(s, p, name, q, newName, open);
    case RenameWithin(p, name, newName, open) => WithinKeeps(s, p, name, newName, open);
    case LastClose(d) => LastCloseKeeps(s, d);
  }

  lemma CancelKeeps(s: State)
    requires Inv(s) && Enabled(s, CancelRename)
    ensures Inv(Next(s, CancelRename))
  {
  }

  /** Whatever directories are made, removed, renamed and freed at the same time, what hangs below the root is one tree. */
  lemma {:induction false} EveryRunKeepsTheTree(s: State, events: seq<Event>)
    requires Inv(s) && CanRun(s, events)
    ensures Inv(Run(s, events))
    decreases |events|
  {
    hide Inv, Next, Enabled;
    if events != [] {
      StepKeeps(s, events[0]);
      EveryRunKeepsTheTree(Next(s, events[0]), events[1..]);
    }
  }

  // ---- the tree is what can be named from the root ----

  /** Where a path of names leads from directory `d`. */
  function Follow(dirs: map<nat, Dir>, d: nat, path: seq<string>): Option<nat>
    decreases |path|
  {
    if path == [] then Some(d)
    else if d in dirs && path[0] in dirs[d].children then Follow(dirs, dirs[d].children[path[0]], path[1..])
    else None
  }

  lemma {:induction false} FollowOn(dirs: map<nat, Dir>, d: nat, path: seq<string>, name: string)
    requires Follow(dirs, d, path).Some?
    ensures var x := Follow(dirs, d, path).value;
            Follow(dirs, d, path + [name]) == if x in dirs && name in dirs[x].children then Some(dirs[x].children[name]) else None
    decreases |path|
  {
    if path != [] {
      assert (path + [name])[1..] == path[1..] + [name];
      FollowOn(dirs, dirs[d].children[path[0]], path[1..], name);
    }
  }

  lemma {:induction false} PathStaysLinked(s: State, d: nat, path: seq<string>)
    requires TreeOk(s) && Linked(s, d) && Follow(s.dirs, d, path).Some?
    ensures Linked(s, Follow(s.dirs, d, path).value)
    decreases |path|
  {
    if path != [] {
      assert HasChild(s.dirs, d, path[0], s.dirs[d].children[path[0]]);
      PathStaysLinked(s, s.dirs[d].children[path[0]], path[1..]);
    }
  }

  lemma {:induction false} PathTo(s: State, d: nat, n: nat) returns (path: seq<string>)
    requires TreeOk(s) && Linked(s, d) && Climb(s.dirs, d, n) == Some(ROOT)
    ensures Follow(s.dirs, ROOT, path) == Some(d)
    decreases n
  {
    if d == ROOT {
      path := [];
    } else {
      var up := s.dirs[d].up;
      var a :| HasChild(s.dirs, up, a, d);
      path := PathTo(s, up, n - 1);
      FollowOn(s.dirs, ROOT, path, a);
      path := path + [a];
    }
  }

  /** The linked directories are exactly those that some path leads to from the root. */
  lemma LinkedMeansNamed(s: State, d: nat)
    requires TreeOk(s)
    ensures Linked(s, d) <==> exists path :: Follow(s.dirs, ROOT, path) == Some(d)
  {
    if Linked(s, d) {
      var n: nat :| Climb(s.dirs, d, n) == Some(ROOT);
      var path := PathTo(s, d, n);
    } else {
      forall path ensures Follow(s.dirs, ROOT, path) != Some(d) {
        if Follow(s.dirs, ROOT, path) == Some(d) {
          PathStaysLinked(s, ROOT, path);
        }
      }
    }
  }

  /** In every state: some path of names leads to a new directory if and only if one leads to its parent. */
  lemma NewIsNamedExactlyUnderNamed(s: State, p: nat, name: string, inode: nat)
    requires Inv(s) && Enabled(s, Mkdir(p, name, inode))
    ensures var s' := Next(s, Mkdir(p, name, inode));
            (exists path :: Follow(s'.dirs, ROOT, path) == Some(inode)) <==> exists path :: Follow(s.dirs, ROOT, path) == Some(p)
  {
    hide TreeOk, WalkOk, Next, Enabled, Linked;
    MkdirLinksExactlyUnderLinked(s, p, name, inode);
    MkdirKeeps(s, p, name, inode);
    LinkedMeansNamed(s, p);
    LinkedMeansNamed(Next(s, Mkdir(p, name, inode)), inode);
  }

  // ---- when directories are lost ----

  ghost predicate Lost(s: State, d: nat) {
    d in s.dirs && !Linked(s, d) && d !in s.orphans
  }

  /** Nothing takes a lost directory away again. */
  lemma LostStays(s: State, e: Event, d: nat)
    requires Inv(s) && Enabled(s, e) && Lost(s, d)
    ensures Lost(Next(s, e), d)
  {
    hide AllReach, UpsOk, OneName, WalkOk;
    match e
    case Rmdir(p, name, open) => assert HasChild(s.dirs, p, name, s.dirs[p].children[name]);
    case CommitRename(p, name, q, newName, open) =>
      assert newName in s.dirs[q].children ==> HasChild(s.dirs, q, newName, s.dirs[q].children[newName]);
    case RenameWithin(p, name, newName, open) =>
      assert newName in s.dirs[p].children ==> HasChild(s.dirs, p, newName, s.dirs[p].children[newName]);
    case _ =>
  }

  /** Directories are lost by a mkdir in an orphan and by nothing else. */
  lemma StepKeepsWholeExactly(s: State, e: Event)
    requires Inv(s) && Whole(s) && Enabled(s, e)
    ensures Whole(Next(s, e)) <==> !(e.Mkdir? && e.p in s.orphans)
  {
    hide AllReach, UpsOk, OneName, WalkOk;
    if e.Mkdir? {
      MkdirKeepsWholeExactlyWhenLinked(s, e.p, e.name, e.inode);
    }
  }

  /** Some mkdir of the run has a parent that is an orphan at that moment. */
  ghost predicate MakesInOrphan(s: State, events: seq<Event>)
    requires CanRun(s, events)
    decreases |events|
  {
    events != [] && ((events[0].Mkdir? && events[0].p in s.orphans) || MakesInOrphan(Next(s, events[0]), events[1..]))
  }

  lemma {:induction false} LostForGood(s: State, events: seq<Event>, d: nat)
    requires Inv(s) && Lost(s, d) && CanRun(s, events)
    ensures Lost(Run(s, events), d)
    decreases |events|
  {
    hide Inv, Lost, Next, Enabled;
    if events != [] {
      StepKeeps(s, events[0]);
      LostStays(s, events[0], d);
      LostForGood(Next(s, events[0]), events[1..], d);
    }
  }

  /** A run loses a directory if and only if some mkdir of it was done in an orphan. */
  lemma {:induction false} RunLosesExactlyByMkdirInOrphan(s: State, events: seq<Event>)
    requires Inv(s) && Whole(s) && CanRun(s, events)
    ensures Whole(Run(s, events)) <==> !MakesInOrphan(s, events)
    decreases |events|
  {
    if events != [] {
      var s' := Next(s, events[0]);
      hide Inv, Next, Enabled, Linked;
      StepKeeps(s, events[0]);
      StepKeepsWholeExactly(s, events[0]);
      if Whole(s') {
        RunLosesExactlyByMkdirInOrphan(s', events[1..]);
      } else {
        var d :| d in s'.dirs && !Linked(s', d) && d !in s'.orphans;
        LostForGood(s', events[1..], d);
      }
    }
  }

  // ---- a directory nobody can name ----

  function OneDirectory(): State {
    State(map[ROOT := Dir(map["a" := 1], ROOT), 1 := Dir(map[], ROOT)], {ROOT, 1}, {}, None)
  }

  /** Removed while open, then used for a new directory: nothing below the root names the new one, nor one made in that, and
      when the last handle on its parent is closed there is no way to it at all, though it still exists. */
  lemma HangingDirectory()
    ensures Inv(OneDirectory()) && Whole(OneDirectory()) && Enabled(OneDirectory(), Rmdir(ROOT, "a", true))
    ensures var s1 := Next(OneDirectory(), Rmdir(ROOT, "a", true));
            && Inv(s1) && Whole(s1) && Enabled(s1, Mkdir(1, "b", 2))
            && var s2 := Next(s1, Mkdir(1, "b", 2));
               && !Linked(s2, 2) && !Whole(s2) && Enabled(s2, LastClose(1))
               && Enabled(s2, Mkdir(2, "c", 3)) && 2 !in s2.orphans && !Linked(Next(s2, Mkdir(2, "c", 3)), 3)
               && var s3 := Next(s2, LastClose(1)); 2 in s3.dirs && 2 !in s3.orphans && s3.dirs[2].up !in s3.dirs
  {
    var s0 := OneDirectory();
    OneDirectoryOk();
    assert Removable(s0, 1);
    RmdirKeeps(s0, ROOT, "a", true);
    var s1 := Next(s0, Rmdir(ROOT, "a", true));
    assert s1.dirs == map[ROOT := Dir(map[], ROOT), 1 := Dir(map[], ROOT)];
    MkdirKeepsWholeExactlyWhenLinked(s1, 1, "b", 2);
    MkdirKeeps(s1, 1, "b", 2);
    MkdirLinksExactlyUnderLinked(Next(s1, Mkdir(1, "b", 2)), 2, "c", 3);
  }

  lemma OneDirectoryOk()
    ensures Inv(OneDirectory())
  {
    var s0 := OneDirectory();
    assert Climb(s0.dirs, 1, 1) == Climb(s0.dirs, ROOT, 0) == Some(ROOT);
    assert HasChild(s0.dirs, ROOT, "a", 1);
  }

  // ---- the ancestor test itself ----

  /** A climb that comes back to where it was never gets to the root. */
  lemma {:induction false} LoopNeverReaches(dirs: map<nat, Dir>, d: nat, period: nat, n: nat)
    requires period > 0 && Climb(dirs, d, period) == Some(d) && d != ROOT
    ensures Climb(dirs, d, n) != Some(ROOT)
    decreases n
  {
    if Climb(dirs, d, n) == Some(ROOT) {
      if n < period {
        ClimbEnds(dirs, d, n, period);
      } else {
        ClimbFurther(dirs, d, period, n - period);
        LoopNeverReaches(dirs, d, period, n - period);
      }
    }
  }

  lemma {:induction false} ClimbFurther(dirs: map<nat, Dir>, d: nat, j: nat, k: nat)
    requires Climb(dirs, d, j).Some?
    ensures Climb(dirs, d, j + k) == Climb(dirs, Climb(dirs, d, j).value, k)
    decreases j
  {
    if j > 0 {
      ClimbFurther(dirs, dirs[d].up, j - 1, k);
    }
  }

  lemma RevisitNeverReaches(dirs: map<nat, Dir>, d: nat, j: nat, k: nat)
    requires j < k && Climb(dirs, d, j).Some? && Climb(dirs, d, k) == Climb(dirs, d, j) && Climb(dirs, d, j) != Some(ROOT)
    ensures !ReachesRoot(dirs, d)
  {
    var x := Climb(dirs, d, j).value;
    ClimbFurther(dirs, d, j, k - j);
    forall n: nat ensures Climb(dirs, d, n) != Some(ROOT) {
      if n < j {
        if Climb(dirs, d, n) == Some(ROOT) {
          ClimbEnds(dirs, d, n, j);
        }
      } else {
        ClimbFurther(dirs, d, j, n - j);
        LoopNeverReaches(dirs, x, k - j, n - j);
      }
    }
  }

  /** The walk of a rename when nothing interferes; None is the source's error for a broken or circular chain. */
  method ParentIsBelow(dirs: map<nat, Dir>, parent: nat, ancestor: nat) returns (r: Option<bool>)
    ensures r.Some? ==> (r.value <==> IsAbove(dirs, ancestor, parent))
    ensures ReachesRoot(dirs, parent) ==> r.Some?
  {
    var visited: set<nat>, current := {}, parent;
    ghost var k := 0;
    while true
      invariant Climb(dirs, parent, k) == Some(current)
      invariant forall j :: 0 <= j < k ==> Climb(dirs, parent, j).Some? && Climb(dirs, parent, j) != Some(ancestor) && Climb(dirs, parent, j) != Some(ROOT)
      invariant forall x :: x in visited ==> exists j :: 0 <= j < k && Climb(dirs, parent, j) == Some(x)
      invariant visited <= dirs.Keys
      decreases dirs.Keys - visited
    {
      if current == ancestor {
        return Some(true);
      }
      if current == ROOT {
        forall n: nat ensures Climb(dirs, parent, n) != Some(ancestor) {
          if n > k {
            ClimbEnds(dirs, parent, k, n);
          }
        }
        return Some(false);
      }
      if current in visited {
        ghost var j :| 0 <= j < k && Climb(dirs, parent, j) == Some(current);
        RevisitNeverReaches(dirs, parent, j, k);
        return None;
      }
      ClimbOn(dirs, parent, k);
      if current !in dirs {
        BrokenNeverReaches(dirs, parent, k);
        return None;
      }
      if dirs[current].up == current {
        RevisitNeverReaches(dirs, parent, k, k + 1);
        return None;
      }
      visited := visited + {current};
      current := dirs[current].up;
      k := k + 1;
    }
  }

  lemma {:induction false} WalkFrom(s: State, n: nat) returns (events: seq<Event>)
    requires s.gate.Some? && Climb(s.dirs, s.gate.value.current, n) == Some(ROOT)
    ensures CanRun(s, events) && (forall i :: 0 <= i < |events| ==> events[i] == WalkStep)
    ensures var s' := Run(s, events);
            && s'.gate.Some? && s'.gate.value.source == s.gate.value.source && s'.gate.value.target == s.gate.value.target
            && s' == s.(gate := s'.gate) && (s'.gate.value.current == ROOT || s'.gate.value.current == s.gate.value.source)
    decreases n
  {
    if s.gate.value.current == ROOT || s.gate.value.current == s.gate.value.source {
      events := [];
    } else {
      var rest := WalkFrom(Next(s, WalkStep), n - 1);
      events := [WalkStep] + rest;
      assert events[1..] == rest;
    }
  }

  /** A walk always arrives: if nobody interferes it gets to the root exactly when the source is not above the target, and to
      the source otherwise. */
  lemma WalkArrives(s: State) returns (events: seq<Event>)
    requires Inv(s) && s.gate.Some?
    ensures CanRun(s, events) && (forall i :: 0 <= i < |events| ==> events[i] == WalkStep) && Run(s, events).gate.Some?
    ensures var w, s' := s.gate.value, Run(s, events);
            s' == s.(gate := Some(w.(current := if IsAbove(s.dirs, w.source, w.target) then w.source else ROOT)))
  {
    hide EntriesOk, OneName, UpsOk, TargetsOk;
    var w := s.gate.value;
    var k: nat :| WalkedTo(s.dirs, w, k);
    var n: nat :| Climb(s.dirs, w.target, n) == Some(ROOT);
    if k > n {
      ClimbEnds(s.dirs, w.target, n, k);
    }
    ClimbFurther(s.dirs, w.target, k, n - k);
    events := WalkFrom(s, n - k);
    EveryRunKeepsTheTree(s, events);
    var s' := Run(s, events);
    if s'.gate.value.current == ROOT {
      WalkProves(s');
    } else {
      var j: nat :| WalkedTo(s'.dirs, s'.gate.value, j);
      assert IsAbove(s.dirs, w.source, w.target);
    }
  }

  lemma {:induction false} RunThen(s: State, events: seq<Event>, e: Event)
    requires CanRun(s, events) && Enabled(Run(s, events), e)
    ensures CanRun(s, events + [e]) && Run(s, events + [e]) == Next(Run(s, events), e)
    decreases |events|
  {
    hide Enabled, Next;
    var all := events + [e];
    if events == [] {
      assert all[1..] == [] && CanRun(Next(s, e), []) && Run(Next(s, e), []) == Next(s, e);
    } else {
      assert all[0] == events[0] && all[1..] == events[1..] + [e];
      RunThen(Next(s, events[0]), events[1..], e);
    }
  }

  /** If nobody interferes a directory can be renamed into every directory that it is not above, over a name that is free or
      leads to another, empty directory. */
  lemma RenameGoesThrough(s: State, p: nat, name: string, q: nat, newName: string, open: bool) returns (events: seq<Event>)
    requires Inv(s) && s.gate == None && p != q && Linked(s, p) && Linked(s, q) && name in s.dirs[p].children
    requires var d := s.dirs[p].children[name]; !IsAbove(s.dirs, d, q) && Replaceable(s, q, newName, d)
    ensures CanRun(s, events) && Run(s, events).gate == None
    ensures EntryMoved(Run(s, events).dirs, s.dirs, p, name, q, newName, s.dirs[p].children[name])
  {
    hide AllReach, UpsOk, OneName, TargetsOk, IsAbove, Replaceable, WalkedTo;
    var d := s.dirs[p].children[name];
    assert HasChild(s.dirs, p, name, d);
    var start := StartRename(d, q);
    StartKeeps(s, d, q);
    var walk := WalkArrives(Next(s, start));
    var first := [start] + walk;
    assert first[1..] == walk && CanRun(s, first) && Run(s, first) == Run(Next(s, start), walk);
    EveryRunKeepsTheTree(Next(s, start), walk);
    var s' := Run(s, first);
    var commit := CommitRename(p, name, q, newName, open);
    assert s' == s.(gate := Some(Walk(d, q, ROOT)));
    assert Enabled(s', commit) by { SameReplaceable(s, s', q, newName, d); }
    CommitRenames(s', p, name, q, newName, open);
    RunThen(s, first, commit);
    events := first + [commit];
  }

  lemma SameReplaceable(s: State, s': State, q: nat, name: string, d: nat)
    requires q in s.dirs && s'.dirs == s.dirs && Replaceable(s, q, name, d)
    ensures Replaceable(s', q, name, d)
  {
  }

  /** A rename inside a directory needs no walk. */
  lemma WithinGoesThrough(s: State, p: nat, name: string, newName: string, open: bool)
    requires Inv(s) && s.gate == None && Linked(s, p) && name in s.dirs[p].children && name != newName
    requires Replaceable(s, p, newName, s.dirs[p].children[name])
    ensures Enabled(s, RenameWithin(p, name, newName, open))
  {
    assert HasChild(s.dirs, p, name, s.dirs[p].children[name]);
  }

  lemma BrokenNeverReaches(dirs: map<nat, Dir>, d: nat, k: nat)
    requires Climb(dirs, d, k).Some? && Climb(dirs, d, k).value !in dirs && Climb(dirs, d, k) != Some(ROOT)
    requires forall j :: 0 <= j < k ==> Climb(dirs, d, j) != Some(ROOT)
    ensures !ReachesRoot(dirs, d)
  {
    forall n: nat ensures Climb(dirs, d, n) != Some(ROOT) {
      if n > k {
        ClimbFurther(dirs, d, k, n - k);
      }
    }
  }
}
