/** The extent cache next to concurrent writers: what a reader looks up is what the index holds. */
module ExtentCoherence {
  import opened Media
  import opened Layout
  import opened ExtentCache

  type Index = map<nat, Block>

  /** A write between its preparation and the end of its transaction: the size it has read, the mappings that an abort puts
      back, and, once it has set a larger size, the number of blocks the file had until then. */
  datatype Flight = Flight(first: nat, last: nat, captured: nat, before: Index, grownFrom: Option<nat>)

  datatype Cache = Cache(size: nat, view: Index)

  /** `seen` names the flights whose mappings the cached view was built from. */
  datatype State = State(index: Index, size: nat, cache: Option<Cache>, flights: map<nat, Flight>, seen: set<nat>)

  datatype Event =
    | Begin(id: nat, first: nat, last: nat, after: Index)
    | Lookup
    | SetSize(id: nat, newSize: nat)
    | Commit(id: nat, publish: bool)
    | Abort(id: nat)
    | Truncate(newSize: nat)

  predicate InFlight(f: Flight, b: nat) {
    f.first <= b <= f.last
  }

  function Clip(m: Index, n: nat): (r: Index)
    ensures forall b :: b in r <==> b in m && b < n
    ensures forall b :: b in r ==> r[b] == m[b]
  {
    map b | b in m && b < n :: m[b]
  }

  function Part(m: Index, first: nat, last: nat): (r: Index)
    ensures forall b :: b in r <==> b in m && first <= b <= last
    ensures forall b :: b in r ==> r[b] == m[b]
  {
    map b | b in m && first <= b <= last :: m[b]
  }

  function Rest(m: Index, first: nat, last: nat): (r: Index)
    ensures forall b :: b in r <==> b in m && !(first <= b <= last)
    ensures forall b :: b in r ==> r[b] == m[b]
  {
    map b | b in m && !(first <= b <= last) :: m[b]
  }

  /** A snapshot of the whole index, as `build_extent_snapshot` takes it. */
  function Built(s: State, size: nat): Cache {
    Cache(size, Clip(s.index, BlocksOf(size)))
  }

  /** The cached view with one range replaced, as `publish_extent_update` makes it. */
  function Replaced(view: Index, size: nat, replacements: Index): Cache {
    Cache(size, Clip(view + replacements, BlocksOf(size)))
  }

  ghost predicate Enabled(s: State, e: Event) {
    match e
    case Begin(id, first, last, after) =>
      && id !in s.flights && first <= last
      && (forall i, b :: i in s.flights && first <= b <= last ==> !InFlight(s.flights[i], b))
      && (forall b :: b in after <==> first <= b <= last)
    case Lookup => true
    case SetSize(id, newSize) =>
      && id in s.flights && s.flights[id].grownFrom.None? && newSize > s.size
      && s.flights[id].first <= BlocksOf(s.size) && BlocksOf(newSize) <= s.flights[id].last + 1
    case Commit(id, publish) => id in s.flights
    case Abort(id) => id in s.flights && s.flights[id].grownFrom.None?
    case Truncate(newSize) => s.flights == map[] && newSize <= s.size
  }

  function Next(s: State, e: Event): State
    requires e.SetSize? || e.Commit? || e.Abort? ==> e.id in s.flights
  {
    match e
    case Begin(id, first, last, after) =>
      s.(index := s.index + after, flights := s.flights[id := Flight(first, last, s.size, Part(s.index, first, last), None)], seen := s.seen - {id})
    case Lookup =>
      if s.cache.Some? && s.cache.value.size == s.size then s
      else s.(cache := Some(Built(s, s.size)), seen := s.flights.Keys)
    case SetSize(id, newSize) =>
      s.(size := newSize, flights := s.flights[id := s.flights[id].(grownFrom := Some(BlocksOf(s.size)))])
    case Commit(id, publish) =>
      var f := s.flights[id];
      var done := s.(flights := s.flights - {id}, seen := s.seen - {id});
      if !publish then done.(cache := None)
      else if s.cache.None? || s.cache.value.size != f.captured then done.(cache := Some(Built(done, s.size)), seen := done.flights.Keys)
      else done.(cache := Some(Replaced(s.cache.value.view, s.size, Part(s.index, f.first, f.last))))
    case Abort(id) =>
      var f := s.flights[id];
      s.(index := Rest(s.index, f.first, f.last) + f.before, flights := s.flights - {id}, seen := s.seen - {id})
    case Truncate(newSize) =>
      if s.cache.None? || s.cache.value.size != s.size then s.(size := newSize, cache := Some(Built(s, newSize)), seen := {})
      else s.(size := newSize, cache := Some(Replaced(s.cache.value.view, newSize, map[])))
  }

  // ---- coherence ----

  ghost predicate Quiet(s: State, b: nat) {
    forall i :: i in s.flights ==> !InFlight(s.flights[i], b)
  }

  /** A snapshot of the size the file has now: the only one that a reader takes. */
  predicate Current(s: State) {
    s.cache.Some? && s.cache.value.size == s.size
  }

  /** What a reader may look up, the blocks no writer has locked, is what the index holds. */
  ghost predicate Coherent(s: State) {
    Current(s) ==>
      forall b :: 0 <= b < BlocksOf(s.size) && Quiet(s, b) ==>
        b in s.cache.value.view && b in s.index && s.cache.value.view[b] == s.index[b]
  }

  // ---- the invariant behind it ----

  ghost predicate FlightsApart(s: State) {
    forall i, j, b: nat :: i in s.flights && j in s.flights && InFlight(s.flights[i], b) && InFlight(s.flights[j], b) ==> i == j
  }

  ghost predicate Indexed(s: State) {
    forall b :: 0 <= b < BlocksOf(s.size) ==> b in s.index
  }

  /** The block was part of the file before the flight made it larger. */
  predicate Old(f: Flight, b: nat) {
    f.grownFrom.None? || b < f.grownFrom.value
  }

  /** Every block of a flight is in the index, and an abort would find the old mapping of those a reader can see. */
  ghost predicate FlightOk(s: State, i: nat)
    requires i in s.flights
  {
    && (forall b: nat :: InFlight(s.flights[i], b) ==> b in s.index)
    && (forall b: nat :: InFlight(s.flights[i], b) && b < BlocksOf(s.size) && Old(s.flights[i], b) ==> b in s.flights[i].before)
    && (forall b: nat :: b in s.flights[i].before ==> InFlight(s.flights[i], b))
  }

  ghost predicate ViewOk(s: State, view: Index, b: nat) {
    && b in s.index
    && (Quiet(s, b) ==> b in view && view[b] == s.index[b])
    && forall i :: i in s.flights && InFlight(s.flights[i], b) && Old(s.flights[i], b) ==>
         && b in view
         && if i in s.seen then view[b] == s.index[b] else b in s.flights[i].before && view[b] == s.flights[i].before[b]
  }

  ghost predicate CacheOk(s: State) {
    s.cache.Some? ==> forall b :: 0 <= b < BlocksOf(s.size) ==> ViewOk(s, s.cache.value.view, b)
  }

  ghost predicate Inv(s: State) {
    && FlightsApart(s) && Indexed(s) && s.seen <= s.flights.Keys && CacheOk(s)
    && forall i :: i in s.flights ==> FlightOk(s, i)
  }

  lemma InvIsCoherent(s: State)
    requires Inv(s)
    ensures Coherent(s)
  {
    if s.cache.Some? {
      forall b | 0 <= b < BlocksOf(s.size) && Quiet(s, b)
        ensures b in s.cache.value.view && b in s.index && s.cache.value.view[b] == s.index[b]
      {
        assert ViewOk(s, s.cache.value.view, b);
      }
    }
  }

  lemma QuietWith(s: State, s': State, id: nat, f: Flight, b: nat)
    requires id !in s.flights && s'.flights == s.flights[id := f]
    ensures Quiet(s', b) <==> Quiet(s, b) && !InFlight(f, b)
  {
    assert s'.flights[id] == f;
    assert forall i :: i in s.flights ==> i in s'.flights && s'.flights[i] == s.flights[i];
  }

  lemma QuietWithout(s: State, s': State, id: nat, b: nat)
    requires id in s.flights && s'.flights == s.flights - {id} && FlightsApart(s)
    ensures if InFlight(s.flights[id], b) then Quiet(s', b) else Quiet(s', b) <==> Quiet(s, b)
  {
    assert forall i :: i in s.flights <==> i == id || i in s'.flights;
    assert forall i :: i in s'.flights ==> s'.flights[i] == s.flights[i];
  }

  lemma BeginView(s: State, e: Event, b: nat)
    requires Inv(s) && e.Begin? && Enabled(s, e) && s.cache.Some? && b < BlocksOf(s.size)
    ensures ViewOk(Next(s, e), s.cache.value.view, b)
  {
    var s' := Next(s, e);
    var f := s'.flights[e.id];
    assert ViewOk(s, s.cache.value.view, b);
    QuietWith(s, s', e.id, f, b);
    assert InFlight(f, b) ==> Quiet(s, b);
  }

  lemma BeginKeeps(s: State, e: Event)
    requires Inv(s) && e.Begin? && Enabled(s, e)
    ensures Inv(Next(s, e))
  {
    hide ViewOk, FlightOk, FlightsApart;
    var s' := Next(s, e);
    BeginFlights(s, e);
    if s.cache.Some? {
      forall b | 0 <= b < BlocksOf(s'.size) ensures ViewOk(s', s'.cache.value.view, b) {
        BeginView(s, e, b);
      }
    }
  }

  lemma BeginFlights(s: State, e: Event)
    requires Inv(s) && e.Begin? && Enabled(s, e)
    ensures var s' := Next(s, e); FlightsApart(s') && forall i :: i in s'.flights ==> FlightOk(s', i)
  {
    hide ViewOk, CacheOk;
    var s' := Next(s, e);
    forall i | i in s'.flights ensures FlightOk(s', i) {
      assert i != e.id ==> FlightOk(s, i);
    }
  }

  lemma LookupKeeps(s: State)
    requires Inv(s)
    ensures Inv(Next(s, Lookup))
  {
    var s' := Next(s, Lookup);
    if s'.cache != s.cache {
      forall b | 0 <= b < BlocksOf(s'.size) ensures ViewOk(s', s'.cache.value.view, b) {
      }
    }
    forall i | i in s'.flights ensures FlightOk(s', i) {
      assert FlightOk(s, i);
    }
  }

  lemma TruncateKeeps(s: State, newSize: nat)
    requires Inv(s) && Enabled(s, Truncate(newSize))
    ensures Inv(Next(s, Truncate(newSize)))
  {
    var s' := Next(s, Truncate(newSize));
    assert BlocksOf(newSize) <= BlocksOf(s.size);
    forall b | 0 <= b < BlocksOf(newSize) ensures ViewOk(s', s'.cache.value.view, b) {
      if s.cache.Some? && s.cache.value.size == s.size {
        assert ViewOk(s, s.cache.value.view, b);
        assert Quiet(s, b);
      }
    }
  }

  lemma SetSizeView(s: State, e: Event, b: nat)
    requires Inv(s) && e.SetSize? && Enabled(s, e) && s.cache.Some? && b < BlocksOf(e.newSize)
    ensures ViewOk(Next(s, e), s.cache.value.view, b)
  {
    var s' := Next(s, e);
    assert BlocksOf(s.size) <= b ==> InFlight(s.flights[e.id], b);
    assert forall i :: i in s'.flights <==> i in s.flights;
    assert forall i :: i in s.flights ==> (InFlight(s'.flights[i], b) <==> InFlight(s.flights[i], b));
    assert FlightOk(s, e.id);
    if b < BlocksOf(s.size) {
      assert ViewOk(s, s.cache.value.view, b);
      assert Quiet(s', b) <==> Quiet(s, b);
      assert forall i :: i in s.flights && Old(s'.flights[i], b) ==> Old(s.flights[i], b);
    } else {
      assert InFlight(s'.flights[e.id], b) && !Old(s'.flights[e.id], b);
      assert forall i :: i in s.flights && InFlight(s.flights[i], b) ==> i == e.id;
    }
  }

  lemma SetSizeFlights(s: State, e: Event)
    requires Inv(s) && e.SetSize? && Enabled(s, e)
    ensures var s' := Next(s, e); Indexed(s') && FlightsApart(s') && forall i :: i in s'.flights ==> FlightOk(s', i)
  {
    hide ViewOk, CacheOk;
    var s' := Next(s, e);
    assert FlightOk(s, e.id);
    forall b | 0 <= b < BlocksOf(s'.size) ensures b in s'.index {
      assert BlocksOf(s.size) <= b ==> InFlight(s.flights[e.id], b);
    }
    forall i | i in s'.flights ensures FlightOk(s', i) {
      assert FlightOk(s, i);
      forall b: nat | InFlight(s'.flights[i], b) && b < BlocksOf(s'.size) && Old(s'.flights[i], b) ensures b in s'.flights[i].before {
        assert BlocksOf(s.size) <= b ==> InFlight(s.flights[e.id], b);
      }
    }
  }

  lemma SetSizeKeeps(s: State, e: Event)
    requires Inv(s) && e.SetSize? && Enabled(s, e)
    ensures Inv(Next(s, e))
  {
    hide ViewOk, FlightOk, FlightsApart;
    SetSizeFlights(s, e);
    var s' := Next(s, e);
    if s.cache.Some? {
      forall b | 0 <= b < BlocksOf(s'.size) ensures ViewOk(s', s'.cache.value.view, b) {
        SetSizeView(s, e, b);
      }
    }
  }

  lemma CommitIndexed(s: State, e: Event)
    requires Inv(s) && e.Commit? && Enabled(s, e)
    ensures Indexed(Next(s, e)) && FlightsApart(Next(s, e))
    ensures forall i :: i in Next(s, e).flights ==> FlightOk(Next(s, e), i)
  {
    hide ViewOk, CacheOk;
    var s' := Next(s, e);
    forall i | i in s'.flights ensures FlightOk(s', i) {
      assert FlightOk(s, i);
    }
  }

  lemma CommitView(s: State, e: Event, b: nat)
    requires Inv(s) && e.Commit? && Enabled(s, e) && Next(s, e).cache.Some? && b < BlocksOf(s.size)
    ensures ViewOk(Next(s, e), Next(s, e).cache.value.view, b)
  {
    var s', f := Next(s, e), s.flights[e.id];
    assert s'.index == s.index && b in s.index;
    if s.cache.Some? && s.cache.value.size == f.captured {
      QuietWithout(s, s', e.id, b);
      assert ViewOk(s, s.cache.value.view, b);
      assert forall i :: i in s'.flights ==> i in s.flights && s'.flights[i] == s.flights[i] && i != e.id;
    }
  }

  lemma CommitKeeps(s: State, e: Event)
    requires Inv(s) && e.Commit? && Enabled(s, e)
    ensures Inv(Next(s, e))
  {
    hide ViewOk;
    var s' := Next(s, e);
    CommitIndexed(s, e);
    if s'.cache.Some? {
      forall b | 0 <= b < BlocksOf(s'.size) ensures ViewOk(s', s'.cache.value.view, b) {
        CommitView(s, e, b);
      }
    }
  }

  // ---- aborts ----

  /** The flight changed no block a reader could see, or the cached view never took its mappings in. */
  ghost predicate SafeAbort(s: State, id: nat)
    requires id in s.flights
  {
    || s.cache.None?
    || id !in s.seen
    || forall b: nat :: InFlight(s.flights[id], b) && b < BlocksOf(s.size) && b in s.index && b in s.flights[id].before ==>
         s.index[b] == s.flights[id].before[b]
  }

  lemma AbortView(s: State, id: nat, b: nat)
    requires Inv(s) && Enabled(s, Abort(id)) && s.cache.Some? && SafeAbort(s, id) && b < BlocksOf(s.size)
    ensures ViewOk(Next(s, Abort(id)), s.cache.value.view, b)
  {
    var s', f := Next(s, Abort(id)), s.flights[id];
    assert ViewOk(s, s.cache.value.view, b) && FlightOk(s, id);
    QuietWithout(s, s', id, b);
  }

  lemma AbortIndexed(s: State, id: nat)
    requires Inv(s) && Enabled(s, Abort(id))
    ensures var s' := Next(s, Abort(id)); Indexed(s') && FlightsApart(s') && forall i :: i in s'.flights ==> FlightOk(s', i)
  {
    var s' := Next(s, Abort(id));
    assert FlightOk(s, id);
    forall i | i in s'.flights ensures FlightOk(s', i) {
      assert FlightOk(s, i);
    }
  }

  lemma SafeAbortKeeps(s: State, id: nat)
    requires Inv(s) && Enabled(s, Abort(id)) && SafeAbort(s, id)
    ensures Inv(Next(s, Abort(id)))
  {
    hide ViewOk, SafeAbort;
    AbortIndexed(s, id);
    var s' := Next(s, Abort(id));
    if s.cache.Some? {
      forall b | 0 <= b < BlocksOf(s'.size) ensures ViewOk(s', s'.cache.value.view, b) {
        AbortView(s, id, b);
      }
    }
  }

  /** An abort leaves the cache coherent exactly when it is safe or nobody takes the snapshot any more; else readers look up
      mappings that were taken back. */
  lemma AbortIsCoherentExactlyWhenSafe(s: State, id: nat)
    requires Inv(s) && Enabled(s, Abort(id))
    ensures Coherent(Next(s, Abort(id))) <==> SafeAbort(s, id) || !Current(s)
  {
    var s', f := Next(s, Abort(id)), s.flights[id];
    if SafeAbort(s, id) {
      SafeAbortKeeps(s, id);
      InvIsCoherent(s');
    } else if Current(s) {
      var b: nat :| InFlight(f, b) && b < BlocksOf(s.size) && b in s.index && b in f.before && s.index[b] != f.before[b];
      assert ViewOk(s, s.cache.value.view, b);
      QuietWithout(s, s', id, b);
      assert s'.index[b] == f.before[b];
      assert s'.cache.value.view[b] == s.index[b];
    }
  }

  // ---- runs ----

  /** A run from `s` in which every abort is a safe one. */
  ghost predicate SafeRun(s: State, events: seq<Event>)
    decreases |events|
  {
    events == [] ||
    (&& Enabled(s, events[0]) && (events[0].Abort? ==> SafeAbort(s, events[0].id))
     && SafeRun(Next(s, events[0]), events[1..]))
  }

  ghost function Run(s: State, events: seq<Event>): State
    requires SafeRun(s, events)
    decreases |events|
  {
    if events == [] then s else Run(Next(s, events[0]), events[1..])
  }

  lemma StepKeeps(s: State, e: Event)
    requires Inv(s) && Enabled(s, e) && (e.Abort? ==> SafeAbort(s, e.id))
    ensures Inv(Next(s, e))
  {
    match e
    case Begin(_, _, _, _) => BeginKeeps(s, e);
    case Lookup => LookupKeeps(s);
    case SetSize(_, _) => SetSizeKeeps(s, e);
    case Commit(_, _) => CommitKeeps(s, e);
    case Abort(id) => SafeAbortKeeps(s, id);
    case Truncate(newSize) => TruncateKeeps(s, newSize);
  }

  /** Through every such run readers look up what the index holds. */
  lemma {:induction false} EveryRunIsCoherent(s: State, events: seq<Event>)
    requires Inv(s) && SafeRun(s, events)
    ensures Inv(Run(s, events)) && Coherent(Run(s, events))
    decreases |events|
  {
    hide Inv, Next, SafeAbort, Coherent;
    if events == [] {
      InvIsCoherent(s);
    } else {
      StepKeeps(s, events[0]);
      EveryRunIsCoherent(Next(s, events[0]), events[1..]);
    }
  }

  /** Whatever ran before: the first unsafe abort is where readers start to be misled, unless nobody takes the snapshot. */
  lemma AbortAfterRun(s: State, events: seq<Event>, id: nat)
    requires Inv(s) && SafeRun(s, events) && Enabled(Run(s, events), Abort(id))
    ensures var s' := Run(s, events); Coherent(s') && (Coherent(Next(s', Abort(id))) <==> SafeAbort(s', id) || !Current(s'))
  {
    hide Inv, Next, SafeAbort, Coherent, Current;
    EveryRunIsCoherent(s, events);
    AbortIsCoherentExactlyWhenSafe(Run(s, events), id);
  }

  // ---- a run with an unsafe abort ----

  function OneBlockFile(): State {
    State(map[0 := Ssd(0)], 32768, None, map[], {})
  }

  function Overlay(): Block {
    Strata(0, [0, -1, -1, -1, -1, -1, -1, -1], [0, -1, -1, -1, -1, -1, -1, -1])
  }

  /** A write prepares a STRATA block, a reader elsewhere rebuilds the snapshot, the write fails on the device:
      the snapshot keeps a mapping the index no longer has. */
  lemma UnsafeAbortExists()
    ensures var s1 := Next(OneBlockFile(), Begin(1, 0, 0, map[0 := Overlay()]));
            var s2 := Next(s1, Lookup);
            var s3 := Next(s2, Abort(1));
            && Inv(OneBlockFile()) && Enabled(OneBlockFile(), Begin(1, 0, 0, map[0 := Overlay()])) && Enabled(s2, Abort(1))
            && !Coherent(s3) && s3.cache.value.view[0] == Overlay() && s3.index[0] == Ssd(0)
  {
    var s0 := OneBlockFile();
    var s1 := Next(s0, Begin(1, 0, 0, map[0 := Overlay()]));
    var s2 := Next(s1, Lookup);
    var s3 := Next(s2, Abort(1));
    assert BlocksOf(32768) == 1;
    assert s1.index[0] == Overlay() && s1.flights[1].before[0] == Ssd(0);
    assert 0 in s2.cache.value.view && s2.cache.value.view[0] == Overlay();
    assert s3.index[0] == Ssd(0);
    assert Quiet(s3, 0);
  }

  // ---- what the events say ----

  /** Readers, truncates and writers that publish leave a snapshot that the next reader takes; a writer that does not, none. */
  lemma SnapshotsAreTaken(s: State, id: nat, newSize: nat)
    ensures Current(Next(s, Lookup)) && Next(s, Lookup).index == s.index && Next(s, Lookup).size == s.size
    ensures Current(Next(s, Truncate(newSize))) && Next(s, Truncate(newSize)).size == newSize
    ensures id in s.flights ==> Current(Next(s, Commit(id, true))) && Next(s, Commit(id, false)).cache == None
    ensures id in s.flights ==> Next(s, SetSize(id, newSize)).size == newSize
  {
  }

  /** A write can start exactly on a range that meets no write in flight. */
  lemma BeginsExactly(s: State, id: nat, first: nat, last: nat, after: Index)
    requires id !in s.flights && first <= last && forall b: nat :: b in after <==> first <= b <= last
    requires forall i :: i in s.flights ==> s.flights[i].first <= s.flights[i].last
    ensures Enabled(s, Begin(id, first, last, after)) <==> forall i :: i in s.flights ==> s.flights[i].last < first || last < s.flights[i].first
  {
    forall i | i in s.flights && !(s.flights[i].last < first || last < s.flights[i].first)
      ensures exists b :: first <= b <= last && InFlight(s.flights[i], b)
    {
      assert InFlight(s.flights[i], if first < s.flights[i].first then s.flights[i].first else first);
    }
  }

  /** Lookups and the ends of writes are always possible, a truncate when no write is in flight, and a write may set the size to
      any larger one that its own blocks reach, if it starts inside the file or right behind it. */
  lemma StepsArePossible(s: State, id: nat, publish: bool, newSize: nat)
    ensures Enabled(s, Lookup) && (s.flights == map[] && newSize <= s.size ==> Enabled(s, Truncate(newSize)))
    ensures id in s.flights ==> Enabled(s, Commit(id, publish)) && (s.flights[id].grownFrom.None? ==> Enabled(s, Abort(id)))
    ensures id in s.flights && s.flights[id].grownFrom.None? && s.size < newSize <= (s.flights[id].last + 1) * 32768 ==>
              ((s.flights[id].first - 1) * 32768 < s.size ==> Enabled(s, SetSize(id, newSize)))
  {
    BlocksOfSize(newSize, if id in s.flights then s.flights[id].last + 1 else 0);
    if id in s.flights && s.flights[id].first > 0 {
      BlocksOfSize(s.size, s.flights[id].first - 1);
    }
  }

  /** The mappings that committed writes have made, and those of the writes that are still open, as the events say. */
  datatype Books = Books(index: Index, open: map<nat, Index>)

  function Booked(k: Books, e: Event): Books {
    match e
    case Begin(id, _, _, after) => k.(open := k.open[id := after])
    case Commit(id, _) => Books(if id in k.open then k.index + k.open[id] else k.index, k.open - {id})
    case Abort(id) => k.(open := k.open - {id})
    case _ => k
  }

  ghost predicate FlightBooked(s: State, k: Books, i: nat)
    requires i in s.flights
  {
    && i in k.open
    && (forall b: nat :: b in k.open[i] <==> InFlight(s.flights[i], b))
    && (forall b: nat :: b in s.flights[i].before ==> InFlight(s.flights[i], b))
  }

  ghost predicate SameAt(m: Index, n: Index, b: nat) {
    (b in m <==> b in n) && (b in m ==> m[b] == n[b])
  }

  /** Block `b` has its committed mapping, or, in a write in flight, that of the write, and an abort would put the committed one
      back. */
  ghost predicate BlockBooked(s: State, k: Books, b: nat) {
    && (Quiet(s, b) ==> SameAt(s.index, k.index, b))
    && forall i :: i in s.flights && InFlight(s.flights[i], b) ==>
         i in k.open && SameAt(s.index, k.open[i], b) && SameAt(s.flights[i].before, k.index, b)
  }

  ghost predicate InBooks(s: State, k: Books) {
    && FlightsApart(s) && (forall i :: i in s.flights ==> FlightBooked(s, k, i))
    && forall b: nat :: BlockBooked(s, k, b)
  }

  lemma BeginBlock(s: State, k: Books, e: Event, b: nat)
    requires e.Begin? && Enabled(s, e) && BlockBooked(s, k, b)
    ensures BlockBooked(Next(s, e), Booked(k, e), b)
  {
    var s' := Next(s, e);
    QuietWith(s, s', e.id, s'.flights[e.id], b);
    assert InFlight(s'.flights[e.id], b) ==> Quiet(s, b);
  }

  lemma BeginApart(s: State, e: Event)
    requires FlightsApart(s) && e.Begin? && Enabled(s, e)
    ensures FlightsApart(Next(s, e))
  {
  }

  lemma BeginFlightBooked(s: State, k: Books, e: Event, i: nat)
    requires e.Begin? && Enabled(s, e) && i in Next(s, e).flights && (i in s.flights ==> FlightBooked(s, k, i))
    ensures FlightBooked(Next(s, e), Booked(k, e), i)
  {
  }

  lemma BeginBooked(s: State, k: Books, e: Event)
    requires InBooks(s, k) && e.Begin? && Enabled(s, e)
    ensures InBooks(Next(s, e), Booked(k, e))
  {
    hide BlockBooked, FlightBooked, FlightsApart, Next, Enabled;
    BeginApart(s, e);
    forall b: nat ensures BlockBooked(Next(s, e), Booked(k, e), b) {
      BeginBlock(s, k, e, b);
    }
    forall i | i in Next(s, e).flights ensures FlightBooked(Next(s, e), Booked(k, e), i) {
      BeginFlightBooked(s, k, e, i);
    }
  }

  lemma EndEffect(s: State, e: Event)
    requires (e.Commit? || e.Abort?) && e.id in s.flights
    ensures var s', f := Next(s, e), s.flights[e.id];
            s'.flights == s.flights - {e.id} && s'.index == if e.Commit? then s.index else Rest(s.index, f.first, f.last) + f.before
  {
  }

  /** A block of the write that ends. */
  lemma EndOwnBlock(s: State, s': State, k: Books, e: Event, b: nat)
    requires FlightsApart(s) && (e.Commit? || e.Abort?) && e.id in s.flights && FlightBooked(s, k, e.id) && BlockBooked(s, k, b)
    requires InFlight(s.flights[e.id], b) && s'.flights == s.flights - {e.id}
    requires var f := s.flights[e.id]; s'.index == if e.Commit? then s.index else Rest(s.index, f.first, f.last) + f.before
    ensures BlockBooked(s', Booked(k, e), b)
  {
    assert SameAt(s.index, k.open[e.id], b) && SameAt(s.flights[e.id].before, k.index, b);
    assert forall i :: i in s'.flights ==> i in s.flights && i != e.id && s'.flights[i] == s.flights[i];
  }

  /** Any other block. */
  lemma EndOtherBlock(s: State, s': State, k: Books, e: Event, b: nat)
    requires FlightsApart(s) && (e.Commit? || e.Abort?) && e.id in s.flights && FlightBooked(s, k, e.id) && BlockBooked(s, k, b)
    requires !InFlight(s.flights[e.id], b) && s'.flights == s.flights - {e.id}
    requires var f := s.flights[e.id]; s'.index == if e.Commit? then s.index else Rest(s.index, f.first, f.last) + f.before
    ensures BlockBooked(s', Booked(k, e), b)
  {
    QuietWithout(s, s', e.id, b);
    assert forall i :: i in s'.flights ==> i in s.flights && i != e.id && s'.flights[i] == s.flights[i];
    assert SameAt(s'.index, s.index, b) && SameAt(Booked(k, e).index, k.index, b);
  }

  lemma EndBlock(s: State, k: Books, e: Event, b: nat)
    requires FlightsApart(s) && (e.Commit? || e.Abort?) && e.id in s.flights && FlightBooked(s, k, e.id) && BlockBooked(s, k, b)
    ensures BlockBooked(Next(s, e), Booked(k, e), b)
  {
    hide Next, BlockBooked, FlightBooked, FlightsApart;
    EndEffect(s, e);
    if InFlight(s.flights[e.id], b) {
      EndOwnBlock(s, Next(s, e), k, e, b);
    } else {
      EndOtherBlock(s, Next(s, e), k, e, b);
    }
  }

  lemma EndBooked(s: State, k: Books, e: Event)
    requires InBooks(s, k) && (e.Commit? || e.Abort?) && e.id in s.flights
    ensures InBooks(Next(s, e), Booked(k, e))
  {
    hide BlockBooked, Next;
    EndEffect(s, e);
    forall b: nat ensures BlockBooked(Next(s, e), Booked(k, e), b) {
      EndBlock(s, k, e, b);
    }
    forall i | i in Next(s, e).flights ensures FlightBooked(Next(s, e), Booked(k, e), i) {
      assert FlightBooked(s, k, i);
    }
  }

  lemma OtherBlock(s: State, s': State, k: Books, b: nat)
    requires BlockBooked(s, k, b) && s'.index == s.index && s'.flights.Keys == s.flights.Keys
    requires forall i :: i in s.flights ==> s'.flights[i].(grownFrom := None) == s.flights[i].(grownFrom := None)
    ensures BlockBooked(s', k, b)
  {
    assert forall i :: i in s.flights ==> s'.flights[i].before == s.flights[i].before && (InFlight(s'.flights[i], b) <==> InFlight(s.flights[i], b));
    assert Quiet(s', b) <==> Quiet(s, b);
  }

  lemma OtherBooked(s: State, s': State, k: Books)
    requires InBooks(s, k) && s'.index == s.index && s'.flights.Keys == s.flights.Keys
    requires forall i :: i in s.flights ==> s'.flights[i].(grownFrom := None) == s.flights[i].(grownFrom := None)
    ensures InBooks(s', k)
  {
    hide BlockBooked;
    forall b: nat ensures BlockBooked(s', k, b) {
      OtherBlock(s, s', k, b);
    }
    forall i | i in s'.flights ensures FlightBooked(s', k, i) && s'.flights[i].first == s.flights[i].first && s'.flights[i].last == s.flights[i].last {
      assert FlightBooked(s, k, i);
    }
  }

  lemma StepBooked(s: State, k: Books, e: Event)
    requires InBooks(s, k) && Enabled(s, e)
    ensures InBooks(Next(s, e), Booked(k, e))
  {
    hide InBooks;
    match e
    case Begin(_, _, _, _) => BeginBooked(s, k, e);
    case Commit(_, _) => EndBooked(s, k, e);
    case Abort(_) => EndBooked(s, k, e);
    case _ => OtherBooked(s, Next(s, e), k);
  }

  ghost predicate CanRun(s: State, events: seq<Event>)
    decreases |events|
  {
    events == [] || (Enabled(s, events[0]) && CanRun(Next(s, events[0]), events[1..]))
  }

  ghost function After(s: State, events: seq<Event>): State
    requires CanRun(s, events)
    decreases |events|
  {
    if events == [] then s else After(Next(s, events[0]), events[1..])
  }

  function BookedAll(k: Books, events: seq<Event>): Books
    decreases |events|
  {
    if events == [] then k else BookedAll(Booked(k, events[0]), events[1..])
  }

  /** Over every run, with aborts of any kind: the index maps a block that no write has in flight as the last committed write
      of that block said, or as it did at the start. */
  lemma {:induction false} IndexIsCommitted(s: State, k: Books, events: seq<Event>)
    requires InBooks(s, k) && CanRun(s, events)
    ensures InBooks(After(s, events), BookedAll(k, events))
    decreases |events|
  {
    if events != [] {
      hide InBooks, Enabled, Next, Booked;
      StepBooked(s, k, events[0]);
      IndexIsCommitted(Next(s, events[0]), Booked(k, events[0]), events[1..]);
    }
  }

  lemma CommittedMapping(s: State, events: seq<Event>, b: nat)
    requires s.flights == map[] && CanRun(s, events) && Quiet(After(s, events), b)
    ensures SameAt(After(s, events).index, BookedAll(Books(s.index, map[]), events).index, b)
  {
    hide CanRun, After, BookedAll;
    assert InBooks(s, Books(s.index, map[]));
    IndexIsCommitted(s, Books(s.index, map[]), events);
    assert BlockBooked(After(s, events), BookedAll(Books(s.index, map[]), events), b);
  }

  // ---- the extents behind a view ----

  ghost predicate Represents(extents: seq<Extent>, view: Index) {
    forall b: nat :: At(extents, b) == if b in view then Some(view[b]) else None
  }

  lemma BuildRepresents(extents: seq<Extent>, blocks: seq<Block>, index: Index, size: nat)
    requires BlocksOf(size) <= |blocks| && Agrees(extents, blocks, BlocksOf(size))
    requires forall b: nat :: b < BlocksOf(size) ==> b in index && index[b] == blocks[b]
    ensures Represents(extents, Clip(index, BlocksOf(size)))
  {
  }

  lemma UpdateRepresents(before: seq<Extent>, after: seq<Extent>, view: Index, size: nat, first: nat, blocks: seq<Block>, replacements: Index)
    requires Represents(before, view)
    requires forall b: nat :: At(after, b) == UpdatedAt(before, BlocksOf(size), first, blocks, b)
    requires forall b: nat :: b in replacements <==> InRange(first, blocks, b)
    requires forall b: nat :: b in replacements && InRange(first, blocks, b) ==> replacements[b] == blocks[b - first]
    ensures Represents(after, Replaced(view, size, replacements).view)
  {
  }

  /** A reader of a block no writer holds gets the mapping of the index from the extents. */
  lemma ReaderSeesIndex(s: State, extents: seq<Extent>, b: nat)
    requires Coherent(s) && Current(s) && Represents(extents, s.cache.value.view) && b < BlocksOf(s.size) && Quiet(s, b)
    ensures b in s.index && At(extents, b) == Some(s.index[b])
  {
  }
}
