/** The redo journal under crashes anywhere: a transaction's metadata takes effect whole or not at all, in commit order. */
module Journal {
  import opened Media

  /** One unit of a frame: a cell of the metadata area (a byte, or a bit of a bitmap) and its new value. */
  datatype Write = Write(cell: nat, value: int)

  datatype Frame = Frame(txid: nat, writes: seq<Write>)

  ghost predicate Fits(writes: seq<Write>, size: nat) {
    forall i :: 0 <= i < |writes| ==> writes[i].cell < size
  }

  /** The writes of a frame applied in order. */
  function Redo(home: seq<int>, writes: seq<Write>): (r: seq<int>)
    requires Fits(writes, |home|)
    ensures |r| == |home|
  {
    if writes == [] then home
    else
      var w := writes[|writes| - 1];
      Redo(home, writes[..|writes| - 1])[w.cell := w.value]
  }

  ghost predicate Touches(writes: seq<Write>, c: nat) {
    exists i :: 0 <= i < |writes| && writes[i].cell == c
  }

  /** What the redo leaves depends only on the cells it does not write. */
  lemma {:induction false} RedoForgets(home': seq<int>, home: seq<int>, writes: seq<Write>, c: nat)
    requires |home'| == |home| && Fits(writes, |home|) && c < |home|
    requires Touches(writes, c) || home'[c] == home[c]
    ensures Redo(home', writes)[c] == Redo(home, writes)[c]
  {
    if writes != [] {
      var front, w := writes[..|writes| - 1], writes[|writes| - 1];
      if w.cell != c {
        if Touches(writes, c) {
          var i :| 0 <= i < |writes| && writes[i].cell == c;
          assert front[i].cell == c;
        }
        RedoForgets(home', home, front, c);
      }
    }
  }

  /** Some of the writes already in place, in any order and any number of times, make no difference to a redo. */
  lemma RedoIsIdempotent(home': seq<int>, home: seq<int>, writes: seq<Write>)
    requires |home'| == |home| && Fits(writes, |home|)
    requires forall c :: 0 <= c < |home| ==> Touches(writes, c) || home'[c] == home[c]
    ensures Redo(home', writes) == Redo(home, writes)
  {
    forall c | 0 <= c < |home| ensures Redo(home', writes)[c] == Redo(home, writes)[c] {
      RedoForgets(home', home, writes, c);
    }
  }

  // ---- checkpoints ----

  datatype Checkpoint = Checkpoint(generation: nat, txid: nat)

  /** The valid slot with the highest generation. */
  function Latest(a: Option<Checkpoint>, b: Option<Checkpoint>): Option<Checkpoint> {
    if b.None? || (a.Some? && a.value.generation >= b.value.generation) then a else b
  }

  // ---- the machine ----

  datatype Phase = Idle | Body | Applying | Applied | Marking | Marked | Down

  /** On PMEM: the metadata area, the journal's valid frame if it has one, two checkpoint slots. In memory: the phase of the
      commit under way, its frame, the next transaction id and the checkpoint generation. */
  datatype State = State(home: seq<int>, log: Option<Frame>, even: Option<Checkpoint>, odd: Option<Checkpoint>,
                         phase: Phase, frame: Frame, nextTxid: nat, generation: nat)

  datatype Event =
    | WriteBody(writes: seq<Write>)
    | WriteCommit
    | ApplyOne(i: nat)
    | ApplyDone
    | TearCheckpoint
    | FinishCheckpoint
    | ClearLog
    | Crash
    | Recover

  ghost predicate Enabled(s: State, e: Event) {
    match e
    case WriteBody(writes) => s.phase.Idle? && Fits(writes, |s.home|)
    case WriteCommit => s.phase.Body?
    case ApplyOne(i) => s.phase.Applying? && i < |s.frame.writes| && s.frame.writes[i].cell < |s.home|
    case ApplyDone => s.phase.Applying? && Fits(s.frame.writes, |s.home|) && s.home == Redo(s.home, s.frame.writes)
    case TearCheckpoint => s.phase.Applied?
    case FinishCheckpoint => s.phase.Marking?
    case ClearLog => s.phase.Marked?
    case Crash => true
    case Recover => s.phase.Down? && Latest(s.even, s.odd).Some?
  }

  /** The slot for a checkpoint generation: generations take turns. */
  function PutCheckpoint(s: State, c: Option<Checkpoint>): State {
    if (s.generation + 1) % 2 == 1 then s.(even := c) else s.(odd := c)
  }

  ghost function Next(s: State, e: Event): State
    requires Enabled(s, e)
  {
    match e
    case WriteBody(writes) => s.(phase := Body, frame := Frame(s.nextTxid, writes))
    case WriteCommit => s.(log := Some(s.frame), phase := Applying)
    case ApplyOne(i) => s.(home := s.home[s.frame.writes[i].cell := s.frame.writes[i].value])
    case ApplyDone => s.(phase := Applied)
    case TearCheckpoint => PutCheckpoint(s, None).(phase := Marking)
    case FinishCheckpoint =>
      PutCheckpoint(s, Some(Checkpoint(s.generation + 1, s.frame.txid))).(phase := Marked, generation := s.generation + 1)
    case ClearLog => s.(log := None, phase := Idle, nextTxid := s.frame.txid + 1)
    case Crash => s.(phase := Down)
    case Recover =>
      var c := Latest(s.even, s.odd).value;
      if s.log.None? then s.(phase := Applied, frame := Frame(c.txid, []), generation := c.generation)
      else s.(phase := Applying, frame := s.log.value, generation := c.generation)
  }

  // ---- what the metadata area stands for ----

  /** What a recovery would make of it. */
  ghost function Recovered(s: State): seq<int>
    requires s.log.Some? ==> Fits(s.log.value.writes, |s.home|)
  {
    if s.log.None? then s.home else Redo(s.home, s.log.value.writes)
  }

  /** The slot of the latest checkpoint is never the one being written. */
  ghost predicate CheckpointsOk(s: State) {
    && Latest(s.even, s.odd).Some?
    && (s.even.Some? ==> s.even.value.generation % 2 == 1)
    && (s.odd.Some? ==> s.odd.value.generation % 2 == 0)
    && (!s.phase.Down? ==> Latest(s.even, s.odd).value.generation == s.generation)
  }

  ghost predicate PhaseOk(s: State) {
    && (s.phase.Idle? || s.phase.Body? ==> s.log.None?)
    && (s.phase.Body? ==> Fits(s.frame.writes, |s.home|) && s.frame.txid == s.nextTxid)
    && (s.phase.Applying? ==> s.log == Some(s.frame))
    && (s.phase.Applied? || s.phase.Marking? || s.phase.Marked? ==> s.log.None? || s.log == Some(s.frame))
    && (s.log.Some? ==> Fits(s.log.value.writes, |s.home|))
    && (s.phase.Applied? || s.phase.Marking? || s.phase.Marked? ==>
          Fits(s.frame.writes, |s.home|) && s.home == Redo(s.home, s.frame.writes))
  }

  /** `top` is the id of the last transaction whose commit record is durable. */
  ghost predicate IdsOk(s: State, top: nat) {
    && (s.log.Some? ==> s.log.value.txid == top)
    && (s.log.None? ==> Latest(s.even, s.odd).Some? && Latest(s.even, s.odd).value.txid == top)
    && (s.phase.Idle? || s.phase.Body? ==> s.nextTxid == top + 1)
    && (s.phase.Applied? || s.phase.Marking? || s.phase.Marked? ==> s.frame.txid == top)
    && (s.phase.Marked? ==> Latest(s.even, s.odd).Some? && Latest(s.even, s.odd).value.txid == top)
  }

  /** `truth` is the effect of all transactions whose commit record is durable, one after the other. */
  ghost predicate Inv(s: State, truth: seq<int>, top: nat) {
    && CheckpointsOk(s) && PhaseOk(s) && IdsOk(s, top)
    && Recovered(s) == truth && |truth| == |s.home|
  }

  ghost function TruthAfter(s: State, e: Event, truth: seq<int>): seq<int>
    requires Enabled(s, e) && (e.WriteCommit? ==> Fits(s.frame.writes, |truth|))
  {
    if e.WriteCommit? then Redo(truth, s.frame.writes) else truth
  }

  function TopAfter(s: State, e: Event, top: nat): nat {
    if e.WriteCommit? then s.frame.txid else top
  }

  lemma ApplyKeeps(s: State, i: nat)
    requires PhaseOk(s) && Enabled(s, ApplyOne(i))
    ensures var s' := Next(s, ApplyOne(i)); PhaseOk(s') && |s'.home| == |s.home| && Recovered(s') == Recovered(s)
  {
    var s', ws := Next(s, ApplyOne(i)), s.frame.writes;
    assert Touches(ws, ws[i].cell);
    RedoIsIdempotent(s'.home, s.home, ws);
  }

  lemma CheckpointKeeps(s: State, e: Event)
    requires CheckpointsOk(s) && Enabled(s, e) && PhaseOk(s)
    ensures CheckpointsOk(Next(s, e))
    ensures e.TearCheckpoint? ==> Latest(Next(s, e).even, Next(s, e).odd) == Latest(s.even, s.odd)
    ensures e.FinishCheckpoint? ==> Latest(Next(s, e).even, Next(s, e).odd).value.txid == s.frame.txid
  {
    hide Redo;
  }

  lemma StepKeepsInv(s: State, e: Event, truth: seq<int>, top: nat)
    requires Inv(s, truth, top) && Enabled(s, e)
    ensures Inv(Next(s, e), TruthAfter(s, e, truth), TopAfter(s, e, top))
  {
    CheckpointKeeps(s, e);
    if e.ApplyOne? {
      ApplyKeeps(s, e.i);
    }
  }

  // ---- runs ----

  /** The run is possible from `s`; `truth` follows the commit records. */
  ghost predicate CanRun(s: State, events: seq<Event>)
    decreases |events|
  {
    events == [] || (Enabled(s, events[0]) && CanRun(Next(s, events[0]), events[1..]))
  }

  ghost function Run(s: State, events: seq<Event>): State
    requires CanRun(s, events)
    decreases |events|
  {
    if events == [] then s else Run(Next(s, events[0]), events[1..])
  }

  /** The transactions whose commit record became durable in the run, in order. */
  ghost function CommittedFrames(s: State, events: seq<Event>): seq<Frame>
    requires CanRun(s, events)
    decreases |events|
  {
    if events == [] then []
    else (if events[0].WriteCommit? then [s.frame] else []) + CommittedFrames(Next(s, events[0]), events[1..])
  }

  ghost predicate AllFit(frames: seq<Frame>, size: nat) {
    forall i :: 0 <= i < |frames| ==> Fits(frames[i].writes, size)
  }

  function RedoAll(home: seq<int>, frames: seq<Frame>): (r: seq<int>)
    requires AllFit(frames, |home|)
    ensures |r| == |home|
    decreases |frames|
  {
    if frames == [] then home else RedoAll(Redo(home, frames[0].writes), frames[1..])
  }

  /** Ids go up by one from each committed transaction to the next, across crashes. */
  ghost predicate IdsInOrder(frames: seq<Frame>, top: nat) {
    forall i :: 0 <= i < |frames| ==> frames[i].txid == top + 1 + i
  }

  lemma {:induction false} RunCommits(s: State, events: seq<Event>, truth: seq<int>, top: nat)
    requires Inv(s, truth, top) && CanRun(s, events)
    ensures var frames := CommittedFrames(s, events);
            && AllFit(frames, |truth|) && IdsInOrder(frames, top)
            && Inv(Run(s, events), RedoAll(truth, frames), top + |frames|)
    decreases |events|
  {
    if events != [] {
      var e := events[0];
      var s' := Next(s, e);
      StepKeepsInv(s, e, truth, top);
      RunCommits(s', events[1..], TruthAfter(s, e, truth), TopAfter(s, e, top));
      var rest := CommittedFrames(s', events[1..]);
      if e.WriteCommit? {
        var frames := CommittedFrames(s, events);
        assert frames == [s.frame] + rest && frames[1..] == rest;
        assert s.frame.txid == top + 1;
      } else {
        assert CommittedFrames(s, events) == rest;
      }
    }
  }

  // ---- what the events say ----

  /** The writes of the transactions whose commit record follows their body, given the body that was written last. */
  function CommittedWrites(events: seq<Event>, body: seq<Write>): seq<seq<Write>>
    decreases |events|
  {
    if events == [] then []
    else
      match events[0]
      case WriteBody(writes) => CommittedWrites(events[1..], writes)
      case WriteCommit => [body] + CommittedWrites(events[1..], body)
      case _ => CommittedWrites(events[1..], body)
  }

  lemma BodyStep(s: State, e: Event, body: seq<Write>)
    requires Enabled(s, e) && (s.phase.Body? ==> s.frame.writes == body)
    ensures Next(s, e).phase.Body? ==> Next(s, e).frame.writes == if e.WriteBody? then e.writes else body
    ensures e.WriteCommit? ==> s.frame.writes == body
  {
    hide Redo;
  }

  /** The committed frames hold the writes that were handed to the journal. */
  lemma {:induction false} FramesAreWrites(s: State, events: seq<Event>, body: seq<Write>)
    requires CanRun(s, events) && (s.phase.Body? ==> s.frame.writes == body)
    ensures var frames, all := CommittedFrames(s, events), CommittedWrites(events, body);
            |frames| == |all| && forall i :: 0 <= i < |all| ==> frames[i].writes == all[i]
    decreases |events|
  {
    if events != [] {
      hide Next, Enabled;
      var next := if events[0].WriteBody? then events[0].writes else body;
      BodyStep(s, events[0], body);
      FramesAreWrites(Next(s, events[0]), events[1..], next);
    }
  }

  /** The writes one after the other. */
  function WriteAll(home: seq<int>, all: seq<seq<Write>>): (r: seq<int>)
    requires forall i :: 0 <= i < |all| ==> Fits(all[i], |home|)
    ensures |r| == |home|
    decreases |all|
  {
    if all == [] then home else WriteAll(Redo(home, all[0]), all[1..])
  }

  lemma {:induction false} RedoAllIsWriteAll(home: seq<int>, frames: seq<Frame>, all: seq<seq<Write>>)
    requires AllFit(frames, |home|) && |frames| == |all| && forall i :: 0 <= i < |all| ==> frames[i].writes == all[i]
    ensures RedoAll(home, frames) == WriteAll(home, all)
    decreases |all|
  {
    if all != [] {
      RedoAllIsWriteAll(Redo(home, all[0]), frames[1..], all[1..]);
    }
  }

  /** A cell after the writes has the value of the last write to it, or what it had. */
  function LastWritten(home: seq<int>, writes: seq<Write>, c: nat): int
    requires c < |home|
  {
    if writes == [] then home[c]
    else if writes[|writes| - 1].cell == c then writes[|writes| - 1].value
    else LastWritten(home, writes[..|writes| - 1], c)
  }

  lemma {:induction false} RedoIsLastWritten(home: seq<int>, writes: seq<Write>, c: nat)
    requires Fits(writes, |home|) && c < |home|
    ensures Redo(home, writes)[c] == LastWritten(home, writes, c)
  {
    if writes != [] {
      RedoIsLastWritten(home, writes[..|writes| - 1], c);
    }
  }

  // ---- nothing gets stuck ----

  function Rank(phase: Phase): nat {
    match phase
    case Body => 6
    case Down => 5
    case Applying => 4
    case Applied => 3
    case Marking => 2
    case Marked => 1
    case Idle => 0
  }

  /** The writes of the frame put in place one after the other, from `i` on. */
  lemma {:induction false} ApplyRest(s: State, truth: seq<int>, top: nat, i: nat) returns (events: seq<Event>)
    requires Inv(s, truth, top) && s.phase.Applying? && i <= |s.frame.writes| && Fits(s.frame.writes, |s.home|)
    requires forall c :: 0 <= c < |s.home| ==> s.home[c] == Redo(s.home, s.frame.writes[..i])[c]
    ensures CanRun(s, events) && Run(s, events).phase.Applied? && (forall k :: 0 <= k < |events| ==> !events[k].WriteBody? && !events[k].Crash?)
    decreases |s.frame.writes| - i
  {
    var ws := s.frame.writes;
    if i == |ws| {
      assert ws[..i] == ws;
      assert s.home == Redo(s.home, ws);
      events := [ApplyDone];
      assert events[1..] == [];
    } else {
      var s' := Next(s, ApplyOne(i));
      StepKeepsInv(s, ApplyOne(i), truth, top);
      OneMoreApplied(s.home, ws, i);
      var rest := ApplyRest(s', truth, top, i + 1);
      events := [ApplyOne(i)] + rest;
      assert events[1..] == rest;
    }
  }

  lemma OneMoreApplied(home: seq<int>, writes: seq<Write>, i: nat)
    requires i < |writes| && Fits(writes, |home|) && forall c :: 0 <= c < |home| ==> home[c] == Redo(home, writes[..i])[c]
    ensures var home' := home[writes[i].cell := writes[i].value]; home' == Redo(home', writes[..i + 1])
  {
    var home' := home[writes[i].cell := writes[i].value];
    assert writes[..i + 1][..i] == writes[..i];
    forall c | 0 <= c < |home| ensures home'[c] == Redo(home', writes[..i + 1])[c] {
      if c != writes[i].cell {
        RedoForgets(home', home, writes[..i], c);
      }
    }
  }

  /** From every state of every run, with commits and crashes behind it, the journal gets to rest without another crash: it is
      idle again, and the metadata is the committed transactions. */
  lemma {:induction false} RecoveryCompletes(s: State, truth: seq<int>, top: nat) returns (events: seq<Event>)
    requires Inv(s, truth, top)
    ensures CanRun(s, events) && Run(s, events).phase.Idle? && forall k :: 0 <= k < |events| ==> !events[k].WriteBody? && !events[k].Crash?
    ensures !s.phase.Body? ==> Run(s, events).home == truth
    decreases Rank(s.phase)
  {
    match s.phase
    case Idle =>
      events := [];
    case Applying =>
      assert s.frame.writes[..0] == [];
      var first := ApplyRest(s, truth, top, 0);
      RunCommits(s, first, truth, top);
      NothingCommitted(s, first);
      var rest := RecoveryCompletes(Run(s, first), truth, top);
      events := first + rest;
      RunOn(s, first, rest);
    case _ =>
      var e := match s.phase case Body => WriteCommit case Down => Recover case Applied => TearCheckpoint case Marking => FinishCheckpoint case _ => ClearLog;
      StepKeepsInv(s, e, truth, top);
      var rest := RecoveryCompletes(Next(s, e), TruthAfter(s, e, truth), TopAfter(s, e, top));
      events := [e] + rest;
      assert events[1..] == rest;
  }

  /** An idle journal takes every transaction that fits, and carries it through. */
  lemma TransactionGoesThrough(s: State, truth: seq<int>, top: nat, writes: seq<Write>) returns (events: seq<Event>)
    requires Inv(s, truth, top) && s.phase.Idle? && Fits(writes, |s.home|)
    ensures events != [] && events[0] == WriteBody(writes) && CanRun(s, events)
    ensures Run(s, events).phase.Idle? && Run(s, events).home == Redo(s.home, writes)
  {
    var s1 := Next(s, WriteBody(writes));
    StepKeepsInv(s, WriteBody(writes), truth, top);
    var s2 := Next(s1, WriteCommit);
    StepKeepsInv(s1, WriteCommit, truth, top);
    var rest := RecoveryCompletes(s2, TruthAfter(s1, WriteCommit, truth), TopAfter(s1, WriteCommit, top));
    var more := [WriteCommit] + rest;
    assert more[1..] == rest && CanRun(s1, more);
    events := [WriteBody(writes)] + more;
    assert events[1..] == more;
  }

  /** A crash can come at any moment; what was committed by then is there again after the recovery. */
  lemma CrashThenRecovery(s: State, truth: seq<int>, top: nat) returns (events: seq<Event>)
    requires Inv(s, truth, top)
    ensures Enabled(s, Crash) && Next(s, Crash).phase.Down? && CanRun(s, [Crash] + events) && (forall k :: 0 <= k < |events| ==> !events[k].WriteBody?)
    ensures Run(s, [Crash] + events).phase.Idle? && Run(s, [Crash] + events).home == truth
  {
    StepKeepsInv(s, Crash, truth, top);
    events := RecoveryCompletes(Next(s, Crash), truth, top);
    assert ([Crash] + events)[1..] == events;
  }

  lemma {:induction false} NothingCommitted(s: State, events: seq<Event>)
    requires CanRun(s, events) && !s.phase.Body? && forall k :: 0 <= k < |events| ==> !events[k].WriteBody?
    ensures CommittedFrames(s, events) == [] && !Run(s, events).phase.Body?
    decreases |events|
  {
    if events != [] {
      NothingCommitted(Next(s, events[0]), events[1..]);
    }
  }

  lemma {:induction false} RunOn(s: State, first: seq<Event>, rest: seq<Event>)
    requires CanRun(s, first) && CanRun(Run(s, first), rest)
    ensures CanRun(s, first + rest) && Run(s, first + rest) == Run(Run(s, first), rest)
    decreases |first|
  {
    if first == [] {
      assert first + rest == rest;
    } else {
      RunOn(Next(s, first[0]), first[1..], rest);
      assert (first + rest)[1..] == first[1..] + rest;
    }
  }

  /** A formatted device: nothing in the journal, one checkpoint. */
  function Formatted(home: seq<int>): State {
    State(home, None, Some(Checkpoint(1, 0)), None, Idle, Frame(0, []), 1, 1)
  }

  /** Whenever the journal is idle, after any run of commits, crashes and recoveries that were themselves cut short, the
      metadata is exactly the committed transactions applied whole and in order. */
  lemma CommittedWholeOrNotAtAll(home: seq<int>, events: seq<Event>)
    requires CanRun(Formatted(home), events)
    ensures var s, all := Run(Formatted(home), events), CommittedWrites(events, []);
            (forall i :: 0 <= i < |all| ==> Fits(all[i], |home|)) && (s.phase.Idle? ==> s.home == WriteAll(home, all))
    ensures var s, frames := Run(Formatted(home), events), CommittedFrames(Formatted(home), events);
            AllFit(frames, |home|) && IdsInOrder(frames, 0) && (s.phase.Idle? ==> s.home == RedoAll(home, frames) && s.nextTxid == |frames| + 1)
  {
    RunCommits(Formatted(home), events, home, 0);
    FramesAreWrites(Formatted(home), events, []);
    RedoAllIsWriteAll(home, CommittedFrames(Formatted(home), events), CommittedWrites(events, []));
  }
}
