/**
 * The bidirectional relay of an established CONNECT tunnel: two forwarder
 * tasks and the coroutine that waits for the first of them to finish, as a
 * step relation. A step of a task runs from one `await` to the next, so a read
 * and the write that follows it are one step. The wire is modelled as a
 * sequence of characters, one per octet.
 */
module Relay {

  type Bytes = seq<char>

  const CHUNK: nat := 65536

  datatype Reason = AtEof | Failed | Cancelled

  /** Where a forwarder task stands. `Fresh` is a task whose coroutine has not started. */
  datatype Phase = Fresh | Reading | Draining | Done(reason: Reason)

  /**
   * One direction: the bytes the source has delivered so far, how many of them
   * the forwarder has consumed, what has been written to the destination and
   * whether that writer is still open. `preamble` is what had been written
   * before the relay started.
   */
  datatype Lane = Lane(
    preamble: Bytes, arrived: Bytes, eof: bool, taken: nat,
    written: Bytes, open: bool, phase: Phase, cancelled: bool)

  /** The coroutine itself: waiting for the first task, then closing the client
      writer, then the remote writer, then returned. */
  datatype Stage = Waiting | ClosingClient | ClosingRemote | Returned

  /** `up` carries client bytes to the remote writer, `down` the reverse. */
  datatype State = State(up: Lane, down: Lane, stage: Stage)

  datatype Actor = Up | Down | Main | Network

  function NewLane(preamble: Bytes, arrived: Bytes): Lane {
    Lane(preamble, arrived, false, 0, preamble, true, Fresh, false)
  }

  /** `early` are client bytes already buffered behind the request header. */
  function Opened(established: Bytes, early: Bytes): State {
    State(NewLane([], early), NewLane(established, []), Waiting)
  }

  ghost predicate Forwards(l: Lane, l': Lane, n: nat) {
    && 0 < n <= CHUNK
    && l.taken + n <= |l.arrived|
    && l' == l.(taken := l.taken + n,
                written := l.written + l.arrived[l.taken..l.taken + n],
                phase := Draining)
  }

  /** One turn of a forwarder task. */
  ghost predicate LaneStep(l: Lane, l': Lane) {
    if l.cancelled then
      // CancelledError is delivered; a coroutine that never started has no `finally` to run
      && !l.phase.Done?
      && l' == l.(phase := Done(Cancelled), open := if l.phase.Fresh? then l.open else false)
    else
      match l.phase
      case Fresh => l' == l.(phase := Reading)
      case Reading =>
        || (exists n: nat :: Forwards(l, l', n))
        || (l.eof && l.taken == |l.arrived| && l' == l.(phase := Done(AtEof), open := false))
        || l' == l.(phase := Done(Failed), open := false)
      case Draining =>
        || l' == l.(phase := Reading)
        || l' == l.(phase := Done(Failed), open := false)
      case Done(_) => false
  }

  /** The source delivers more bytes, or closes. */
  ghost predicate Delivers(l: Lane, l': Lane) {
    || (!l.eof && l.arrived <= l'.arrived && l' == l.(arrived := l'.arrived))
    || l' == l.(eof := true)
  }

  function Cancel(l: Lane): Lane {
    if l.phase.Done? then l else l.(cancelled := true)
  }

  ghost predicate MainStep(s: State, s': State) {
    match s.stage
    case Waiting =>
      && (s.up.phase.Done? || s.down.phase.Done?)
      && s' == State(Cancel(s.up), Cancel(s.down), ClosingClient)
    case ClosingClient => s' == s.(down := s.down.(open := false), stage := ClosingRemote)
    case ClosingRemote => s' == s.(up := s.up.(open := false), stage := Returned)
    case Returned => false
  }

  ghost predicate Step(who: Actor, s: State, s': State) {
    match who
    case Up => LaneStep(s.up, s'.up) && s' == s.(up := s'.up)
    case Down => LaneStep(s.down, s'.down) && s' == s.(down := s'.down)
    case Main => MainStep(s, s')
    case Network =>
      || (Delivers(s.up, s'.up) && s' == s.(up := s'.up))
      || (Delivers(s.down, s'.down) && s' == s.(down := s'.down))
  }

  /** An infinite interleaving; idle turns are deliveries of nothing. */
  ghost predicate IsRun(tr: nat -> State, who: nat -> Actor) {
    forall i: nat :: Step(who(i), tr(i), tr(i + 1))
  }

  // ---- Safety over every interleaving ----

  ghost predicate LaneOk(l: Lane) {
    && l.taken <= |l.arrived|
    && l.written == l.preamble + l.arrived[..l.taken]
    && (!l.open ==> l.phase.Done? || l.cancelled)
    && (l.phase.Done? && !l.cancelled ==> !l.open)
    && (l.phase.Done? && l.phase.reason.AtEof? ==> l.eof && l.taken == |l.arrived|)
  }

  ghost predicate Ok(s: State) {
    && LaneOk(s.up) && LaneOk(s.down)
    && (!s.stage.Waiting? ==>
          && (s.up.phase.Done? || s.up.cancelled)
          && (s.down.phase.Done? || s.down.cancelled))
    && (s.stage.ClosingRemote? || s.stage.Returned? ==> !s.down.open)
    && (s.stage.Returned? ==> !s.up.open)
  }

  lemma ForwardsKeepsOk(l: Lane, l': Lane, n: nat)
    requires LaneOk(l) && l.phase.Reading? && Forwards(l, l', n)
    ensures LaneOk(l')
  {
    assert l.arrived[..l.taken] + l.arrived[l.taken..l.taken + n] == l.arrived[..l.taken + n];
  }

  lemma LaneStepKeepsOk(l: Lane, l': Lane)
    requires LaneOk(l) && LaneStep(l, l')
    ensures LaneOk(l') && l'.preamble == l.preamble
    ensures l.phase.Done? || l.cancelled ==> l'.phase.Done? || l'.cancelled
    ensures !l.open ==> !l'.open
  {
    if !l.cancelled && l.phase.Reading? {
      if n: nat :| Forwards(l, l', n) {
        ForwardsKeepsOk(l, l', n);
      }
    }
  }

  lemma DeliversKeepsOk(l: Lane, l': Lane)
    requires LaneOk(l) && Delivers(l, l')
    ensures LaneOk(l') && l'.preamble == l.preamble
    ensures l'.phase == l.phase && l'.cancelled == l.cancelled && l'.open == l.open
  {
    assert l.arrived[..l.taken] == l'.arrived[..l.taken];
  }

  lemma StepKeepsOk(who: Actor, s: State, s': State)
    requires Ok(s) && Step(who, s, s')
    ensures Ok(s') && s'.up.preamble == s.up.preamble && s'.down.preamble == s.down.preamble
  {
    match who
    case Up => LaneStepKeepsOk(s.up, s'.up);
    case Down => LaneStepKeepsOk(s.down, s'.down);
    case Main =>
    case Network =>
      if Delivers(s.up, s'.up) && s' == s.(up := s'.up) {
        DeliversKeepsOk(s.up, s'.up);
      } else {
        DeliversKeepsOk(s.down, s'.down);
      }
  }

  /** At every point of every run, what a side has been sent is a prefix, in
      order, of what the other side sent; every byte consumed has been written;
      and the client's stream begins with the established line. */
  lemma {:induction false} RelayedIsPrefix(tr: nat -> State, who: nat -> Actor, established: Bytes, early: Bytes, i: nat)
    requires IsRun(tr, who) && tr(0) == Opened(established, early)
    ensures Ok(tr(i))
    ensures tr(i).up.written <= tr(i).up.arrived && |tr(i).up.written| == tr(i).up.taken
    ensures established <= tr(i).down.written
    ensures tr(i).down.written[|established|..] <= tr(i).down.arrived
    ensures |tr(i).down.written| == |established| + tr(i).down.taken
  {
    OkAlways(tr, who, established, early, i);
    var down := tr(i).down;
    assert down.written[|established|..] == down.arrived[..down.taken];
  }

  lemma {:induction false} OkAlways(tr: nat -> State, who: nat -> Actor, established: Bytes, early: Bytes, i: nat)
    requires IsRun(tr, who) && tr(0) == Opened(established, early)
    ensures Ok(tr(i)) && tr(i).up.preamble == [] && tr(i).down.preamble == established
  {
    if i > 0 {
      OkAlways(tr, who, established, early, i - 1);
      assert Step(who(i - 1), tr(i - 1), tr(i - 1 + 1));
      StepKeepsOk(who(i - 1), tr(i - 1), tr(i));
    }
  }

  /** The bytes buffered behind the request header come first. */
  lemma {:induction false} EarlyBytesFirst(tr: nat -> State, who: nat -> Actor, established: Bytes, early: Bytes, i: nat)
    requires IsRun(tr, who) && tr(0) == Opened(established, early)
    ensures early <= tr(i).up.arrived
  {
    if i > 0 {
      EarlyBytesFirst(tr, who, established, early, i - 1);
      assert Step(who(i - 1), tr(i - 1), tr(i - 1 + 1));
    }
  }

  lemma NoWriteAfterClose(who: Actor, s: State, s': State)
    requires Ok(s) && Step(who, s, s')
    ensures !s.up.open ==> s'.up.written == s.up.written && !s'.up.open
    ensures !s.down.open ==> s'.down.written == s.down.written && !s'.down.open
  {
  }

  /** From the moment a writer is closed nothing more is ever written to it. */
  lemma {:induction false} ClosedIsFinal(tr: nat -> State, who: nat -> Actor, established: Bytes, early: Bytes, i: nat, k: nat)
    requires IsRun(tr, who) && tr(0) == Opened(established, early) && i <= k
    ensures !tr(i).up.open ==> !tr(k).up.open && tr(k).up.written == tr(i).up.written
    ensures !tr(i).down.open ==> !tr(k).down.open && tr(k).down.written == tr(i).down.written
    decreases k - i
  {
    if i < k {
      OkAlways(tr, who, established, early, i);
      NoWriteAfterClose(who(i), tr(i), tr(i + 1));
      ClosedIsFinal(tr, who, established, early, i + 1, k);
    }
  }

  /** A direction that ended by itself, not by teardown or an error, lost nothing. */
  lemma CleanEndIsComplete(tr: nat -> State, who: nat -> Actor, established: Bytes, early: Bytes, i: nat)
    requires IsRun(tr, who) && tr(0) == Opened(established, early)
    ensures tr(i).up.phase == Done(AtEof) ==> tr(i).up.written == tr(i).up.arrived
    ensures tr(i).down.phase == Done(AtEof) ==> tr(i).down.written == established + tr(i).down.arrived
  {
    OkAlways(tr, who, established, early, i);
    var up, down := tr(i).up, tr(i).down;
    assert up.arrived[..|up.arrived|] == up.arrived;
    assert down.arrived[..|down.arrived|] == down.arrived;
  }

  // ---- Progress ----

  /** A forwarder that reads while bytes wait can write any number of them, in order,
      up to 65536 at a time. */
  lemma BytesCanBeForwarded(l: Lane, n: nat)
    requires l.phase.Reading? && !l.cancelled && 0 < n <= 65536 && l.taken + n <= |l.arrived|
    ensures LaneStep(l, l.(taken := l.taken + n, phase := Draining,
                           written := l.written + l.arrived[l.taken..l.taken + n]))
  {
    assert Forwards(l, l.(taken := l.taken + n, phase := Draining,
                          written := l.written + l.arrived[l.taken..l.taken + n]), n);
  }

  /** Either peer can send any bytes as long as it has not closed, and can close. */
  lemma PeersCanSend(s: State, more: Bytes)
    ensures !s.up.eof ==> Step(Network, s, s.(up := s.up.(arrived := s.up.arrived + more)))
    ensures !s.down.eof ==> Step(Network, s, s.(down := s.down.(arrived := s.down.arrived + more)))
    ensures Step(Network, s, s.(up := s.up.(eof := true))) && Step(Network, s, s.(down := s.down.(eof := true)))
  {
  }

  /** A new forwarder begins by reading and does nothing else first; one that has written
      can read on. */
  lemma ForwardersReadOn(l: Lane, l': Lane)
    requires !l.cancelled
    ensures l.phase.Fresh? ==> (LaneStep(l, l') <==> l' == l.(phase := Reading))
    ensures l.phase.Draining? ==> LaneStep(l, l.(phase := Reading))
    ensures l.phase.Done? ==> !LaneStep(l, l')
  {
  }

  /** A cancelled forwarder ends at its next turn; it closes its writer unless it had
      never started. */
  lemma CancelledForwarderCloses(l: Lane, l': Lane)
    requires l.cancelled && LaneStep(l, l')
    ensures l'.phase == Done(Cancelled) && l'.written == l.written && l'.taken == l.taken
    ensures l'.open <==> l.open && l.phase.Fresh?
  {
  }

  /** A forwarder that reads can end at the end of its stream, and may fail at any time;
      either way it closes its writer. */
  lemma ForwardersCanEnd(l: Lane)
    requires l.phase.Reading? && !l.cancelled
    ensures l.eof && l.taken == |l.arrived| ==> LaneStep(l, l.(phase := Done(AtEof), open := false))
    ensures LaneStep(l, l.(phase := Done(Failed), open := false))
  {
  }

  /** A forwarder with something to do: start, go on reading, or forward. */
  ghost predicate Ready(l: Lane) {
    l.phase.Fresh? || l.phase.Draining? || (l.phase.Reading? && l.taken < |l.arrived|)
  }

  /** The lane of a forwarder. */
  function LaneOf(s: State, a: Actor): Lane {
    if a == Up then s.up else s.down
  }

  /** From turn `i` on, the forwarder runs at turn `j` or has nothing to do there. */
  ghost predicate TurnOrIdle(tr: nat -> State, who: nat -> Actor, a: Actor, i: nat, j: nat) {
    i <= j && (who(j) == a || !Ready(LaneOf(tr(j), a)))
  }

  ghost predicate GetsTurn(tr: nat -> State, who: nat -> Actor, a: Actor, i: nat) {
    exists j: nat :: TurnOrIdle(tr, who, a, i, j)
  }

  /** The forwarder never ends and is run again whenever it has something to do. */
  ghost predicate KeepsRunning(tr: nat -> State, who: nat -> Actor, a: Actor) {
    && (forall i: nat :: !LaneOf(tr(i), a).phase.Done? && !LaneOf(tr(i), a).cancelled)
    && forall i: nat :: GetsTurn(tr, who, a, i)
  }

  /** Work left until the first `n` bytes are written. */
  function ToDo(l: Lane, n: nat): int {
    2 * (n - l.taken) + if l.phase.Reading? then 0 else 1
  }

  lemma {:induction false} Waits(tr: nat -> State, who: nat -> Actor, a: Actor, i: nat, k: nat)
    requires IsRun(tr, who) && KeepsRunning(tr, who, a) && (a == Up || a == Down) && i <= k
    requires forall t: nat :: i <= t < k ==> who(t) != a
    ensures var l, l' := LaneOf(tr(i), a), LaneOf(tr(k), a);
            l'.taken == l.taken && l'.phase == l.phase && l.arrived <= l'.arrived
    decreases k - i
  {
    if i < k {
      assert Step(who(i), tr(i), tr(i + 1));
      assert !LaneOf(tr(i + 1), a).cancelled;
      Waits(tr, who, a, i + 1, k);
    }
  }

  lemma NextTurn(tr: nat -> State, who: nat -> Actor, a: Actor, i: nat) returns (j: nat)
    requires IsRun(tr, who) && KeepsRunning(tr, who, a) && (a == Up || a == Down) && Ready(LaneOf(tr(i), a))
    ensures i <= j && who(j) == a
    ensures var l, l' := LaneOf(tr(i), a), LaneOf(tr(j), a);
            l'.taken == l.taken && l'.phase == l.phase && l.arrived <= l'.arrived
  {
    assert GetsTurn(tr, who, a, i);
    var limit: nat :| TurnOrIdle(tr, who, a, i, limit);
    j := i;
    while j < limit && who(j) != a
      invariant i <= j <= limit
      invariant forall t: nat :: i <= t < j ==> who(t) != a
      decreases limit - j
    {
      j := j + 1;
    }
    Waits(tr, who, a, i, j);
  }

  /** One turn of a lane with unread bytes does some of the work. */
  lemma TurnWorks(l: Lane, l': Lane, n: nat)
    requires LaneStep(l, l') && !l.cancelled && !l'.phase.Done? && l.taken < n <= |l.arrived|
    ensures l'.arrived == l.arrived && (l'.taken >= n || ToDo(l', n) < ToDo(l, n))
  {
  }

  /** While a forwarder runs on, every byte that has arrived on its side is written to
      the other in the end. */
  lemma {:induction false} EveryByteIsForwarded(
      tr: nat -> State, who: nat -> Actor, established: Bytes, early: Bytes, a: Actor, i: nat, n: nat)
    returns (k: nat)
    requires IsRun(tr, who) && tr(0) == Opened(established, early)
    requires (a == Up || a == Down) && KeepsRunning(tr, who, a)
    requires n <= |LaneOf(tr(i), a).arrived|
    ensures i <= k
    ensures var sent := if a == Up then [] else established;
            sent + LaneOf(tr(i), a).arrived[..n] <= LaneOf(tr(k), a).written
    decreases if LaneOf(tr(i), a).taken >= n then 0 else 1 + ToDo(LaneOf(tr(i), a), n)
  {
    OkAlways(tr, who, established, early, i);
    var l := LaneOf(tr(i), a);
    if l.taken >= n {
      k := i;
      assert l.arrived[..l.taken] == l.arrived[..n] + l.arrived[n..l.taken];
    } else {
      var j := NextTurn(tr, who, a, i);
      assert Step(who(j), tr(j), tr(j + 1));
      assert !LaneOf(tr(j + 1), a).phase.Done? && !LaneOf(tr(j), a).cancelled;
      TurnWorks(LaneOf(tr(j), a), LaneOf(tr(j + 1), a), n);
      k := EveryByteIsForwarded(tr, who, established, early, a, j + 1, n);
      assert l.arrived[..n] == LaneOf(tr(j + 1), a).arrived[..n];
    }
  }

  // ---- Teardown in every fair run ----

  /** Turns the event loop owes: a cancelled task, and the waiter once woken. */
  ghost predicate Owed(who: Actor, s: State) {
    match who
    case Up => s.up.cancelled && !s.up.phase.Done?
    case Down => s.down.cancelled && !s.down.phase.Done?
    case Main => !s.stage.Returned? && (s.up.phase.Done? || s.down.phase.Done?)
    case Network => false
  }

  /** From turn `i` on, `a` runs at turn `j` or is owed nothing there. */
  ghost predicate Served(tr: nat -> State, who: nat -> Actor, a: Actor, i: nat, j: nat) {
    i <= j && (who(j) == a || !Owed(a, tr(j)))
  }

  ghost predicate EventuallyServed(tr: nat -> State, who: nat -> Actor, a: Actor, i: nat) {
    exists j: nat :: Served(tr, who, a, i, j)
  }

  /** Every owed turn is eventually given. Nothing is asked of the network. */
  ghost predicate Fair(tr: nat -> State, who: nat -> Actor) {
    forall a: Actor, i: nat :: EventuallyServed(tr, who, a, i)
  }

  /** What never goes back. */
  lemma StepIsForward(who: Actor, s: State, s': State)
    requires Step(who, s, s')
    ensures s.up.phase.Done? ==> s'.up.phase == s.up.phase
    ensures s.down.phase.Done? ==> s'.down.phase == s.down.phase
    ensures s.up.cancelled ==> s'.up.cancelled
    ensures s.down.cancelled ==> s'.down.cancelled
    ensures who != Main ==> s'.stage == s.stage
    ensures who != Up && s.up.cancelled ==> s'.up.phase == s.up.phase
    ensures who != Down && s.down.cancelled ==> s'.down.phase == s.down.phase
  {
  }

  /** An owed turn stays owed until it is given, so it is given. */
  lemma {:induction false} OwedIsGiven(tr: nat -> State, who: nat -> Actor, a: Actor, i: nat)
    returns (j: nat)
    requires IsRun(tr, who) && Fair(tr, who) && Owed(a, tr(i))
    ensures i <= j && who(j) == a && Owed(a, tr(j))
    ensures a == Main ==> tr(j).stage == tr(i).stage
  {
    assert EventuallyServed(tr, who, a, i);
    var limit: nat :| Served(tr, who, a, i, limit);
    j := i;
    while who(j) != a
      invariant i <= j <= limit && Owed(a, tr(j))
      invariant a == Main ==> tr(j).stage == tr(i).stage
      decreases limit - j
    {
      StepIsForward(who(j), tr(j), tr(j + 1));
      j := j + 1;
    }
  }

  lemma {:induction false} StaysDone(tr: nat -> State, who: nat -> Actor, i: nat, k: nat)
    requires IsRun(tr, who) && i <= k
    ensures tr(i).up.phase.Done? ==> tr(k).up.phase.Done?
    ensures tr(i).down.phase.Done? ==> tr(k).down.phase.Done?
    ensures tr(i).up.cancelled ==> tr(k).up.cancelled
    ensures tr(i).down.cancelled ==> tr(k).down.cancelled
    ensures tr(i).stage.Returned? ==> tr(k).stage.Returned?
    decreases k - i
  {
    if i < k {
      StepIsForward(who(i), tr(i), tr(i + 1));
      StaysDone(tr, who, i + 1, k);
    }
  }

  /** The waiter, once woken, runs to its end. */
  lemma {:induction false} WaiterReturns(tr: nat -> State, who: nat -> Actor, i: nat) returns (j: nat)
    requires IsRun(tr, who) && Fair(tr, who)
    requires tr(i).up.phase.Done? || tr(i).down.phase.Done?
    ensures i <= j && tr(j).stage.Returned?
    decreases match tr(i).stage case Waiting => 3 case ClosingClient => 2 case ClosingRemote => 1 case Returned => 0
  {
    if tr(i).stage.Returned? {
      j := i;
    } else {
      var k := OwedIsGiven(tr, who, Main, i);
      assert Step(who(k), tr(k), tr(k + 1));
      j := WaiterReturns(tr, who, k + 1);
    }
  }

  lemma {:induction false} CancelledEnds(tr: nat -> State, who: nat -> Actor, a: Actor, i: nat) returns (j: nat)
    requires IsRun(tr, who) && Fair(tr, who) && (a == Up || a == Down)
    requires a == Up ==> tr(i).up.phase.Done? || tr(i).up.cancelled
    requires a == Down ==> tr(i).down.phase.Done? || tr(i).down.cancelled
    ensures i <= j
    ensures a == Up ==> tr(j).up.phase.Done?
    ensures a == Down ==> tr(j).down.phase.Done?
  {
    if Owed(a, tr(i)) {
      var k := OwedIsGiven(tr, who, a, i);
      assert Step(who(k), tr(k), tr(k + 1));
      j := k + 1;
    } else {
      j := i;
    }
  }

  /** Both tasks finished and both writers closed. */
  ghost predicate TornDown(s: State) {
    && s.up.phase.Done? && s.down.phase.Done?
    && !s.up.open && !s.down.open
    && s.stage.Returned?
  }

  ghost predicate TornDownFrom(tr: nat -> State, m: nat) {
    forall k: nat :: m <= k ==> TornDown(tr(k))
  }

  /** Once either forwarder has finished, every fair run reaches, and from then
      on stays in, the state where both are finished and both writers closed. */
  lemma {:induction false} TeardownIsInevitable(
      tr: nat -> State, who: nat -> Actor, established: Bytes, early: Bytes, i: nat)
    requires IsRun(tr, who) && Fair(tr, who) && tr(0) == Opened(established, early)
    requires tr(i).up.phase.Done? || tr(i).down.phase.Done?
    ensures exists m: nat :: i <= m && TornDownFrom(tr, m)
  {
    var returned := WaiterReturns(tr, who, i);
    OkAlways(tr, who, established, early, returned);
    var upDone := CancelledEnds(tr, who, Up, returned);
    var downDone := CancelledEnds(tr, who, Down, returned);
    var m := if upDone < downDone then downDone else upDone;
    forall k: nat | m <= k ensures TornDown(tr(k)) {
      StaysDone(tr, who, returned, k);
      StaysDone(tr, who, upDone, k);
      StaysDone(tr, who, downDone, k);
      OkAlways(tr, who, established, early, k);
    }
    assert TornDownFrom(tr, m);
  }
}
