/**
  The epoch protocol of `src/plugins/sandbox.rs`: any number of concurrent runs share one engine-wide epoch counter,
  and a process-wide lock held from arming the deadline to joining the ticker keeps their timeouts apart.
 */
module Sandbox {
  import opened Common

  // -------------------------------------------------------------- machine

  /** Where one call of `run` stands. */
  datatype Phase =
    | Compiling      // before the lock: module compiled, store and linker built
    | Locked         // holds the lock, deadline not set yet
    | Armed          // deadline set one tick out; instantiation, input setup, lookup of the entry point
    | Calling        // ticker spawned, guest executing
    | Returned       // guest returned or trapped; done signal not sent yet
    | Signalled      // done signal sent, ticker not joined yet
    | Joined         // ticker joined, lock still held
    | Finished       // lock released

  /** The thread a run spawns to enforce its timeout. */
  datatype Ticker = NoTicker | Waiting | TimedOut | Exited

  /** `interrupted`: the guest trapped on the epoch deadline; `fired`: this run's ticker moved the epoch. */
  datatype Call = Call(phase: Phase, deadline: nat, ticker: Ticker, timedOut: bool, fired: bool, interrupted: bool)

  const FRESH := Call(Compiling, 0, NoTicker, false, false, false)

  datatype State = State(epoch: nat, lock: Option<nat>, calls: map<nat, Call>)

  const START := State(0, None, map[])

  datatype Step =
    | Enter(id: nat)          // a new call of `run`
    | Refuse(id: nat)         // compilation or linking failed before the lock
    | Lock(id: nat)
    | Arm(id: nat)            // `set_epoch_deadline(1)`
    | SetupTrap(id: nat)      // instantiation reaches an epoch check past the deadline
    | SetupFail(id: nat)      // instantiation, input or entry point fails for another reason
    | Spawn(id: nat)          // the ticker starts and the guest is called
    | GuestTrap(id: nat)      // the guest reaches an epoch check past the deadline
    | GuestEnd(id: nat)       // the guest returns, or traps for another reason
    | Signal(id: nat)         // `done_tx.send(())`
    | TickTimeout(id: nat)    // the ticker's wait ends with an error: the timeout elapsed
    | TickFire(id: nat)       // the ticker increments the engine's epoch and exits
    | TickDone(id: nat)       // the ticker receives the signal and exits
    | Join(id: nat)
    | Unlock(id: nat)         // the guard is dropped at the end of `run`

  /** The run is at this phase. */
  predicate At(s: State, id: nat, p: Phase) { id in s.calls && s.calls[id].phase == p }

  predicate TickerIs(s: State, id: nat, t: Ticker) { id in s.calls && s.calls[id].ticker == t }

  /** The step is possible now. Only acquiring the lock looks at what other runs do. */
  predicate Enabled(s: State, step: Step) {
    match step
    case Enter(id) => id !in s.calls
    case Refuse(id) => At(s, id, Compiling)
    case Lock(id) => At(s, id, Compiling) && s.lock.None?
    case Arm(id) => At(s, id, Locked)
    case SetupTrap(id) => At(s, id, Armed) && s.epoch >= s.calls[id].deadline
    case SetupFail(id) => At(s, id, Armed)
    case Spawn(id) => At(s, id, Armed)
    case GuestTrap(id) => At(s, id, Calling) && s.epoch >= s.calls[id].deadline
    case GuestEnd(id) => At(s, id, Calling)
    case Signal(id) => At(s, id, Returned)
    case TickTimeout(id) => TickerIs(s, id, Waiting)
    case TickFire(id) => TickerIs(s, id, TimedOut)
    case TickDone(id) => TickerIs(s, id, Waiting) && At(s, id, Signalled)
    case Join(id) => At(s, id, Signalled) && TickerIs(s, id, Exited)
    case Unlock(id) => At(s, id, Joined)
  }

  function Next(s: State, step: Step): State
    requires Enabled(s, step)
  {
    match step
    case Enter(id) => s.(calls := s.calls[id := FRESH])
    case Refuse(id) => s.(calls := s.calls[id := s.calls[id].(phase := Finished)])
    case Lock(id) => s.(lock := Some(id), calls := s.calls[id := s.calls[id].(phase := Locked)])
    case Arm(id) => s.(calls := s.calls[id := s.calls[id].(phase := Armed, deadline := s.epoch + 1)])
    case SetupTrap(id) => s.(lock := None, calls := s.calls[id := s.calls[id].(phase := Finished, interrupted := true)])
    case SetupFail(id) => s.(lock := None, calls := s.calls[id := s.calls[id].(phase := Finished)])
    case Spawn(id) => s.(calls := s.calls[id := s.calls[id].(phase := Calling, ticker := Waiting)])
    case GuestTrap(id) => s.(calls := s.calls[id := s.calls[id].(phase := Returned, interrupted := true)])
    case GuestEnd(id) => s.(calls := s.calls[id := s.calls[id].(phase := Returned)])
    case Signal(id) => s.(calls := s.calls[id := s.calls[id].(phase := Signalled)])
    case TickTimeout(id) => s.(calls := s.calls[id := s.calls[id].(ticker := TimedOut, timedOut := true)])
    case TickFire(id) => s.(epoch := s.epoch + 1, calls := s.calls[id := s.calls[id].(ticker := Exited, fired := true)])
    case TickDone(id) => s.(calls := s.calls[id := s.calls[id].(ticker := Exited)])
    case Join(id) => s.(calls := s.calls[id := s.calls[id].(phase := Joined)])
    case Unlock(id) => s.(lock := None, calls := s.calls[id := s.calls[id].(phase := Finished)])
  }

  /** Every step of the sequence is possible when its turn comes. */
  predicate Possible(steps: seq<Step>)
    decreases |steps|, 0
  {
    steps == [] ||
    (Possible(steps[..|steps| - 1]) && Enabled(After(steps[..|steps| - 1]), steps[|steps| - 1]))
  }

  function After(steps: seq<Step>): State
    requires Possible(steps)
    decreases |steps|, 1
  {
    if steps == [] then START else Next(After(steps[..|steps| - 1]), steps[|steps| - 1])
  }

  // ------------------------------------------------------------ invariant

  predicate Holding(c: Call) { c.phase !in {Compiling, Finished} }

  predicate DeadlineSet(c: Call) { c.phase !in {Compiling, Locked, Finished} }

  predicate Alive(c: Call) { c.ticker == Waiting || c.ticker == TimedOut }

  /** What holds of every single run, given the global epoch. */
  ghost predicate CallOk(c: Call, epoch: nat) {
    && (Alive(c) ==> c.phase in {Calling, Returned, Signalled})
    && (c.phase in {Compiling, Locked, Armed} ==> c.ticker == NoTicker)
    && (c.ticker == NoTicker ==> c.phase in {Compiling, Locked, Armed, Finished})
    && (c.fired ==> c.timedOut) && (c.ticker == TimedOut ==> c.timedOut && !c.fired)
    && (c.ticker in {NoTicker, Waiting} ==> !c.timedOut) && (c.ticker == Exited && c.timedOut ==> c.fired)
    && (c.interrupted ==> c.fired)
    && (DeadlineSet(c) ==> epoch == if c.fired then c.deadline else c.deadline - 1)
    && (DeadlineSet(c) ==> 0 < c.deadline)
  }

  ghost predicate Isolated(s: State) {
    && (forall id :: id in s.calls ==> CallOk(s.calls[id], s.epoch))
    && (forall id :: id in s.calls ==> (Holding(s.calls[id]) <==> s.lock == Some(id)))
    && (s.lock.Some? ==> s.lock.value in s.calls)
  }

  /** A step changes one run's record; the epoch moves only when the lock holder's ticker fires. */
  lemma StepKeepsIsolation(s: State, step: Step)
    requires Isolated(s) && Enabled(s, step)
    ensures Isolated(Next(s, step))
  {
    var after := Next(s, step);
    var id := step.id;
    forall other | other in after.calls
      ensures CallOk(after.calls[other], after.epoch)
      ensures Holding(after.calls[other]) <==> after.lock == Some(other)
    {
      if other != id {
        assert after.calls[other] == s.calls[other];
        if step.TickFire? { FiringHoldsLock(s, id, other); }
      } else {
        OwnStep(s, step);
      }
    }
  }

  /** A ticker that is about to move the epoch belongs to the lock holder, so no other deadline is set. */
  lemma FiringHoldsLock(s: State, id: nat, other: nat)
    requires Isolated(s) && TickerIs(s, id, TimedOut) && other in s.calls && other != id
    ensures s.lock == Some(id) && !DeadlineSet(s.calls[other])
  {
    assert CallOk(s.calls[id], s.epoch);
  }

  lemma OwnStep(s: State, step: Step)
    requires Isolated(s) && Enabled(s, step)
    ensures var after := Next(s, step);
            && CallOk(after.calls[step.id], after.epoch)
            && (Holding(after.calls[step.id]) <==> after.lock == Some(step.id))
  {
    if step.id in s.calls { assert CallOk(s.calls[step.id], s.epoch); }
  }

  lemma {:induction false} IsolatedAfter(steps: seq<Step>)
    requires Possible(steps)
    ensures Isolated(After(steps))
  {
    if steps != [] {
      var front := steps[..|steps| - 1];
      IsolatedAfter(front);
      StepKeepsIsolation(After(front), steps[|steps| - 1]);
    }
  }

  // -------------------------------------------------------------- theorem

  /**
    Epoch isolation, in every interleaving of any number of runs: a ticker is alive only while its own run holds the
    lock; at most one deadline is set at a time; it is reached exactly when that run's own ticker has fired, so never
    before the ticker starts; and a run that was interrupted had timed out itself.
   */
  lemma EpochIsolation(steps: seq<Step>)
    requires Possible(steps)
    ensures var s := After(steps);
            && (forall id :: id in s.calls && Alive(s.calls[id]) ==> s.lock == Some(id))
            && (forall i, j :: i in s.calls && j in s.calls && DeadlineSet(s.calls[i]) && DeadlineSet(s.calls[j]) ==>
                 i == j)
            && (forall id :: id in s.calls && DeadlineSet(s.calls[id]) ==>
                  (s.epoch >= s.calls[id].deadline <==> s.calls[id].fired))
            && (forall id :: id in s.calls && s.calls[id].fired ==> s.calls[id].timedOut)
            && (forall id :: id in s.calls && s.calls[id].interrupted ==> s.calls[id].fired)
  {
    IsolatedAfter(steps);
    var s := After(steps);
    forall id | id in s.calls ensures CallOk(s.calls[id], s.epoch) {}
    forall i, j | i in s.calls && j in s.calls && DeadlineSet(s.calls[i]) && DeadlineSet(s.calls[j]) ensures i == j {
      assert s.lock == Some(i) && s.lock == Some(j);
    }
  }

  /** Setup is never interrupted: the trap before the ticker starts is never possible. */
  lemma NoTrapDuringSetup(steps: seq<Step>, id: nat)
    requires Possible(steps)
    ensures !Enabled(After(steps), SetupTrap(id))
  {
    IsolatedAfter(steps);
    var s := After(steps);
    if id in s.calls { assert CallOk(s.calls[id], s.epoch); }
  }

  /** While a guest executes, it can be interrupted exactly from the moment its own ticker fired. */
  lemma TrapExactlyAfterOwnTimeout(steps: seq<Step>, id: nat)
    requires Possible(steps) && At(After(steps), id, Calling)
    ensures Enabled(After(steps), GuestTrap(id)) <==> After(steps).calls[id].fired
  {
    IsolatedAfter(steps);
    assert CallOk(After(steps).calls[id], After(steps).epoch);
  }

  /** The protocol cannot block: the lock holder, or its ticker, can always take a step. */
  lemma HolderCanMove(steps: seq<Step>)
    requires Possible(steps) && After(steps).lock.Some?
    ensures var s := After(steps);
            var id := s.lock.value;
            id in s.calls && exists step: Step :: step.id == id && !step.TickTimeout? && Enabled(s, step)
  {
    IsolatedAfter(steps);
    var s := After(steps);
    var id := s.lock.value;
    var c := s.calls[id];
    assert Holding(c) && CallOk(c, s.epoch);
    var step :=
      match c.phase
      case Locked => Arm(id)
      case Armed => Spawn(id)
      case Calling => GuestEnd(id)
      case Returned => Signal(id)
      case Joined => Unlock(id)
      case _ => if c.ticker == Waiting then TickDone(id) else if c.ticker == TimedOut then TickFire(id) else Join(id);
    assert Enabled(s, step);
  }

  // ------------------------------------------------------------- progress

  function PhaseRank(p: Phase): nat {
    match p
    case Locked => 6
    case Armed => 5
    case Calling => 4
    case Returned => 3
    case Signalled => 2
    case Joined => 1
    case _ => 0
  }

  function TickerRank(t: Ticker): nat {
    match t
    case NoTicker => 2
    case Waiting => 2
    case TimedOut => 1
    case Exited => 0
  }

  /** An upper bound on the steps a lock holder and its ticker still take. */
  function Rank(c: Call): nat { PhaseRank(c.phase) + TickerRank(c.ticker) }

  /** Every step of the holder or its ticker frees the lock or comes closer to it; steps of others change neither. */
  lemma StepLowersRank(s: State, step: Step, id: nat)
    requires Isolated(s) && Enabled(s, step) && s.lock == Some(id) && id in s.calls
    ensures step.id == id ==>
              var after := Next(s, step);
              after.lock.None? || (id in after.calls && Rank(after.calls[id]) < Rank(s.calls[id]))
    ensures step.id != id ==>
              var after := Next(s, step); after.lock == Some(id) && id in after.calls && after.calls[id] == s.calls[id]
  {
    assert CallOk(s.calls[id], s.epoch);
    if step.id in s.calls { assert CallOk(s.calls[step.id], s.epoch); }
  }

  /** Steps taken by one run and its ticker. */
  function StepsBy(steps: seq<Step>, id: nat): nat {
    if steps == [] then 0
    else StepsBy(steps[..|steps| - 1], id) + if steps[|steps| - 1].id == id then 1 else 0
  }

  lemma PossibleFront(front: seq<Step>, more: seq<Step>)
    requires Possible(front + more) && more != []
    ensures Possible(front + more[..|more| - 1])
    ensures var before := front + more[..|more| - 1];
            Enabled(After(before), more[|more| - 1]) && After(front + more) == Next(After(before), more[|more| - 1])
  {
    assert (front + more)[..|front + more| - 1] == front + more[..|more| - 1];
  }

  /** The run holds the lock after `front` and after each of `more`. */
  ghost predicate Held(front: seq<Step>, more: seq<Step>, id: nat)
    requires Possible(front + more)
    decreases |more|
  {
    && After(front + more).lock == Some(id)
    && (more == [] || (PossibleFront(front, more); Held(front, more[..|more| - 1], id)))
  }

  /**
    In every interleaving, while a run holds the lock it and its ticker take at most eight steps, whatever the others
    do; `HolderCanMove` says one of these is always possible.
   */
  lemma {:induction false} LockHeldBriefly(front: seq<Step>, more: seq<Step>, id: nat)
    requires Possible(front + more) && Held(front, more, id)
    ensures id in After(front + more).calls && StepsBy(more, id) + Rank(After(front + more).calls[id]) <= 8
    decreases |more|
  {
    IsolatedAfter(front + more);
    if more == [] {
      assert CallOk(After(front + more).calls[id], After(front + more).epoch);
    } else {
      PossibleFront(front, more);
      var before := front + more[..|more| - 1];
      LockHeldBriefly(front, more[..|more| - 1], id);
      IsolatedAfter(before);
      hide Isolated, Enabled, Next, Rank, After, Possible;
      StepLowersRank(After(before), more[|more| - 1], id);
    }
  }

  // ------------------------------------------------------------- output

  const MAX_OUTPUT_BYTES: nat := 8 * 1024 * 1024

  /** `usize` on the 64-bit targets the sandbox runs on. */
  const USIZE_MAX: nat := U64_MAX

  datatype WriteError =
    | NoMemory
    | NegativePointer
    | NegativeLength
    | PointerOverflow
    | OutOfBounds
    | SizeOverflow
    | OutputLimit

  class StoreData {
    var stdout: seq<bv8>

    constructor ()
      ensures stdout == []
    {
      stdout := [];
    }

    /** Appends the slice, or fails and leaves the output as it was; the limit is never passed. */
    method WriteOut(memory: Option<seq<bv8>>, ptr: int, len: int) returns (r: Option<WriteError>)
      requires |stdout| <= MAX_OUTPUT_BYTES
      modifies this
      ensures |stdout| <= MAX_OUTPUT_BYTES
      ensures r == Some(NoMemory) <==> memory.None?
      ensures r == Some(NegativePointer) <==> memory.Some? && ptr < 0
      ensures r == Some(NegativeLength) <==> memory.Some? && ptr >= 0 && len < 0
      ensures r == Some(PointerOverflow) <==> memory.Some? && ptr >= 0 && len >= 0 && ptr + len > USIZE_MAX
      ensures r == Some(OutOfBounds) <==>
                memory.Some? && ptr >= 0 && len >= 0 && |memory.value| < ptr + len <= USIZE_MAX
      ensures r.None? <==>
                && memory.Some? && ptr >= 0 && len >= 0 && ptr + len <= |memory.value| && ptr + len <= USIZE_MAX
                && |old(stdout)| + len <= 8_388_608
      ensures r == Some(SizeOverflow) ==> |old(stdout)| + len > USIZE_MAX
      ensures r == Some(OutputLimit) ==> |old(stdout)| + len <= USIZE_MAX
      ensures r.None? ==> stdout == old(stdout) + memory.value[ptr..ptr + len]
      ensures r.Some? ==> stdout == old(stdout)
    {
      if memory.None? { return Some(NoMemory); }
      if ptr < 0 { return Some(NegativePointer); }
      if len < 0 { return Some(NegativeLength); }
      var end := ptr + len;
      if end > USIZE_MAX { return Some(PointerOverflow); }
      if end > |memory.value| { return Some(OutOfBounds); }
      var bytes := memory.value[ptr..end];
      var outputEnd := |stdout| + |bytes|;
      if outputEnd > USIZE_MAX { return Some(SizeOverflow); }
      if outputEnd > MAX_OUTPUT_BYTES { return Some(OutputLimit); }
      stdout := stdout + bytes;
      r := None;
    }
  }
}
