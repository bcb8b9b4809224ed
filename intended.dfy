/** Three places where the code evidently does not do what was meant: two
    handlers that miss the transition their comments describe, and a seed
    timestamp that differs from the other constructor's. For each, a lemma
    exhibiting what the code does, and the corrected rule with the intended
    property proved about it. The class in module Controller keeps the
    behaviour as written. */
module Intended {
  import opened States
  import opened Transitions

  /** The seed as intended: the INIT entry is stamped with the initial
      heartbeat, 0, as `FSM()` does. */
  function Seed(delay: U32, moveCount: int): Machine
  {
    Machine(Init, 0, delay, 0, moveCount, [Entry(Init, 0)])
  }

  /** `performMovement` as its comment describes: below the limit the
      machine returns to IDLE. */
  function IntendedMovement(m: Machine): Machine
  {
    if m.state != Movement then m
    else
      var count := m.moveCount + 1;
      if count >= MoveLimit then m.(moveCount := count, state := Shooting)
      else m.(moveCount := count, state := Idle)
  }

  /** `performErrorHandling` with the transition its comment describes
      restored: at the code's own limit (three or more errors, not the
      comment's "exceeds 3") the machine enters STOPPED, so the `shutdown`
      that follows clears the history. */
  function IntendedErrorHandling(m: Machine): Machine
  {
    if m.state != Error then m
    else
      var count := m.errorCount + 1;
      if count >= ErrorLimit then Shutdown(m.(errorCount := count, state := Stopped))
      else m.(errorCount := count, state := Idle)
  }

  /** `update` with the two corrected handlers; every other handler as written. */
  function IntendedUpdate(m: Machine, t: Tick): Machine
  {
    var h := match m.state
      case Movement => IntendedMovement(m)
      case Error => IntendedErrorHandling(m)
      case _ => Dispatch(m, t);
    Record(h, t.now)
  }

  function IntendedRun(m: Machine, ticks: seq<Tick>): Machine
    decreases |ticks|
  {
    if ticks == [] then m else IntendedRun(IntendedUpdate(m, ticks[0]), ticks[1..])
  }

  // ---------------------------------------------------------------------
  // Movement below the limit

  /** As written, a move that leaves the count below the limit keeps the
      machine in MOVEMENT, where the comment promises IDLE. */
  lemma MovementStaysBelowLimit(m: Machine, t: Tick)
    requires m.state == Movement && m.moveCount == 0
    ensures Update(m, t).state == Movement
    ensures IntendedUpdate(m, t).state == Idle
  {
  }

  /** Corrected: the third move leads to SHOOTING and the first and second
      back to IDLE; either way the count grows by one. */
  lemma IntendedMovementStep(m: Machine, t: Tick)
    requires m.state == Movement
    ensures IntendedUpdate(m, t).moveCount == m.moveCount + 1
    ensures IntendedUpdate(m, t).moveCount >= MoveLimit ==> IntendedUpdate(m, t).state == Shooting
    ensures IntendedUpdate(m, t).moveCount < MoveLimit ==> IntendedUpdate(m, t).state == Idle
    ensures IntendedUpdate(m, t).errorCount == m.errorCount
  {
  }

  // ---------------------------------------------------------------------
  // The error threshold

  /** As written, the third error leaves the machine in ERROR with its
      history kept, and the fourth cycle in ERROR does the same. */
  lemma ErrorThresholdNeverStops(m: Machine, t1: Tick, t2: Tick)
    requires m.state == Error && m.errorCount == ErrorLimit - 1
    ensures Update(m, t1).state == Error
    ensures Update(m, t1).history == m.history + [Entry(Error, t1.now)]
    ensures Update(Update(m, t1), t2).state == Error
    ensures IntendedUpdate(m, t1).state == Stopped
  {
  }

  /** As written, once the error count has reached the limit minus one, a
      machine in ERROR stays in ERROR over every later run. */
  lemma {:induction false} ErrorPastLimitForever(m: Machine, ticks: seq<Tick>)
    requires m.state == Error && m.errorCount >= ErrorLimit - 1
    ensures Run(m, ticks).state == Error
    ensures Run(m, ticks).errorCount == m.errorCount + |ticks|
    decreases |ticks|
  {
    if ticks != [] {
      ErrorStep(m, ticks[0]);
      ErrorPastLimitForever(Update(m, ticks[0]), ticks[1..]);
    }
  }

  /** Corrected: at the limit the cycle ends in STOPPED with only its own
      entry left in the history; below it, back to IDLE. */
  lemma IntendedErrorStep(m: Machine, t: Tick)
    requires m.state == Error
    ensures IntendedUpdate(m, t).errorCount == m.errorCount + 1
    ensures IntendedUpdate(m, t).errorCount >= ErrorLimit ==>
              IntendedUpdate(m, t).state == Stopped &&
              IntendedUpdate(m, t).history == [Entry(Stopped, t.now)]
    ensures IntendedUpdate(m, t).errorCount < ErrorLimit ==> IntendedUpdate(m, t).state == Idle
  {
  }

  /** Corrected: STOPPED is terminal; every later cycle keeps it and leaves
      exactly that cycle's entry in the history. */
  lemma {:induction false} IntendedStoppedIsTerminal(m: Machine, ticks: seq<Tick>)
    requires m.state == Stopped
    ensures IntendedRun(m, ticks).state == Stopped
    ensures ticks != [] ==> IntendedRun(m, ticks).history == [Entry(Stopped, ticks[|ticks| - 1].now)]
    decreases |ticks|
  {
    if ticks != [] {
      var m' := IntendedUpdate(m, ticks[0]);
      assert m'.state == Stopped && m'.history == [Entry(Stopped, ticks[0].now)];
      IntendedStoppedIsTerminal(m', ticks[1..]);
      if |ticks| > 1 {
        assert ticks[1..][|ticks[1..]| - 1] == ticks[|ticks| - 1];
      }
    }
  }

  /** Corrected: in ERROR one error short of the limit, the next cycle
      stops the machine, and after one more the history holds only that
      cycle's STOPPED entry. */
  lemma IntendedErrorThenStopped(m: Machine, t1: Tick, t2: Tick)
    requires m.state == Error && m.errorCount == ErrorLimit - 1
    ensures IntendedRun(m, [t1, t2]).state == Stopped
    ensures IntendedRun(m, [t1, t2]).history == [Entry(Stopped, t2.now)]
  {
    IntendedErrorStep(m, t1);
    IntendedStoppedIsTerminal(IntendedUpdate(m, t1), [t2]);
  }

  // ---------------------------------------------------------------------
  // The seed timestamp

  /** As written, `FSM(5000)` updated at time 10 holds a history whose
      first entry is later than its second, although the clock never went
      backwards. */
  lemma SeedStampBreaksChronology()
    ensures ClockFrom(0, [Tick(10, 10, 10, "")])
    ensures !Chronological(Run(Constructed(5000, 0), [Tick(10, 10, 10, "")]).history)
  {
    var h := Run(Constructed(5000, 0), [Tick(10, 10, 10, "")]).history;
    assert h[0].time == 5000 && h[1].time == 10;
  }

  /** Corrected: from the intended seed, under any monotonic clock, the
      history stays in time order. */
  lemma SeedRunChronological(delay: U32, moveCount: int, ticks: seq<Tick>)
    requires ClockFrom(0, ticks)
    ensures Chronological(Run(Seed(delay, moveCount), ticks).history)
  {
    RunKeepsChronology(Seed(delay, moveCount), 0, ticks);
  }
}
