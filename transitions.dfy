/** The transition rules of the controller as functions on snapshots, one per
    handler of `FSM`, followed by what they promise for one update cycle and for
    a run of many. The class in module Controller is proved to follow them. */
module Transitions {
  import opened States

  /** The delay INIT installs. */
  const InitDelay: U32 := 1000
  /** The move count at which MOVEMENT hands over to SHOOTING. */
  const MoveLimit := 3
  /** The error count at which ERROR calls shutdown. */
  const ErrorLimit := 3

  /** The machine `FSM(delay)` builds, given the move count it leaves
      uninitialised: the seed INIT entry is stamped with the delay. */
  function Constructed(delay: U32, moveCount: int): Machine
  {
    Machine(Init, 0, delay, 0, moveCount, [Entry(Init, delay)])
  }

  /** `transitionToState`: enter `s` and log it at `time`. */
  function TransitionTo(m: Machine, s: State, time: U32): Machine
  {
    m.(state := s, history := m.history + [Entry(s, time)])
  }

  /** `performInit`: delay 1000, transition to IDLE (logged at the first clock
      reading), heartbeat set to the second reading. Acts only in INIT. */
  function PerformInit(m: Machine, transitionTime: U32, heartbeatTime: U32): Machine
  {
    if m.state == Init then
      TransitionTo(m.(delay := InitDelay), Idle, transitionTime).(lastHeartbeat := heartbeatTime)
    else m
  }

  /** `performProcess`: the console token, compared case-sensitively, picks the
      next state; any other token leaves the machine as it is. */
  function PerformProcess(m: Machine, token: string): Machine
  {
    if m.state != Idle then m
    else if token == "IDLE" then m.(state := Idle)
    else if token == "MOVEMENT" then m.(state := Movement)
    else if token == "SHOOTING" then m.(state := Shooting)
    else if token == "CALCULATION" then m.(state := Calculation)
    else m
  }

  /** `performMovement` as written: one more move; SHOOTING once the count
      reaches the limit, otherwise the state is left as it is (the IDLE in the
      else branch is an expression statement whose value is discarded). */
  function PerformMovement(m: Machine): Machine
  {
    if m.state != Movement then m
    else
      var count := m.moveCount + 1;
      if count >= MoveLimit then m.(moveCount := count, state := Shooting)
      else m.(moveCount := count)
  }

  /** `performShooting`: the move count goes back to 0, the state to IDLE and
      the heartbeat to the clock reading. */
  function PerformShooting(m: Machine, heartbeatTime: U32): Machine
  {
    if m.state == Shooting then
      m.(moveCount := 0, state := Idle, lastHeartbeat := heartbeatTime)
    else m
  }

  /** `performCalculation`: no moves yet is an error, some moves return to
      IDLE; a negative count (possible only through `setMoveCount`) matches
      neither branch. */
  function PerformCalculation(m: Machine): Machine
  {
    if m.state != Calculation then m
    else if m.moveCount == 0 then m.(state := Error)
    else if m.moveCount > 0 then m.(state := Idle)
    else m
  }

  /** `shutdown`: clears the history, but only when already STOPPED. */
  function Shutdown(m: Machine): Machine
  {
    if m.state == Stopped then m.(history := []) else m
  }

  /** `performErrorHandling` as written: one more error; below the limit back
      to IDLE, at the limit `shutdown`, which does nothing in ERROR. */
  function PerformErrorHandling(m: Machine): Machine
  {
    if m.state != Error then m
    else
      var count := m.errorCount + 1;
      if count >= ErrorLimit then Shutdown(m.(errorCount := count))
      else m.(errorCount := count, state := Idle)
  }

  /** The handler `update` selects for the current state. */
  function Dispatch(m: Machine, t: Tick): Machine
  {
    match m.state
    case Init => PerformInit(m, t.transitionTime, t.heartbeatTime)
    case Idle => PerformProcess(m, t.token)
    case Movement => PerformMovement(m)
    case Shooting => PerformShooting(m, t.heartbeatTime)
    case Calculation => PerformCalculation(m)
    case Error => PerformErrorHandling(m)
    case Stopped => Shutdown(m)
  }

  /** The tail of `update`: heartbeat to `now`, and `(state, now)` logged. */
  function Record(m: Machine, now: U32): Machine
  {
    m.(lastHeartbeat := now, history := m.history + [Entry(m.state, now)])
  }

  /** `update`: one cycle of the controller. */
  function Update(m: Machine, t: Tick): Machine
  {
    Record(Dispatch(m, t), t.now)
  }

  /** Successive `update` calls, one per tick. */
  function Run(m: Machine, ticks: seq<Tick>): Machine
    decreases |ticks|
  {
    if ticks == [] then m else Run(Update(m, ticks[0]), ticks[1..])
  }

  // ---------------------------------------------------------------------
  // One update cycle, by the state it starts in

  /** From every state but INIT and STOPPED, a cycle logs exactly one entry,
      the state the handler left, at `now`, and refreshes the heartbeat; it
      never enters INIT or STOPPED and never changes the delay. */
  lemma UpdateAppendsOne(m: Machine, t: Tick)
    requires m.state != Init && m.state != Stopped
    ensures Update(m, t).history == m.history + [Entry(Update(m, t).state, t.now)]
    ensures Update(m, t).lastHeartbeat == t.now
    ensures Update(m, t).delay == m.delay
    ensures Update(m, t).state != Init && Update(m, t).state != Stopped
  {
  }

  /** From INIT a cycle ends in IDLE with delay 1000 and logs two IDLE
      entries: the transition's and the cycle's own. */
  lemma UpdateFromInit(m: Machine, t: Tick)
    requires m.state == Init
    ensures Update(m, t).state == Idle
    ensures Update(m, t).delay == InitDelay
    ensures Update(m, t).history == m.history + [Entry(Idle, t.transitionTime), Entry(Idle, t.now)]
    ensures Update(m, t).lastHeartbeat == t.now
    ensures Update(m, t).errorCount == m.errorCount && Update(m, t).moveCount == m.moveCount
  {
  }

  /** From STOPPED a cycle discards the history: afterwards it holds the one
      entry of this cycle. Nothing else but the heartbeat changes. */
  lemma UpdateFromStopped(m: Machine, t: Tick)
    requires m.state == Stopped
    ensures Update(m, t) == m.(lastHeartbeat := t.now, history := [Entry(Stopped, t.now)])
  {
  }

  /** In IDLE the token selects the state it names, and only a selectable
      state's name does so; anything else keeps IDLE. No counter changes. */
  lemma IdleFollowsToken(m: Machine, t: Tick)
    requires m.state == Idle
    ensures Update(m, t).state in Selectable
    ensures forall s :: s in Selectable && t.token == StateName(s) ==> Update(m, t).state == s
    ensures Update(m, t).state != Idle ==> t.token == StateName(Update(m, t).state)
    ensures (forall s :: s in Selectable ==> t.token != StateName(s)) ==> Update(m, t).state == Idle
    ensures Update(m, t).moveCount == m.moveCount && Update(m, t).errorCount == m.errorCount
    ensures Update(m, t).delay == m.delay
  {
  }

  /** In MOVEMENT the move count grows by exactly one; at the limit the next
      state is SHOOTING, below it the state stays MOVEMENT. */
  lemma MovementStep(m: Machine, t: Tick)
    requires m.state == Movement
    ensures Update(m, t).moveCount == m.moveCount + 1
    ensures Update(m, t).moveCount >= MoveLimit ==> Update(m, t).state == Shooting
    ensures Update(m, t).moveCount < MoveLimit ==> Update(m, t).state == Movement
    ensures Update(m, t).errorCount == m.errorCount
  {
  }

  /** In SHOOTING the move count is reset and the machine returns to IDLE. */
  lemma ShootingStep(m: Machine, t: Tick)
    requires m.state == Shooting
    ensures Update(m, t).moveCount == 0 && Update(m, t).state == Idle
    ensures Update(m, t).errorCount == m.errorCount
  {
  }

  /** In CALCULATION no moves lead to ERROR, some moves to IDLE, and a
      negative count keeps CALCULATION; no counter changes. */
  lemma CalculationStep(m: Machine, t: Tick)
    requires m.state == Calculation
    ensures m.moveCount == 0 ==> Update(m, t).state == Error
    ensures m.moveCount > 0 ==> Update(m, t).state == Idle
    ensures m.moveCount < 0 ==> Update(m, t).state == Calculation
    ensures Update(m, t).moveCount == m.moveCount && Update(m, t).errorCount == m.errorCount
  {
  }

  /** In ERROR the error count grows by exactly one; below the limit the
      machine returns to IDLE, at the limit it stays in ERROR and the history
      is kept, since `shutdown` acts only in STOPPED. */
  lemma ErrorStep(m: Machine, t: Tick)
    requires m.state == Error
    ensures Update(m, t).errorCount == m.errorCount + 1
    ensures Update(m, t).moveCount == m.moveCount
    ensures Update(m, t).errorCount < ErrorLimit ==> Update(m, t).state == Idle
    ensures Update(m, t).errorCount >= ErrorLimit ==>
              Update(m, t).state == Error && Update(m, t).history == m.history + [Entry(Error, t.now)]
  {
  }

  /** The error count changes only in ERROR, by one; the delay only in INIT. */
  lemma CountersFrame(m: Machine, t: Tick)
    ensures Update(m, t).errorCount == m.errorCount + (if m.state == Error then 1 else 0)
    ensures Update(m, t).delay == (if m.state == Init then InitDelay else m.delay)
  {
  }

  // ---------------------------------------------------------------------
  // Runs of many cycles

  /** No handler ever selects STOPPED: no run of `update` cycles takes a
      machine not yet stopped into STOPPED, whatever the clock and the
      console supply. Only a direct `transitionToState(STOPPED)` can. */
  lemma {:induction false} RunNeverStops(m: Machine, ticks: seq<Tick>)
    requires m.state != Stopped
    ensures Run(m, ticks).state != Stopped
    decreases |ticks|
  {
    if ticks != [] {
      RunNeverStops(Update(m, ticks[0]), ticks[1..]);
    }
  }

  /** The history is append-only: it keeps every earlier entry in place and
      grows by one entry per cycle, plus one for the transition INIT logs. */
  lemma {:induction false} RunAppendOnly(m: Machine, ticks: seq<Tick>)
    requires m.state != Stopped
    ensures |Run(m, ticks).history| ==
              |m.history| + |ticks| + (if m.state == Init && ticks != [] then 1 else 0)
    ensures Run(m, ticks).history[..|m.history|] == m.history
    decreases |ticks|
  {
    if ticks != [] {
      var m' := Update(m, ticks[0]);
      assert m'.state != Init && m'.state != Stopped;
      assert m'.history[..|m.history|] == m.history;
      RunAppendOnly(m', ticks[1..]);
      var h := Run(m, ticks).history;
      assert h[..|m'.history|] == m'.history;
      assert h[..|m.history|] == h[..|m'.history|][..|m.history|];
    }
  }

  /** A machine built by `FSM(delay)` and updated n > 0 times holds n + 2
      entries, the seed still first, and is not stopped. */
  lemma ConstructedRun(delay: U32, moveCount: int, ticks: seq<Tick>)
    requires ticks != []
    ensures |Run(Constructed(delay, moveCount), ticks).history| == |ticks| + 2
    ensures Run(Constructed(delay, moveCount), ticks).history[0] == Entry(Init, delay)
    ensures Run(Constructed(delay, moveCount), ticks).state != Stopped
  {
    var m := Constructed(delay, moveCount);
    RunAppendOnly(m, ticks);
    RunNeverStops(m, ticks);
    assert Run(m, ticks).history[..1][0] == Run(m, ticks).history[0];
  }

  /** Over a run the error count never falls and grows by at most one per
      cycle. */
  lemma {:induction false} RunErrorCountBounds(m: Machine, ticks: seq<Tick>)
    ensures m.errorCount <= Run(m, ticks).errorCount <= m.errorCount + |ticks|
    decreases |ticks|
  {
    if ticks != [] {
      CountersFrame(m, ticks[0]);
      RunErrorCountBounds(Update(m, ticks[0]), ticks[1..]);
    }
  }

  /** The move count stays within 0..3, and is 3 only in SHOOTING. */
  ghost predicate MovesInRange(m: Machine)
  {
    0 <= m.moveCount <= MoveLimit && (m.moveCount == MoveLimit ==> m.state == Shooting)
  }

  /** One cycle keeps the move count in range. */
  lemma UpdateKeepsMovesInRange(m: Machine, t: Tick)
    requires MovesInRange(m)
    ensures MovesInRange(Update(m, t))
  {
  }

  /** Every run keeps the move count in range. */
  lemma {:induction false} RunKeepsMovesInRange(m: Machine, ticks: seq<Tick>)
    requires MovesInRange(m)
    ensures MovesInRange(Run(m, ticks))
    decreases |ticks|
  {
    if ticks != [] {
      UpdateKeepsMovesInRange(m, ticks[0]);
      RunKeepsMovesInRange(Update(m, ticks[0]), ticks[1..]);
    }
  }

  /** Under a monotonic clock one cycle keeps the history in time order and
      its entries no later than the cycle's final reading. */
  lemma UpdateKeepsChronology(m: Machine, t0: U32, t: Tick)
    requires Chronological(m.history) && TimesUpTo(m.history, t0)
    requires t0 <= t.transitionTime <= t.heartbeatTime <= t.now
    ensures Chronological(Update(m, t).history) && TimesUpTo(Update(m, t).history, t.now)
  {
  }

  /** Under a monotonic clock, a history in time order stays in time order
      over any run, and the heartbeat never goes backwards. */
  lemma {:induction false} RunKeepsChronology(m: Machine, t0: U32, ticks: seq<Tick>)
    requires Chronological(m.history) && TimesUpTo(m.history, t0)
    requires m.lastHeartbeat <= t0
    requires ClockFrom(t0, ticks)
    ensures Chronological(Run(m, ticks).history)
    ensures m.lastHeartbeat <= Run(m, ticks).lastHeartbeat
    decreases |ticks|
  {
    if ticks != [] {
      UpdateKeepsChronology(m, t0, ticks[0]);
      RunKeepsChronology(Update(m, ticks[0]), ticks[0].now, ticks[1..]);
    }
  }
}
