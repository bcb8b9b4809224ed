/** Values shared by the controller: its states, history entries, a snapshot of
    all its fields, and the external inputs one update cycle consumes. */
module States {

  /** `uint32_t`, the width of timestamps and of the delay. */
  newtype U32 = x: int | 0 <= x < 0x1_0000_0000

  /** The seven controller states (`SystemState`). */
  datatype State = Init | Idle | Movement | Shooting | Calculation | Error | Stopped

  /** The name the status report prints for a state; the console commands
      accepted while idle are four of these names. */
  function StateName(s: State): string
  {
    match s
    case Init => "INIT"
    case Idle => "IDLE"
    case Movement => "MOVEMENT"
    case Shooting => "SHOOTING"
    case Calculation => "CALCULATION"
    case Error => "ERROR"
    case Stopped => "STOPPED"
  }

  /** The states an operator may request while idle. */
  const Selectable: set<State> := {Idle, Movement, Shooting, Calculation}

  /** One `(state, time)` pair of the history. */
  datatype Entry = Entry(state: State, time: U32)

  /** Every field of the controller at one moment. */
  datatype Machine = Machine(
    state: State,
    lastHeartbeat: U32,
    delay: U32,
    errorCount: int,
    moveCount: int,
    history: seq<Entry>)

  /** What one update cycle reads from outside: the clock readings it takes, in
      order, and the console token. `transitionTime` is the reading taken by
      `transitionToState` in INIT, `heartbeatTime` the heartbeat reading in
      INIT and in SHOOTING, `now` the reading `update` takes last. A handler
      that reads no clock ignores the first two; only IDLE reads the token. */
  datatype Tick = Tick(transitionTime: U32, heartbeatTime: U32, now: U32, token: string)

  /** Times are non-decreasing from one history entry to any later one. */
  ghost predicate Chronological(h: seq<Entry>)
  {
    forall i, j :: 0 <= i < j < |h| ==> h[i].time <= h[j].time
  }

  /** No entry of `h` is later than `t`. */
  ghost predicate TimesUpTo(h: seq<Entry>, t: U32)
  {
    forall i :: 0 <= i < |h| ==> h[i].time <= t
  }

  /** A monotonic clock: starting no earlier than `t0`, every reading of every
      tick is no earlier than the one before it. */
  ghost predicate ClockFrom(t0: U32, ticks: seq<Tick>)
    decreases |ticks|
  {
    ticks == [] ||
    (t0 <= ticks[0].transitionTime <= ticks[0].heartbeatTime <= ticks[0].now &&
     ClockFrom(ticks[0].now, ticks[1..]))
  }
}
