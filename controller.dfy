/** The `FSM` class: its fields, constructors, accessors and handlers, each
    handler proved to change the fields exactly as the matching rule of module
    Transitions says. Clock readings and the console token are parameters. */
module Controller {
  import opened States
  import Transitions

  class FSM {
    var currentState: State
    var lastHeartbeat: U32
    var delay: U32
    var errorCount: int
    var stateHistory: seq<Entry>
    var moveCount: int

    /** All fields as one value. */
    function Snapshot(): Machine
      reads this
    {
      Machine(currentState, lastHeartbeat, delay, errorCount, moveCount, stateHistory)
    }

    /** `FSM()`: INIT, heartbeat and error count 0, history `[(INIT, 0)]`.
        The delay and the move count are left uninitialised, so nothing is
        promised about them. */
    constructor ()
      ensures currentState == Init && lastHeartbeat == 0 && errorCount == 0
      ensures stateHistory == [Entry(Init, 0)]
    {
      currentState := Init;
      lastHeartbeat := 0;
      errorCount := 0;
      stateHistory := [Entry(Init, 0)];
    }

    /** `FSM(delay)`: as `FSM()` but with the given delay, and the seed
        entry is stamped with the delay rather than with 0. The move count is
        left uninitialised. */
    constructor WithDelay(delay: U32)
      ensures currentState == Init && lastHeartbeat == 0 && errorCount == 0
      ensures this.delay == delay
      ensures stateHistory == [Entry(Init, delay)]
      ensures Snapshot() == Transitions.Constructed(delay, moveCount)
    {
      currentState := Init;
      lastHeartbeat := 0;
      errorCount := 0;
      this.delay := delay;
      stateHistory := [Entry(Init, delay)];
    }

    function GetCurrentState(): State
      reads this
    {
      currentState
    }

    function GetDelay(): U32
      reads this
    {
      delay
    }

    function GetErrorCount(): int
      reads this
    {
      errorCount
    }

    function GetMoveCount(): int
      reads this
    {
      moveCount
    }

    function GetLastHeartbeat(): U32
      reads this
    {
      lastHeartbeat
    }

    /** A copy of the history. */
    function GetStateHistory(): seq<Entry>
      reads this
    {
      stateHistory
    }

    /** Enter `newState` and log it at `time`; earlier entries stay as they
        were and nothing else changes. */
    method TransitionToState(newState: State, time: U32)
      modifies this
      ensures GetCurrentState() == newState
      ensures GetStateHistory() == old(GetStateHistory()) + [Entry(newState, time)]
      ensures Snapshot() == Transitions.TransitionTo(old(Snapshot()), newState, time)
    {
      currentState := newState;
      stateHistory := stateHistory + [Entry(newState, time)];
    }

    method SetDelay(delay: U32)
      modifies this
      ensures GetDelay() == delay
      ensures Snapshot() == old(Snapshot()).(delay := delay)
    {
      this.delay := delay;
    }

    method SetErrorCount(count: int)
      modifies this
      ensures GetErrorCount() == count
      ensures Snapshot() == old(Snapshot()).(errorCount := count)
    {
      errorCount := count;
    }

    method SetMoveCount(count: int)
      modifies this
      ensures GetMoveCount() == count
      ensures Snapshot() == old(Snapshot()).(moveCount := count)
    {
      moveCount := count;
    }

    method SetLastHeartbeat(heartbeat: U32)
      modifies this
      ensures GetLastHeartbeat() == heartbeat
      ensures Snapshot() == old(Snapshot()).(lastHeartbeat := heartbeat)
    {
      lastHeartbeat := heartbeat;
    }

    /** Log `(state, time)` without changing the current state. */
    method AddStateToHistory(state: State, time: U32)
      modifies this
      ensures GetStateHistory() == old(GetStateHistory()) + [Entry(state, time)]
      ensures Snapshot() == old(Snapshot()).(history := old(stateHistory) + [Entry(state, time)])
    {
      stateHistory := stateHistory + [Entry(state, time)];
    }

    method PerformInit(transitionTime: U32, heartbeatTime: U32)
      modifies this
      ensures Snapshot() == Transitions.PerformInit(old(Snapshot()), transitionTime, heartbeatTime)
    {
      if currentState == Init {
        SetDelay(Transitions.InitDelay);
        TransitionToState(Idle, transitionTime);
        SetLastHeartbeat(heartbeatTime);
      }
    }

    method PerformProcess(token: string)
      modifies this
      ensures Snapshot() == Transitions.PerformProcess(old(Snapshot()), token)
    {
      if currentState == Idle {
        if token == "IDLE" {
          currentState := Idle;
        } else if token == "MOVEMENT" {
          currentState := Movement;
        } else if token == "SHOOTING" {
          currentState := Shooting;
        } else if token == "CALCULATION" {
          currentState := Calculation;
        }
      }
    }

    method PerformMovement()
      modifies this
      ensures Snapshot() == Transitions.PerformMovement(old(Snapshot()))
    {
      if currentState == Movement {
        moveCount := moveCount + 1;
        if moveCount >= Transitions.MoveLimit {
          currentState := Shooting;
        }
      }
    }

    method PerformShooting(heartbeatTime: U32)
      modifies this
      ensures Snapshot() == Transitions.PerformShooting(old(Snapshot()), heartbeatTime)
    {
      if currentState == Shooting {
        moveCount := 0;
        currentState := Idle;
        lastHeartbeat := heartbeatTime;
      }
    }

    method PerformCalculation()
      modifies this
      ensures Snapshot() == Transitions.PerformCalculation(old(Snapshot()))
    {
      if currentState == Calculation {
        if moveCount == 0 {
          currentState := Error;
        } else if moveCount > 0 {
          currentState := Idle;
        }
      }
    }

    method PerformErrorHandling()
      modifies this
      ensures Snapshot() == Transitions.PerformErrorHandling(old(Snapshot()))
    {
      if currentState == Error {
        errorCount := errorCount + 1;
        if errorCount >= Transitions.ErrorLimit {
          Shutdown();
        } else {
          currentState := Idle;
        }
      }
    }

    method Shutdown()
      modifies this
      ensures Snapshot() == Transitions.Shutdown(old(Snapshot()))
    {
      if currentState == Stopped {
        stateHistory := [];
      }
    }

    /** One cycle: the current state's handler, then heartbeat and log. */
    method Update(t: Tick)
      modifies this
      ensures Snapshot() == Transitions.Update(old(Snapshot()), t)
    {
      if currentState == Init {
        PerformInit(t.transitionTime, t.heartbeatTime);
      } else if currentState == Idle {
        PerformProcess(t.token);
      } else if currentState == Movement {
        PerformMovement();
      } else if currentState == Shooting {
        PerformShooting(t.heartbeatTime);
      } else if currentState == Calculation {
        PerformCalculation();
      } else if currentState == Error {
        PerformErrorHandling();
      } else if currentState == Stopped {
        Shutdown();
      }
      lastHeartbeat := t.now;
      AddStateToHistory(currentState, lastHeartbeat);
    }
  }
}
