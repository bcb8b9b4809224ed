# FSM controller model

A Dafny model of the `FSM` class of `fsm.cpp`. The class is a seven-state controller:
INIT, IDLE, MOVEMENT, SHOOTING, CALCULATION, ERROR and STOPPED. It keeps six fields:

- the current state;
- the last heartbeat, in milliseconds;
- a delay;
- an error counter;
- a move counter;
- a history of `(state, time)` pairs.

Each call of `update()` runs the handler for the current state. Then it sets the heartbeat to the clock and logs `(state, time)` in the history.

The model has four modules:

- `States` (`states.dfy`) holds the value types. These are the state enumeration, a history `Entry`, a `Machine` snapshot of all six fields, and a `Tick`. A `Tick` carries the external inputs of one cycle: the clock readings and the console token.
- `Transitions` (`transitions.dfy`) gives each handler of the class as a function on snapshots. It also defines `Update` (one cycle) and `Run` (many cycles). Its lemmas state what one cycle does, by starting state, and what holds over any run.
- `Controller` (`controller.dfy`) is the class `FSM`. Its fields are the source's fields, and the history is a `seq` field that the methods reassign. Each method has `modifies this` and proves that the new snapshot is exactly what the matching `Transitions` function gives for the old one. The setters prove they round-trip with the getters and change only their own field.
- `Intended` (`intended.dfy`) covers three places where the code evidently does not do what was meant. Two handlers miss the transition their comments describe (MOVEMENT at fsm.cpp:345 and ERROR at fsm.cpp:407-408). `FSM(delay)` stamps its seed entry differently from `FSM()` (fsm.cpp:52 against fsm.cpp:36). For each, a lemma shows what the code does, and a corrected rule comes with the intended property proved. The class itself keeps the behaviour as written.

The comments depart from the code in three more places, which the model records but does not correct:

- The comment on `performErrorHandling` (fsm.cpp:397) says "exceeds 3", while the code tests `errorCount >= 3` (fsm.cpp:407). The corrected error rule keeps the code's threshold and only adds the missing STOPPED transition.
- The comment on `transitionToState` (fsm.cpp:76-77) says it also updates the heartbeat. The code (fsm.cpp:79-83) does not, and neither does `Controller.FSM.TransitionToState`.
- The comment on `performMovement` (fsm.cpp:333) says it updates the heartbeat. The code (fsm.cpp:335-348) does not, and neither does `Controller.FSM.PerformMovement`.

Neither heartbeat departure shows after a whole cycle. `update()` sets the heartbeat to the clock at fsm.cpp:219 whatever the handler did, as `Transitions.UpdateAppendsOne` and `Transitions.UpdateFromInit` state.

The clock (`millis()`) and the console (`cin`) are inputs. A `Tick` gives the clock readings of one cycle in the order the code takes them:

- `transitionTime` is read by `transitionToState` in INIT.
- `heartbeatTime` is the heartbeat reading in INIT and in SHOOTING.
- `now` is the final reading of `update()`.

The `token` field stands for the word read from the console in IDLE.

The model follows the code as written. In particular:

- A cycle from INIT logs two IDLE entries: the transition's own and the cycle's. So after n > 0 cycles, a machine built by `FSM(delay)` holds n + 2 entries (`Transitions.ConstructedRun`).
- MOVEMENT below three moves stays in MOVEMENT.
- The third error leaves the machine in ERROR. As a result, no `update()` cycle ever enters STOPPED (`Transitions.RunNeverStops`). Only a direct call of the public `transitionToState(STOPPED)` (fsm.cpp:79-83) does, and the next cycle then clears the history (`Transitions.UpdateFromStopped`).
- Neither constructor sets the move count, so the model promises nothing about its first value.

## Model

| member | source | states |
|---|---|---|
| Controller.FSM.constructor | fsm.cpp:30-37 | `FSM()` starts in INIT with heartbeat 0, error count 0 and history `[(INIT, 0)]`; delay and move count are left unconstrained (uninitialised in the source) |
| Controller.FSM.WithDelay | fsm.cpp:45-53 | `FSM(delay)` starts in INIT with heartbeat 0, error count 0, the given delay and history `[(INIT, delay)]` |
| Controller.FSM.TransitionToState | fsm.cpp:69-83 | the state becomes the new one, so `GetCurrentState()` afterwards returns it, and exactly one entry `(newState, time)` is appended; earlier entries and all other fields, the heartbeat included, are unchanged |
| Controller.FSM.SetDelay | fsm.cpp:89-99 | `GetDelay()` afterwards returns the value set; no other field changes |
| Controller.FSM.SetErrorCount | fsm.cpp:105-115 | `GetErrorCount()` afterwards returns the value set; no other field changes |
| Controller.FSM.SetMoveCount | fsm.cpp:121-131 | `GetMoveCount()` afterwards returns the value set; no other field changes |
| Controller.FSM.SetLastHeartbeat | fsm.cpp:157-167 | `GetLastHeartbeat()` afterwards returns the value set; no other field changes |
| Controller.FSM.AddStateToHistory | fsm.cpp:139-150 | the history seen by `GetStateHistory()` grows by exactly `(state, time)`; the current state and every other field are unchanged |
| Controller.FSM.PerformInit | fsm.cpp:277-290 | the fields change exactly as `Transitions.PerformInit` says: in INIT, delay 1000, transition to IDLE logged, heartbeat set; otherwise nothing (cycle-level effect in `Transitions.UpdateFromInit`) |
| Controller.FSM.PerformProcess | fsm.cpp:302-324 | the fields change exactly as `Transitions.PerformProcess` says: in IDLE, the token picks the next state, outside IDLE nothing changes (token rule in `Transitions.IdleFollowsToken`) |
| Controller.FSM.PerformMovement | fsm.cpp:335-348 | the fields change exactly as `Transitions.PerformMovement` says: in MOVEMENT, one more move and SHOOTING at three, otherwise MOVEMENT kept (`Transitions.MovementStep`) |
| Controller.FSM.PerformShooting | fsm.cpp:358-369 | the fields change exactly as `Transitions.PerformShooting` says: in SHOOTING, move count 0, state IDLE, heartbeat refreshed (`Transitions.ShootingStep`) |
| Controller.FSM.PerformCalculation | fsm.cpp:378-390 | the fields change exactly as `Transitions.PerformCalculation` says: in CALCULATION, ERROR on no moves, IDLE on some (`Transitions.CalculationStep`) |
| Controller.FSM.PerformErrorHandling | fsm.cpp:400-413 | the fields change exactly as `Transitions.PerformErrorHandling` says: in ERROR, one more error, then IDLE or `shutdown`, which leaves ERROR in place (`Transitions.ErrorStep`) |
| Controller.FSM.Shutdown | fsm.cpp:421-428 | the history is cleared exactly when the state is STOPPED; nothing else changes |
| Controller.FSM.Update | fsm.cpp:199-221 | one cycle leaves the fields exactly as `Transitions.Update` of the old fields and the cycle's inputs, whose properties the `Transitions` lemmas below state |
| Transitions.UpdateAppendsOne | fsm.cpp:199-221 | from any state but INIT and STOPPED, a cycle appends exactly `(state after the handler, now)`, sets the heartbeat to `now`, keeps the delay, and never enters INIT or STOPPED |
| Transitions.UpdateFromInit | fsm.cpp:277-290 | from INIT a cycle ends in IDLE with delay 1000, appends two IDLE entries (transition time, then `now`), sets the heartbeat to `now` and keeps both counters |
| Transitions.UpdateFromStopped | fsm.cpp:421-428 | from STOPPED a cycle leaves the history exactly `[(STOPPED, now)]` and changes nothing else but the heartbeat |
| Transitions.IdleFollowsToken | fsm.cpp:313-322 | in IDLE a token equal to the name of IDLE, MOVEMENT, SHOOTING or CALCULATION selects that state, a non-IDLE result is always named by the token, any other token keeps IDLE; counters and delay unchanged |
| Transitions.MovementStep | fsm.cpp:339-346 | in MOVEMENT the move count grows by exactly one; at three or more the state becomes SHOOTING, below three it stays MOVEMENT; the error count is unchanged |
| Transitions.ShootingStep | fsm.cpp:363-368 | in SHOOTING the move count becomes 0 and the state IDLE; the error count is unchanged |
| Transitions.CalculationStep | fsm.cpp:382-389 | in CALCULATION a move count of 0 leads to ERROR, a positive one to IDLE, a negative one keeps CALCULATION; no counter changes |
| Transitions.ErrorStep | fsm.cpp:404-411 | in ERROR the error count grows by exactly one; below three the state becomes IDLE, at three or more it stays ERROR with the history kept |
| Transitions.CountersFrame | fsm.cpp:199-221 | the error count changes only in ERROR, by one, and the delay only in INIT, to 1000 |
| Transitions.RunNeverStops | fsm.cpp:199-221 | over any sequence of `update()` cycles, a machine not in STOPPED never reaches STOPPED; only a direct `transitionToState(STOPPED)` enters it |
| Transitions.RunAppendOnly | fsm.cpp:218-220 | over any run from a state other than STOPPED, every earlier history entry stays in place and the history grows by one entry per cycle, plus one for a first cycle in INIT |
| Transitions.ConstructedRun | fsm.cpp:45-53 | a machine built by `FSM(delay)` and updated n > 0 times holds n + 2 entries, keeps its seed entry first, and is not stopped |
| Transitions.RunErrorCountBounds | fsm.cpp:404-411 | over any run the error count never falls and grows by at most one per cycle |
| Transitions.UpdateKeepsMovesInRange | fsm.cpp:335-369 | one cycle keeps the move count within 0..3, with 3 only in SHOOTING |
| Transitions.RunKeepsMovesInRange | fsm.cpp:335-369 | any run keeps the move count within 0..3, with 3 only in SHOOTING |
| Transitions.UpdateKeepsChronology | fsm.cpp:218-220 | under a monotonic clock one cycle keeps the history in time order, with no entry later than `now` |
| Transitions.RunKeepsChronology | fsm.cpp:218-220 | under a monotonic clock any run keeps a time-ordered history in time order and never moves the heartbeat backwards |
| Intended.MovementStaysBelowLimit | fsm.cpp:331-346 | as written, a first move leaves the machine in MOVEMENT, where the comment promises IDLE |
| Intended.IntendedMovementStep | fsm.cpp:326-333 | corrected movement: the count grows by one, to SHOOTING at three or more, otherwise to IDLE |
| Intended.ErrorThresholdNeverStops | fsm.cpp:404-410 | as written, the third error leaves the machine in ERROR with its history kept, and so does the next cycle; the corrected rule, at the code's own threshold of three, stops it |
| Intended.ErrorPastLimitForever | fsm.cpp:404-410 | as written, a machine in ERROR with at least two errors stays in ERROR over every run, gaining one error per cycle |
| Intended.IntendedErrorStep | fsm.cpp:392-411 | corrected error handling, keeping the code's `>= 3` threshold rather than the comment's "exceeds 3": the count grows by one; at three or more the state is STOPPED with history `[(STOPPED, now)]`, below three IDLE |
| Intended.IntendedStoppedIsTerminal | fsm.cpp:415-428 | corrected: STOPPED is absorbing, and after each later cycle the history holds only that cycle's entry |
| Intended.IntendedErrorThenStopped | fsm.cpp:392-398 | corrected: from ERROR with two errors, two cycles end in STOPPED with a one-entry history |
| Intended.SeedStampBreaksChronology | fsm.cpp:45-53 | as written, `FSM(5000)` updated once at time 10 holds a history out of time order, under a clock that never went backwards |
| Intended.SeedRunChronological | fsm.cpp:30-37 | with the seed stamped 0, as `FSM()` does, any run under a monotonic clock from 0 keeps the history in time order |

## Left out

- `start()` (fsm.cpp:174-184) is not modelled. It busy-polls `millis()` and appends `(state, time)` whenever the time is a multiple of 1000. It never calls `update()`, so it ends only if something outside changes the state, and it states nothing beyond `AddStateToHistory`.
- `printStatus` and `printStateHistory` are not modelled: they only print. The same goes for the console prompts and messages inside the handlers.
- The destructor is not modelled: it is empty.
- Transitions.RunKeepsChronology: the monotonic clock it assumes rules out the wrap-around of the 32-bit `millis()` reading (after about 49.7 days). So the history is proved to stay in time order only until the clock wraps. The same holds for Intended.SeedRunChronological.
- `millis()` and `cin` are replaced by the fields of a `Tick` passed to each cycle.
- Controller.FSM.constructor: the source leaves the delay and the move count uninitialised, so the contract promises nothing about them.
- Controller.FSM.WithDelay: the source leaves the move count uninitialised, so the contract promises nothing about it beyond tying the snapshot to `Transitions.Constructed` of whatever value it holds.
- Controller.FSM.Update: `uint32_t` arithmetic is not modelled. Times and the delay are `U32` values supplied from outside and are never computed, so no wrap-around arises inside the model.
- Controller.FSM.PerformMovement: the move and error counters are unbounded integers. The source's `int` overflow on `++` is undefined behaviour and is not modelled.
- Controller.FSM.SetDelay: `getDelay` returns its value through a reference parameter. Here it is the function `GetDelay()`.

## Findings

| source | as written | input that shows it | evidently intended | confidence | as-written member | corrected member |
|---|---|---|---|---|---|---|
| fsm.cpp:345 | `SystemState::IDLE;` is an expression statement, so below three moves the state stays MOVEMENT | MOVEMENT with move count 0, one `update()` | `currentState = SystemState::IDLE;`, as the comment at fsm.cpp:331-332 says | high, not executed | Transitions.PerformMovement, shown by Intended.MovementStaysBelowLimit | Intended.IntendedMovement, proved in Intended.IntendedMovementStep |
| fsm.cpp:407-408 | at the error limit `shutdown()` runs while the state is ERROR; it acts only in STOPPED, so the machine stays in ERROR forever and no `update()` cycle ever enters STOPPED; only a direct call of the public `transitionToState(STOPPED)` does | ERROR with error count 2, one `update()` | set the state to STOPPED before `shutdown()`, the transition the comment at fsm.cpp:398 describes; the code's `>= 3` threshold is kept, although the comment at fsm.cpp:397 says "exceeds 3" | high, not executed | Transitions.PerformErrorHandling, shown by Intended.ErrorThresholdNeverStops and Intended.ErrorPastLimitForever | Intended.IntendedErrorHandling, proved in Intended.IntendedErrorStep and Intended.IntendedStoppedIsTerminal |
| fsm.cpp:52 | `FSM(delay)` stamps the seed INIT entry with the delay instead of the heartbeat 0 | `FSM(5000)`, then `update()` at time 10: history `[(INIT,5000),(IDLE,10),(IDLE,10)]` | stamp the seed with `lastHeartbeat` (0), as `FSM()` does at fsm.cpp:36 | medium, not executed | Transitions.Constructed, shown by Intended.SeedStampBreaksChronology | Intended.Seed, proved in Intended.SeedRunChronological |
