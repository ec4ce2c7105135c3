# Single-car elevator controller, modelled in Dafny

The controller drives one elevator car over six floors, 0 through 5. Its state has three parts:

- a motion mode: `Idle`, `MovingUp`, `MovingDown` or `DoorsOpen`;
- the current floor;
- a FIFO queue of pending destination floors, served in arrival order.

A driver uses these operations:

- `new(floor)` builds a car;
- `call(floor)` requests a floor;
- `step()` advances the car one floor toward the head of the queue;
- `open_doors()` and `close_doors()` move the doors;
- `state()`, `floor()`, `queue()` and `status()` read the state.

Errors are returned as values: `InvalidFloor(n)`, `DoorsAlreadyOpen`, `DoorsAlreadyClosed`, `CannotOpenWhileMoving`, `CannotMoveDoorsOpen` and `EmptyQueue`. `EmptyQueue` is the one error that also changes the car: it forces the mode to `Idle`.

The project has three modules:

- `Transitions` (transitions.dfy) is the controller as a pure state machine. A `Car` value holds mode, floor and queue. Each operation is a function from the car before to a `Transition`, which holds the car after and the reply. `Run` applies a sequence of driver requests.
- `ElevatorProperties` (properties.dfy) proves what each operation does, including every error case. It also proves that every operation keeps the invariants, and draws the consequences for every car a driver can reach from `new`.
- `ElevatorCore` (elevator.dfy) is the `Elevator` class. Its fields `state`, `floor` and `queue` are updated in place, in the same order of steps as the controller. Each method is proved to leave exactly the car, and return exactly the reply, that the pure transition of the same name gives.

The controller's fields are public, so a caller can set any state directly. For that reason the class methods do not assume the invariant. Each method is specified for every prior state, and each one preserves the invariant when it held before.

There are two invariants:

- `WellFormed`: the floor and every queued floor lie in 0..5, no floor is queued twice, and the head of a non-empty queue is never the current floor.
- `Coherent`: the mode agrees with the queue. An `Idle` car has an empty queue. A `MovingUp` car's head is above it, and a `MovingDown` car's head is below it.

Both hold from construction and after every operation. Two consequences follow:

- In every reachable state, a successful `step` moves exactly one floor.
- The `close_doors` tie-break that sends the car down when the head equals the floor is never taken. Neither is the no-move arrival in `step`.

Because of `Coherent`, a reachable car reports `EmptyQueue` only when it is already `Idle`. The forced mode change then changes nothing. It matters only for a state written directly into the public fields.

## Model

| member | source | states |
|---|---|---|
| ElevatorProperties.NewValidates | src/lib.rs:28-37 | construction succeeds iff 0 <= f <= 5; it then yields an idle car at f with an empty queue, which satisfies both invariants; otherwise the error is InvalidFloor(f) |
| ElevatorProperties.CallRefusesInvalid | src/lib.rs:39-41 | call fails iff the floor is out of range; the error is InvalidFloor(f) and the car is unchanged |
| ElevatorProperties.CallIgnores | src/lib.rs:42-44 | a call for the current floor or for a floor already queued succeeds and changes nothing |
| ElevatorProperties.CallEnqueues | src/lib.rs:45-59 | any other valid call appends f at the tail of the queue, after the earlier entries in their order; the floor is kept; an idle car becomes MovingDown when f is below it and MovingUp when f is above it; any other mode, DoorsOpen included, is kept |
| ElevatorProperties.CallIdempotent | src/lib.rs:38-60 | calling the same floor twice leaves the same car and reply as calling it once |
| ElevatorProperties.CallPreservesValid | src/lib.rs:39-58 | call keeps WellFormed, and keeps WellFormed together with Coherent |
| ElevatorProperties.StepErrors | src/lib.rs:65-71 | step fails iff the doors are open or the queue is empty; with the doors open the car is unchanged (CannotMoveDoorsOpen); with an empty queue the mode becomes Idle and floor and queue are kept (EmptyQueue) |
| ElevatorProperties.StepMovesOneFloor | src/lib.rs:72-83 | for any car with doors closed and a non-empty queue whose head is not the current floor, step succeeds and moves exactly one floor toward the head; on arrival the mode becomes DoorsOpen and the head is removed, the rest of the queue kept in order; otherwise mode and queue are kept |
| ElevatorProperties.StepAtHead | src/lib.rs:72-82 | when the head equals the current floor (possible only by writing the fields directly), step does not move and opens the doors at once, dropping the head |
| ElevatorProperties.StepPreservesValid | src/lib.rs:64-84 | step keeps WellFormed, and keeps WellFormed together with Coherent |
| ElevatorProperties.OpenDoorsOnlyWhenIdle | src/lib.rs:91-100 | open_doors succeeds iff the car is Idle and then sets DoorsOpen; from DoorsOpen it fails with DoorsAlreadyOpen; while moving it fails with CannotOpenWhileMoving; floor and queue never change |
| ElevatorProperties.OpenDoorsPreservesValid | src/lib.rs:91-100 | open_doors keeps WellFormed, and keeps WellFormed together with Coherent |
| ElevatorProperties.CloseDoorsOnlyWhenOpen | src/lib.rs:101-118 | close_doors succeeds iff the doors are open, otherwise fails with DoorsAlreadyClosed and changes nothing; on success the mode becomes Idle for an empty queue, MovingUp if the head is above the floor, else MovingDown; floor and queue never change |
| ElevatorProperties.CloseDoorsHeadsForQueue | src/lib.rs:108-116 | on a well-formed car with a non-empty queue, close_doors yields MovingUp iff the head is above the floor and MovingDown iff it is below, so the head == floor tie-break is never taken |
| ElevatorProperties.CloseDoorsPreservesValid | src/lib.rs:101-118 | close_doors keeps WellFormed, and keeps WellFormed together with Coherent |
| ElevatorProperties.ApplyPreservesValid | src/lib.rs:38-118 | every operation keeps WellFormed, and keeps WellFormed together with Coherent |
| ElevatorProperties.RunPreservesValid | src/lib.rs:38-118 | any sequence of operations from a valid car ends in a valid car |
| ElevatorProperties.ReachableValid | src/lib.rs:28-118 | every car reachable from a successful construction satisfies WellFormed and Coherent |
| ElevatorProperties.ReachableStepMovesOneFloor | src/lib.rs:72-83 | from every reachable car, a successful step changes the floor by exactly one |
| ElevatorProperties.ReachableEmptyQueueOnlyWhenIdle | src/lib.rs:68-70 | from every reachable car, step reports EmptyQueue only when the car is already Idle, and then leaves it unchanged |
| ElevatorProperties.StepNeverOverflows | src/lib.rs:72-78 | if floor and queue fit in i32, the floor after step fits in i32 too, because the one-floor move lands between the old floor and the head |
| ElevatorProperties.ApplyFitsI32 | src/lib.rs:38-118 | no operation takes the floor or a queued floor out of the i32 range, even on fields written directly |
| ElevatorProperties.ScenarioRideUp | src/lib.rs:28-118 | new(2) gives an idle car at 2; call(5) gives MovingUp with queue [5]; three steps arrive at 5 with doors open and an empty queue; close_doors then leaves the car Idle |
| ElevatorProperties.ScenarioIgnoredCalls | src/lib.rs:38-60 | after new(0), call(0) succeeds and changes nothing; after new(3), call(1) twice queues 1 once and gives MovingDown |
| ElevatorProperties.ScenarioStepWithEmptyQueue | src/lib.rs:64-71 | after new(3), step fails with EmptyQueue and leaves the car idle at 3 with an empty queue |
| ElevatorProperties.ScenarioCallWhileDoorsOpen | src/lib.rs:38-100 | after new(2) and open_doors, call(4) queues 4 but keeps DoorsOpen, and step then fails with CannotMoveDoorsOpen and changes nothing |
| ElevatorCore.Elevator.Status | src/lib.rs:119-125 | status returns a copy of the current mode, floor and queue |
| ElevatorCore.Elevator.CurrentState | src/lib.rs:61-63 | state() returns the current mode |
| ElevatorCore.Elevator.CurrentFloor | src/lib.rs:85-87 | floor() returns the current floor |
| ElevatorCore.Elevator.Pending | src/lib.rs:88-90 | queue() returns the pending queue, head first |
| ElevatorCore.Elevator.Init | src/lib.rs:32-36 | the fresh object is idle at the given floor with an empty queue |
| ElevatorCore.Elevator.New | src/lib.rs:28-37 | fails with InvalidFloor(f) iff f is out of range; otherwise returns a fresh elevator, idle at f with an empty queue, that satisfies the invariants |
| ElevatorCore.Elevator.Call | src/lib.rs:38-60 | updates the fields in place to exactly the car and reply of the pure call; keeps the invariants |
| ElevatorCore.Elevator.Step | src/lib.rs:64-84 | updates the fields in place to exactly the car and reply of the pure step, including the EmptyQueue case that fails and still sets Idle; keeps the invariants |
| ElevatorCore.Elevator.OpenDoors | src/lib.rs:91-100 | updates the fields in place to exactly the car and reply of the pure open_doors; keeps the invariants |
| ElevatorCore.Elevator.CloseDoors | src/lib.rs:101-118 | updates the fields in place to exactly the car and reply of the pure close_doors; keeps the invariants |

## Left out

- Integer width: floors are Dafny `int`, not `i32`. No operation can overflow `i32`, even on fields written directly: validation refuses every out-of-range floor before it is stored, and the one-floor move of `step` lands between the old floor and the head (`StepNeverOverflows`, `ApplyFitsI32`). A `call` argument outside the `i32` range has no counterpart in the controller; the model refuses it like any other out-of-range floor.
- The derived `Debug`, `Clone` and `PartialEq` implementations are left out; Dafny datatype equality plays their role.
- `queue()` returns a borrowed reference to the vector; `Pending` returns the sequence as a value. No aliasing is possible through it in the model.
- There is no driver, clock or concurrency in the controller. The caller is assumed to serialise all calls.
