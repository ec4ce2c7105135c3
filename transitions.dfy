/** The single-car elevator controller as a pure state machine.

    A `Car` is a value copy of the controller (what `status` hands out), and
    every operation is a function from the car before to the car after
    together with the reply the caller sees. The class in `ElevatorCore`
    performs the same operations in place and is proved equal to these. */
module Transitions {

  /** The valid floor range is fixed to six floors, 0 through 5. */
  const MinFloor: int := 0
  const MaxFloor: int := 5

  datatype State = Idle | MovingUp | MovingDown | DoorsOpen

  datatype ElevatorError =
    | InvalidFloor(floor: int)
    | DoorsAlreadyOpen
    | DoorsAlreadyClosed
    | CannotOpenWhileMoving
    | CannotMoveDoorsOpen
    | EmptyQueue

  datatype Result<T> = Ok(value: T) | Err(error: ElevatorError)

  /** The controller's whole state: motion mode, current floor and the FIFO
      queue of pending destinations, head first. */
  datatype Car = Car(state: State, floor: int, queue: seq<int>)

  /** What a mutating operation leaves behind: the car after it, and its
      reply. A failing operation may still have changed the car. */
  datatype Transition = Transition(car: Car, reply: Result<()>)

  predicate ValidFloor(f: int) {
    MinFloor <= f <= MaxFloor
  }

  predicate Distinct(q: seq<int>) {
    forall i, j :: 0 <= i < j < |q| ==> q[i] != q[j]
  }

  /** The invariants every operation keeps: the floor and every queued
      floor are in range, no floor is queued twice, and the floor the car
      heads for is never the one it stands at. */
  predicate WellFormed(c: Car) {
    && ValidFloor(c.floor)
    && (forall k :: 0 <= k < |c.queue| ==> ValidFloor(c.queue[k]))
    && Distinct(c.queue)
    && (c.queue != [] ==> c.queue[0] != c.floor)
  }

  /** The motion mode agrees with the queue: an idle car has nothing
      pending, and a moving car moves toward the head of the queue. */
  predicate Coherent(c: Car) {
    match c.state
    case Idle => c.queue == []
    case MovingUp => c.queue != [] && c.queue[0] > c.floor
    case MovingDown => c.queue != [] && c.queue[0] < c.floor
    case DoorsOpen => true
  }

  /** Every car reachable from construction satisfies both. */
  predicate Valid(c: Car) {
    WellFormed(c) && Coherent(c)
  }

  /** Construction: validates the starting floor. */
  function New(f: int): Result<Car> {
    if f < MinFloor || f > MaxFloor then Err(InvalidFloor(f))
    else Ok(Car(Idle, f, []))
  }

  /** Requests a visit to floor `f`. Out-of-range floors are refused; the
      current floor and an already queued floor are ignored; otherwise `f`
      joins the tail of the queue and an idle car starts moving toward it. */
  function Call(c: Car, f: int): Transition {
    if f < MinFloor || f > MaxFloor then Transition(c, Err(InvalidFloor(f)))
    else if f == c.floor || f in c.queue then Transition(c, Ok(()))
    else if c.floor > f then
      Transition(c.(queue := c.queue + [f],
                    state := if c.state == Idle then MovingDown else c.state), Ok(()))
    else if c.floor < f then
      Transition(c.(queue := c.queue + [f],
                    state := if c.state == Idle then MovingUp else c.state), Ok(()))
    else
      // dead: f == c.floor was handled above
      Transition(c, Ok(()))
  }

  /** Moves one floor toward the head of the queue; on arrival opens the
      doors and drops the head. With the doors open nothing happens; with
      an empty queue the car is forced to `Idle` and the step fails. */
  function Step(c: Car): Transition {
    if c.state == DoorsOpen then Transition(c, Err(CannotMoveDoorsOpen))
    else if c.queue == [] then Transition(c.(state := Idle), Err(EmptyQueue))
    else
      var destination := c.queue[0];
      var floor :=
        if c.floor < destination then c.floor + 1
        else if c.floor > destination then c.floor - 1
        else c.floor;
      if floor == destination then Transition(Car(DoorsOpen, floor, c.queue[1..]), Ok(()))
      else Transition(c.(floor := floor), Ok(()))
  }

  function OpenDoors(c: Car): Transition {
    if c.state == DoorsOpen then Transition(c, Err(DoorsAlreadyOpen))
    else if c.state == MovingUp || c.state == MovingDown then Transition(c, Err(CannotOpenWhileMoving))
    else Transition(c.(state := DoorsOpen), Ok(()))
  }

  /** Closes the doors and picks the next mode from the queue head; a head
      at or below the current floor means `MovingDown`. */
  function CloseDoors(c: Car): Transition {
    if c.state != DoorsOpen then Transition(c, Err(DoorsAlreadyClosed))
    else if c.queue == [] then Transition(c.(state := Idle), Ok(()))
    else
      var next := c.queue[0];
      if next > c.floor then Transition(c.(state := MovingUp), Ok(()))
      else Transition(c.(state := MovingDown), Ok(()))
  }

  /** One request from the driver. */
  datatype Op = CallOp(floor: int) | StepOp | OpenDoorsOp | CloseDoorsOp

  function Apply(c: Car, op: Op): Transition {
    match op
    case CallOp(f) => Call(c, f)
    case StepOp => Step(c)
    case OpenDoorsOp => OpenDoors(c)
    case CloseDoorsOp => CloseDoors(c)
  }

  /** The car after the driver issues `ops` in order, whatever the replies. */
  function Run(c: Car, ops: seq<Op>): Car
    decreases |ops|
  {
    if ops == [] then c else Run(Apply(c, ops[0]).car, ops[1..])
  }
}
