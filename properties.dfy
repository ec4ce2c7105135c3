/** What the controller promises, stated over the pure transitions: the
    effect and the error cases of each operation, the invariants every
    operation keeps, and what therefore holds of every car a driver can
    reach from construction. */
module ElevatorProperties {
  import opened Transitions

  // ---------------------------------------------------------------- new

  lemma NewValidates(f: int)
    ensures New(f).Ok? <==> ValidFloor(f)
    ensures New(f).Ok? ==> New(f).value == Car(Idle, f, []) && Valid(New(f).value)
    ensures New(f).Err? ==> New(f).error == InvalidFloor(f)
  {
  }

  // --------------------------------------------------------------- call

  /** `call` fails exactly on an out-of-range floor, and then changes nothing. */
  lemma CallRefusesInvalid(c: Car, f: int)
    ensures Call(c, f).reply.Err? <==> !ValidFloor(f)
    ensures !ValidFloor(f) ==> Call(c, f) == Transition(c, Err(InvalidFloor(f)))
  {
  }

  /** The two silent no-ops: the current floor, or a floor already queued. */
  lemma CallIgnores(c: Car, f: int)
    requires ValidFloor(f)
    requires f == c.floor || f in c.queue
    ensures Call(c, f) == Transition(c, Ok(()))
  {
  }

  /** Otherwise `f` is appended at the tail, the floor stays, and only an
      idle car changes mode, toward `f`. */
  lemma CallEnqueues(c: Car, f: int)
    requires ValidFloor(f) && f != c.floor && f !in c.queue
    ensures Call(c, f).reply == Ok(())
    ensures Call(c, f).car.queue == c.queue + [f]
    ensures Call(c, f).car.floor == c.floor
    ensures Call(c, f).car.state ==
              if c.state != Idle then c.state
              else if f < c.floor then MovingDown
              else MovingUp
  {
  }

  /** Calling the same floor twice has the effect of calling it once. */
  lemma CallIdempotent(c: Car, f: int)
    ensures var once := Call(c, f);
            Call(once.car, f) == Transition(once.car, once.reply)
  {
  }

  lemma CallPreservesValid(c: Car, f: int)
    ensures WellFormed(c) ==> WellFormed(Call(c, f).car)
    ensures Valid(c) ==> Valid(Call(c, f).car)
  {
  }

  // --------------------------------------------------------------- step

  /** The two failures: open doors change nothing; an empty queue forces
      `Idle` and leaves floor and queue alone. */
  lemma StepErrors(c: Car)
    ensures Step(c).reply.Err? <==> c.state == DoorsOpen || c.queue == []
    ensures c.state == DoorsOpen ==> Step(c) == Transition(c, Err(CannotMoveDoorsOpen))
    ensures c.state != DoorsOpen && c.queue == [] ==>
              Step(c) == Transition(Car(Idle, c.floor, c.queue), Err(EmptyQueue))
  {
  }

  /** When the head is not the current floor, a step with the doors closed
      succeeds and moves exactly one floor toward the head; on arrival the
      doors open and the head leaves the queue, otherwise mode and queue are
      kept. Together with `StepAtHead` this covers every successful step. */
  lemma StepMovesOneFloor(c: Car)
    requires c.state != DoorsOpen && c.queue != [] && c.queue[0] != c.floor
    ensures var t := Step(c);
            && t.reply == Ok(())
            && t.car.floor == (if c.queue[0] > c.floor then c.floor + 1 else c.floor - 1)
            && (t.car.floor == c.queue[0] ==> t.car.state == DoorsOpen && t.car.queue == c.queue[1..])
            && (t.car.floor != c.queue[0] ==> t.car.state == c.state && t.car.queue == c.queue)
  {
  }

  /** Without the invariant, a head equal to the current floor opens the
      doors on the spot: the car does not move at all. */
  lemma StepAtHead(c: Car)
    requires c.state != DoorsOpen && c.queue != [] && c.queue[0] == c.floor
    ensures Step(c) == Transition(Car(DoorsOpen, c.floor, c.queue[1..]), Ok(()))
  {
  }

  lemma StepPreservesValid(c: Car)
    ensures WellFormed(c) ==> WellFormed(Step(c).car)
    ensures Valid(c) ==> Valid(Step(c).car)
  {
  }

  // --------------------------------------------------------- open_doors

  lemma OpenDoorsOnlyWhenIdle(c: Car)
    ensures OpenDoors(c).reply.Ok? <==> c.state == Idle
    ensures c.state == DoorsOpen ==> OpenDoors(c).reply == Err(DoorsAlreadyOpen)
    ensures c.state == MovingUp || c.state == MovingDown ==>
              OpenDoors(c).reply == Err(CannotOpenWhileMoving)
    ensures OpenDoors(c).car.state == if c.state == Idle then DoorsOpen else c.state
    ensures OpenDoors(c).car.floor == c.floor && OpenDoors(c).car.queue == c.queue
  {
  }

  lemma OpenDoorsPreservesValid(c: Car)
    ensures WellFormed(c) ==> WellFormed(OpenDoors(c).car)
    ensures Valid(c) ==> Valid(OpenDoors(c).car)
  {
  }

  // -------------------------------------------------------- close_doors

  lemma CloseDoorsOnlyWhenOpen(c: Car)
    ensures CloseDoors(c).reply.Ok? <==> c.state == DoorsOpen
    ensures c.state != DoorsOpen ==> CloseDoors(c) == Transition(c, Err(DoorsAlreadyClosed))
    ensures CloseDoors(c).car.floor == c.floor && CloseDoors(c).car.queue == c.queue
    ensures c.state == DoorsOpen ==>
              CloseDoors(c).car.state ==
                if c.queue == [] then Idle
                else if c.queue[0] > c.floor then MovingUp
                else MovingDown
  {
  }

  /** On a well-formed car the head is never the current floor, so closing
      the doors always moves toward the head: the tie-break that sends the
      car down when head and floor agree is never taken. */
  lemma CloseDoorsHeadsForQueue(c: Car)
    requires WellFormed(c) && c.state == DoorsOpen && c.queue != []
    ensures CloseDoors(c).car.state == MovingUp <==> c.queue[0] > c.floor
    ensures CloseDoors(c).car.state == MovingDown <==> c.queue[0] < c.floor
  {
  }

  lemma CloseDoorsPreservesValid(c: Car)
    ensures WellFormed(c) ==> WellFormed(CloseDoors(c).car)
    ensures Valid(c) ==> Valid(CloseDoors(c).car)
  {
  }

  // ------------------------------------------------- sequences of calls

  lemma ApplyPreservesValid(c: Car, op: Op)
    ensures WellFormed(c) ==> WellFormed(Apply(c, op).car)
    ensures Valid(c) ==> Valid(Apply(c, op).car)
  {
  }

  lemma {:induction false} RunPreservesValid(c: Car, ops: seq<Op>)
    requires Valid(c)
    ensures Valid(Run(c, ops))
    decreases |ops|
  {
    if ops != [] {
      ApplyPreservesValid(c, ops[0]);
      RunPreservesValid(Apply(c, ops[0]).car, ops[1..]);
    }
  }

  /** Every car a driver can reach from a successful construction keeps
      all the invariants. */
  lemma ReachableValid(f: int, ops: seq<Op>)
    requires New(f).Ok?
    ensures Valid(Run(New(f).value, ops))
  {
    NewValidates(f);
    RunPreservesValid(New(f).value, ops);
  }

  /** From any reachable car, a successful step moves exactly one floor. */
  lemma ReachableStepMovesOneFloor(f: int, ops: seq<Op>)
    requires New(f).Ok?
    ensures var c := Run(New(f).value, ops);
            Step(c).reply.Ok? ==> Step(c).car.floor - c.floor in {-1, 1}
  {
    var c := Run(New(f).value, ops);
    ReachableValid(f, ops);
    if Step(c).reply.Ok? {
      StepMovesOneFloor(c);
    }
  }

  /** From any reachable car, `EmptyQueue` is only reported by an idle car:
      the state it forces is the one the car already had. */
  lemma ReachableEmptyQueueOnlyWhenIdle(f: int, ops: seq<Op>)
    requires New(f).Ok?
    ensures var c := Run(New(f).value, ops);
            Step(c).reply == Err(EmptyQueue) ==> c.state == Idle && Step(c).car == c
  {
    ReachableValid(f, ops);
  }

  // ------------------------------------------------------- integer width

  /** The controller stores floors as 32-bit signed integers. */
  const I32Min: int := -0x8000_0000
  const I32Max: int := 0x7FFF_FFFF

  predicate FitsI32(c: Car) {
    && I32Min <= c.floor <= I32Max
    && (forall k :: 0 <= k < |c.queue| ==> I32Min <= c.queue[k] <= I32Max)
  }

  /** The only arithmetic, the one-floor move of `step`, lands between the
      old floor and the head, so it cannot overflow even on fields written
      directly. */
  lemma StepNeverOverflows(c: Car)
    requires FitsI32(c)
    ensures I32Min <= Step(c).car.floor <= I32Max
    ensures c.state != DoorsOpen && c.queue != [] ==>
              Step(c).car.floor == c.floor ||
              (c.floor < Step(c).car.floor <= c.queue[0]) ||
              (c.queue[0] <= Step(c).car.floor < c.floor)
  {
  }

  /** No operation leaves a field outside the 32-bit range once all fields
      were inside it. */
  lemma ApplyFitsI32(c: Car, op: Op)
    requires FitsI32(c)
    ensures FitsI32(Apply(c, op).car)
  {
  }

  // ------------------------------------------------------------ scenarios

  /** From floor 2, a call to 5 and three steps arrive with the doors open;
      closing them leaves the car idle at 5. */
  lemma ScenarioRideUp()
    ensures New(2) == Ok(Car(Idle, 2, []))
    ensures Run(New(2).value, [CallOp(5)]) == Car(MovingUp, 2, [5])
    ensures Run(New(2).value, [CallOp(5), StepOp, StepOp, StepOp]) == Car(DoorsOpen, 5, [])
    ensures Run(New(2).value, [CallOp(5), StepOp, StepOp, StepOp, CloseDoorsOp]) == Car(Idle, 5, [])
  {
  }

  /** A call for the floor the car stands at is ignored, and so is a
      duplicate call. */
  lemma ScenarioIgnoredCalls()
    ensures Call(New(0).value, 0) == Transition(Car(Idle, 0, []), Ok(()))
    ensures Run(New(3).value, [CallOp(1), CallOp(1)]) == Car(MovingDown, 3, [1])
  {
  }

  /** A fresh car has nothing to serve: stepping reports `EmptyQueue` and
      leaves it idle. */
  lemma ScenarioStepWithEmptyQueue()
    ensures Step(New(3).value) == Transition(Car(Idle, 3, []), Err(EmptyQueue))
  {
  }

  /** A call while the doors are open queues the floor without setting the
      car in motion, so it cannot step. */
  lemma ScenarioCallWhileDoorsOpen()
    ensures Run(New(2).value, [OpenDoorsOp, CallOp(4)]) == Car(DoorsOpen, 2, [4])
    ensures Step(Run(New(2).value, [OpenDoorsOp, CallOp(4)])) ==
              Transition(Car(DoorsOpen, 2, [4]), Err(CannotMoveDoorsOpen))
  {
  }
}
