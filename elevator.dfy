/** The controller as the mutable object the driver owns. Each method
    updates the fields in place, step by step as the controller does, and
    is proved to leave exactly the car the pure transition of the same
    name computes, with the same reply. The fields are public, as in the
    controller, so no method assumes the invariant; each one keeps it. */
module ElevatorCore {
  import opened Transitions
  import ElevatorProperties

  class Elevator {
    var state: State
    var floor: int
    var queue: seq<int>

    /** The value copy handed out by `status`. */
    function Status(): (c: Car)
      reads this
      ensures c.state == state && c.floor == floor && c.queue == queue
    {
      Car(state, floor, queue)
    }

    ghost predicate Valid()
      reads this
    {
      Transitions.Valid(Status())
    }

    function CurrentState(): (s: State)
      reads this
      ensures s == Status().state
    {
      state
    }

    function CurrentFloor(): (f: int)
      reads this
      ensures f == Status().floor
    {
      floor
    }

    function Pending(): (q: seq<int>)
      reads this
      ensures q == Status().queue
    {
      queue
    }

    constructor Init(f: int)
      ensures Status() == Car(Idle, f, [])
    {
      state := Idle;
      floor := f;
      queue := [];
    }

    /** `new`: refuses a starting floor outside the range. */
    static method New(f: int) returns (r: Result<Elevator>)
      ensures r.Err? <==> !ValidFloor(f)
      ensures r.Err? ==> r.error == InvalidFloor(f)
      ensures r.Ok? ==> fresh(r.value) && r.value.Status() == Car(Idle, f, []) && r.value.Valid()
      ensures r.Ok? ==> Transitions.New(f) == Ok(r.value.Status())
    {
      if f < MinFloor || f > MaxFloor {
        return Err(InvalidFloor(f));
      }
      var e := new Elevator.Init(f);
      return Ok(e);
    }

    method Call(f: int) returns (r: Result<()>)
      modifies this
      ensures Transition(Status(), r) == Transitions.Call(old(Status()), f)
      ensures old(Valid()) ==> Valid()
    {
      ElevatorProperties.CallPreservesValid(Status(), f);
      if f < MinFloor || f > MaxFloor {
        return Err(InvalidFloor(f));
      }
      if f == floor || f in queue {
        return Ok(());
      }
      if floor > f {
        queue := queue + [f];
        if state == Idle {
          state := MovingDown;
        }
        return Ok(());
      } else if floor < f {
        queue := queue + [f];
        if state == Idle {
          state := MovingUp;
        }
        return Ok(());
      }
      return Ok(());
    }

    method Step() returns (r: Result<()>)
      modifies this
      ensures Transition(Status(), r) == Transitions.Step(old(Status()))
      ensures old(Valid()) ==> Valid()
    {
      ElevatorProperties.StepPreservesValid(Status());
      if state == DoorsOpen {
        return Err(CannotMoveDoorsOpen);
      }
      if queue == [] {
        state := Idle;
        return Err(EmptyQueue);
      }
      var destination := queue[0];
      if floor < destination {
        floor := floor + 1;
      } else if floor > destination {
        floor := floor - 1;
      }
      if floor == destination {
        state := DoorsOpen;
        queue := queue[1..];
      }
      return Ok(());
    }

    method OpenDoors() returns (r: Result<()>)
      modifies this
      ensures Transition(Status(), r) == Transitions.OpenDoors(old(Status()))
      ensures old(Valid()) ==> Valid()
    {
      ElevatorProperties.OpenDoorsPreservesValid(Status());
      if state == DoorsOpen {
        return Err(DoorsAlreadyOpen);
      }
      if state == MovingUp || state == MovingDown {
        return Err(CannotOpenWhileMoving);
      }
      state := DoorsOpen;
      return Ok(());
    }

    method CloseDoors() returns (r: Result<()>)
      modifies this
      ensures Transition(Status(), r) == Transitions.CloseDoors(old(Status()))
      ensures old(Valid()) ==> Valid()
    {
      ElevatorProperties.CloseDoorsPreservesValid(Status());
      if state != DoorsOpen {
        return Err(DoorsAlreadyClosed);
      }
      if queue == [] {
        state := Idle;
      } else {
        var next := queue[0];
        if next > floor {
          state := MovingUp;
        } else {
          state := MovingDown;
        }
      }
      return Ok(());
    }
  }
}
