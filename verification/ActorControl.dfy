// What every part of the runtime says about actors.
module ActorControl {

  // A reference to an actor; 0 refers to none.
  type Ref = nat

  datatype Reason = Normal | Stopped | Error

  // A point on the scheduler's clock, or a span of it.
  type Time = int
}
