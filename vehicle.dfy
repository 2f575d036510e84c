/** The Chrono tracked vehicle as the coupling sees it. The physics engine itself is not modelled:
    what the coupling reads from it (positions, orientations, body states) is a snapshot that only
    the engine changes, and a time step only moves the clock. What the coupling does change is
    kept: the clock, whether the chassis is fixed, the link that restricts its degrees of freedom,
    the placement given by `Initialize`, the powertrain, and the force and torque accumulators. */
module Vehicles {
  import opened Wrappers
  import opened Numerals
  import opened Records
  import opened Parts
  import opened Forces

  /** `ChContactMethod`. */
  datatype ContactMethod = NSC | SMC

  /** Where `Initialize` puts the chassis: position, orientation and forward speed. */
  datatype Placement = Placement(pos: Vector, rot: Quaternion, fwdVel: Decimal)

  /** What the engine reports and the coupling only copies out: the vehicle's position and
      orientation, the chassis speed along x, and the state of every body. */
  datatype Physics = Physics(pos: Vector, rot: Quaternion, speed: Decimal, bodies: BodyId -> BodyState)

  /** Every field of a `Vehicle`, as one value. */
  datatype VehicleState = VehicleState(
    contact: ContactMethod,
    chTime: int,
    chassisFixed: bool,
    link: Option<seq<bool>>,
    placement: Option<Placement>,
    powertrain: Option<seq<char>>,
    added: Accumulators,
    physics: Physics)

  class Vehicle {
    /** The contact method the system was built with. */
    const contact: ContactMethod
    /** The system clock (`GetChTime`), in microseconds. */
    var chTime: int
    /** Whether the chassis body is fixed to the ground. */
    var chassisFixed: bool
    /** The constrained coordinates of the link between the chassis and a fixed ball, when the
        creator has added one (x, y, z, rot_x, rot_y, rot_z). */
    var link: Option<seq<bool>>
    /** The placement given to the vehicle's own `Initialize`, once it has been called. */
    var placement: Option<Placement>
    /** The powertrain file the vehicle was given, once it has been given one. */
    var powertrain: Option<seq<char>>
    /** The force and torque accumulators of the bodies. */
    var added: Accumulators
    /** What the engine reports. */
    var physics: Physics

    function State(): VehicleState
      reads this
    {
      VehicleState(contact, chTime, chassisFixed, link, placement, powertrain, added, physics)
    }

    /** A vehicle freshly built from its model file: clock at zero, nothing fixed, linked,
        placed or accumulated. */
    constructor (contact: ContactMethod, physics: Physics)
      ensures State() == VehicleState(contact, 0, false, None, None, None, map[], physics)
    {
      this.contact := contact;
      chTime := 0;
      chassisFixed := false;
      link := None;
      placement := None;
      powertrain := None;
      added := map[];
      this.physics := physics;
    }

    /** `Accumulate_force` on one body. */
    method AccumulateForce(b: BodyId, f: Vec3)
      modifies this
      ensures State() == old(State()).(added := old(added)[b := At(old(added), b).(force := Plus(At(old(added), b).force, f))])
    {
      added := added[b := At(added, b).(force := Plus(At(added, b).force, f))];
    }

    /** `Accumulate_torque` on one body. */
    method AccumulateTorque(b: BodyId, t: Vec3)
      modifies this
      ensures State() == old(State()).(added := old(added)[b := At(old(added), b).(torque := Plus(At(old(added), b).torque, t))])
    {
      added := added[b := At(added, b).(torque := Plus(At(added, b).torque, t))];
    }

    /** `Empty_forces_accumulators` on one body. */
    method EmptyAccumulators(b: BodyId)
      modifies this
      ensures State() == old(State()).(added := old(added)[b := NoWrench])
    {
      added := added[b := NoWrench];
    }

    /** `GetChassis()->SetFixed`. */
    method SetFixed(fixed: bool)
      modifies this
      ensures State() == old(State()).(chassisFixed := fixed)
    {
      chassisFixed := fixed;
    }

    /** `GetSystem()->SetChTime`. */
    method SetChTime(t: int)
      modifies this
      ensures State() == old(State()).(chTime := t)
    {
      chTime := t;
    }

    /** One integration step of `step` microseconds (`Advance` or `DoStepDynamics`): the
        clock moves on; what the bodies do is the engine's business. */
    method Step(step: int)
      modifies this
      ensures State() == old(State()).(chTime := old(chTime) + step)
    {
      chTime := chTime + step;
    }

    /** The vehicle's own `Initialize`. */
    method Initialize(p: Placement)
      modifies this
      ensures State() == old(State()).(placement := Some(p))
    {
      placement := Some(p);
    }

    /** `InitializePowertrain` with a powertrain built from `file`. */
    method InitializePowertrain(file: seq<char>)
      modifies this
      ensures State() == old(State()).(powertrain := Some(file))
    {
      powertrain := Some(file);
    }

    /** Replace the link that restricts the chassis (and the ball it is fixed to) by one that
        constrains the given coordinates. */
    method Restrict(coords: seq<bool>)
      modifies this
      ensures State() == old(State()).(link := Some(coords))
    {
      link := Some(coords);
    }
  }
}
