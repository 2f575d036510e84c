/** The force and torque accumulators of the vehicle's bodies, as `AddForce`, `AddTorque` and
    `ClearAddedForces` address them. The accumulators live in the physics engine; here they are a
    map from body to the force and torque added so far, a missing body holding nothing. A part is
    given by its `int` code, so that the values outside the enumeration reach `default:`. */
module Forces {
  import opened Wrappers
  import opened Numerals
  import opened Parts
  import Records

  datatype Vec3 = Vec3(x: real, y: real, z: real)

  const Origin := Vec3(0.0, 0.0, 0.0)

  function Plus(a: Vec3, b: Vec3): Vec3
  {
    Vec3(a.x + b.x, a.y + b.y, a.z + b.z)
  }

  /** The value a parsed vector denotes. */
  function VectorValue(v: Records.Vector): Vec3
  {
    Vec3(Value(v.x), Value(v.y), Value(v.z))
  }

  /** What one body has accumulated: force (world frame) and torque (body frame). */
  datatype Wrench = Wrench(force: Vec3, torque: Vec3)

  const NoWrench := Wrench(Origin, Origin)

  type Accumulators = map<BodyId, Wrench>

  function At(acc: Accumulators, b: BodyId): Wrench
  {
    if b in acc then acc[b] else NoWrench
  }

  /** The body a call with part code `code` and instance `id` reaches: none for a code outside the
      enumeration; instance 0 for the one-body kinds, which ignore `id`; instance `id` otherwise. */
  function Target(code: int, id: int): Option<BodyId>
  {
    match FromCode(code)
    case None => None
    case Some(p) => Some(BodyId(p, if IsSingleton(p) then 0 else id))
  }

  /** `AddForce`: the force is added to the force accumulator of the target body; no torque and no
      other body changes, and an unknown part changes nothing. */
  function WithForce(acc: Accumulators, code: int, id: int, f: Vec3): (r: Accumulators)
    ensures Target(code, id).None? ==> r == acc
    ensures forall b :: Target(code, id) != Some(b) ==> At(r, b) == At(acc, b)
    ensures forall b :: At(r, b).torque == At(acc, b).torque
    ensures forall b :: Target(code, id) == Some(b) ==> At(r, b).force == Plus(At(acc, b).force, f)
  {
    match Target(code, id)
    case None => acc
    case Some(b) => acc[b := At(acc, b).(force := Plus(At(acc, b).force, f))]
  }

  /** `AddTorque`: the torque is added to the torque accumulator of the target body; no force and no
      other body changes, and an unknown part changes nothing. */
  function WithTorque(acc: Accumulators, code: int, id: int, t: Vec3): (r: Accumulators)
    ensures Target(code, id).None? ==> r == acc
    ensures forall b :: Target(code, id) != Some(b) ==> At(r, b) == At(acc, b)
    ensures forall b :: At(r, b).force == At(acc, b).force
    ensures forall b :: Target(code, id) == Some(b) ==> At(r, b).torque == Plus(At(acc, b).torque, t)
  {
    match Target(code, id)
    case None => acc
    case Some(b) => acc[b := At(acc, b).(torque := Plus(At(acc, b).torque, t))]
  }

  /** `Empty_forces_accumulators` on every body of `bs`. */
  function Emptied(acc: Accumulators, bs: seq<BodyId>): (r: Accumulators)
    ensures forall b :: At(r, b) == if b in bs then NoWrench else At(acc, b)
  {
    map b | b in acc.Keys + (set x | x in bs) :: if b in bs then NoWrench else acc[b]
  }

  /** The bodies `ClearAddedForces(part, id)` empties, in the order it visits them: the one body of a
      one-body kind; every instance when `id` is -1; instance `id` otherwise. */
  function ClearTargets(info: VehicleInfo, code: int, id: int): seq<BodyId>
  {
    match FromCode(code)
    case None => []
    case Some(p) =>
      if IsSingleton(p) then [BodyId(p, 0)]
      else if id == -1 then Instances(info, p)
      else [BodyId(p, id)]
  }

  /** The bodies the source visits: for rollers with `id == -1` its loop runs once per roller but
      asks for roller `id` (that is -1) every time, a roller that does not exist. */
  function ClearTargetsAsWritten(info: VehicleInfo, code: int, id: int): seq<BodyId>
  {
    match FromCode(code)
    case None => []
    case Some(p) =>
      if IsSingleton(p) then [BodyId(p, 0)]
      else if id == -1 then
        if p.RollerLeft? || p.RollerRight? then seq(Count(info, p), i => BodyId(p, id))
        else Instances(info, p)
      else [BodyId(p, id)]
  }

  /** The documented contract of `ClearAddedForces`: a body is cleared when it is of the given kind
      and is the kind's one body, or any existing instance when `id` is -1, or instance `id`. */
  predicate Clears(info: VehicleInfo, code: int, id: int, b: BodyId)
  {
    && FromCode(code) == Some(b.part)
    && if IsSingleton(b.part) then b.index == 0
       else if id == -1 then Exists(info, b)
       else b.index == id
  }

  /** `ClearAddedForces` with the roller loop indexing its loop variable. */
  function Cleared(acc: Accumulators, info: VehicleInfo, code: int, id: int): Accumulators
  {
    Emptied(acc, ClearTargets(info, code, id))
  }

  /** `ClearAddedForces` as written. */
  function ClearedAsWritten(acc: Accumulators, info: VehicleInfo, code: int, id: int): Accumulators
  {
    Emptied(acc, ClearTargetsAsWritten(info, code, id))
  }

  // ---------------------------------------------------------------------------------------------
  // Lemmas

  /** Emptying one more body is a single update of the map. */
  lemma EmptiedSnoc(acc: Accumulators, bs: seq<BodyId>, b: BodyId)
    ensures Emptied(acc, bs + [b]) == Emptied(acc, bs)[b := NoWrench]
  {
    var l, r := Emptied(acc, bs + [b]), Emptied(acc, bs)[b := NoWrench];
    assert l.Keys == r.Keys by {
      assert forall x :: x in bs + [b] <==> x in bs || x == b;
    }
    forall x | x in l.Keys
      ensures l[x] == r[x]
    {
      assert x in bs + [b] <==> x in bs || x == b;
    }
  }

  /** `ClearAddedForces` empties exactly the bodies its contract names and leaves every other
      accumulator as it was; an unknown part changes nothing. */
  lemma ClearedBodies(acc: Accumulators, info: VehicleInfo, code: int, id: int)
    ensures forall b :: At(Cleared(acc, info, code, id), b)
                     == if Clears(info, code, id, b) then NoWrench else At(acc, b)
    ensures FromCode(code).None? ==> Cleared(acc, info, code, id) == acc
  {
    forall b
      ensures b in ClearTargets(info, code, id) <==> Clears(info, code, id, b)
    {
      match FromCode(code)
      case None =>
      case Some(p) =>
        if !IsSingleton(p) && id == -1 {
          assert b in Instances(info, p) <==> b.part == p && Exists(info, b) by {
            if b.part == p && Exists(info, b) {
              assert Instances(info, p)[b.index] == b;
            }
          }
        }
    }
    if FromCode(code).None? {
      assert ClearTargets(info, code, id) == [];
      assert Cleared(acc, info, code, id) == acc;
    }
  }

  /** Clearing twice is clearing once: a second `ClearAddedForces` changes nothing. */
  lemma ClearIdempotent(acc: Accumulators, info: VehicleInfo, code: int, id: int)
    ensures Cleared(Cleared(acc, info, code, id), info, code, id) == Cleared(acc, info, code, id)
  {
    var bs := ClearTargets(info, code, id);
    var once := Emptied(acc, bs);
    assert (set x | x in bs) <= once.Keys;
  }

  /** Apart from the roller kinds with `id == -1`, the source clears exactly what its contract
      says. */
  lemma AsWrittenElsewhereAgrees(acc: Accumulators, info: VehicleInfo, code: int, id: int)
    requires !(id == -1 && (code == PartToId(RollerLeft) || code == PartToId(RollerRight)))
    ensures ClearedAsWritten(acc, info, code, id) == Cleared(acc, info, code, id)
  {
    if FromCode(code).Some? {
      var p := FromCode(code).value;
      CodeNamesPart(code, p);
    }
  }

  /** The roller "clear all" as written leaves the accumulators of every existing roller of that
      side untouched: with one roller carrying a force, the force survives the clear. */
  lemma RollerClearAllMisses(acc: Accumulators, info: VehicleInfo, p: Part, b: BodyId)
    requires p.RollerLeft? || p.RollerRight?
    requires b.part == p && Exists(info, b)
    ensures At(ClearedAsWritten(acc, info, PartToId(p), -1), b) == At(acc, b)
    ensures At(Cleared(acc, info, PartToId(p), -1), b) == NoWrench
  {
    CodeNamesPart(PartToId(p), p);
    ClearedBodies(acc, info, PartToId(p), -1);
    assert b !in ClearTargetsAsWritten(info, PartToId(p), -1);
  }

  /** `AddForce` and `AddTorque` on the same body commute: each touches its own accumulator. */
  lemma ForceTorqueCommute(acc: Accumulators, code: int, id: int, f: Vec3, t: Vec3)
    ensures WithTorque(WithForce(acc, code, id, f), code, id, t)
         == WithForce(WithTorque(acc, code, id, t), code, id, f)
  {
  }
}
