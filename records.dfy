/** Body records: the numbers a row carries for one body, as the text `<<` prints for them. The
    physics engine is outside the model, so a body's state is a snapshot of printed numbers. */
module Records {
  import opened Numerals
  import opened CsvText

  datatype Vector = Vector(x: Decimal, y: Decimal, z: Decimal)

  /** A quaternion, scalar part `e0` first. */
  datatype Quaternion = Quaternion(e0: Decimal, e1: Decimal, e2: Decimal, e3: Decimal)

  /** A 3x3 matrix as its three rows. */
  datatype Matrix33 = Matrix33(r0: Vector, r1: Vector, r2: Vector)

  /** What the engine reports for one body: position, orientation (as a quaternion and as the
      rotation matrix built from it), their first and second time derivatives, and the
      accumulated force and torque. */
  datatype BodyState = BodyState(
    pos: Vector, rot: Quaternion, rotMatrix: Matrix33,
    vel: Vector, rotDt: Quaternion,
    acc: Vector, rotDtDt: Quaternion,
    force: Vector, torque: Vector)

  function VectorValues(v: Vector): seq<Decimal>
  {
    [v.x, v.y, v.z]
  }

  function QuaternionValues(q: Quaternion): seq<Decimal>
  {
    [q.e0, q.e1, q.e2, q.e3]
  }

  function Entry(m: Matrix33, row: nat, col: nat): Decimal
    requires row < 3 && col < 3
  {
    var r := if row == 0 then m.r0 else if row == 1 then m.r1 else m.r2;
    if col == 0 then r.x else if col == 1 then r.y else r.z
  }

  /** The nine entries in row-major order. */
  function MatrixValues(m: Matrix33): (vs: seq<Decimal>)
    ensures |vs| == 9
    ensures forall row, col :: 0 <= row < 3 && 0 <= col < 3 ==> vs[3 * row + col] == Entry(m, row, col)
  {
    VectorValues(m.r0) + VectorValues(m.r1) + VectorValues(m.r2)
  }

  /** The light row of `BodyToCSV`: general id, instance id, position, rotation matrix. */
  function LightValues(genId: int, specId: int, s: BodyState): (vs: seq<Decimal>)
    ensures |vs| == 14
    ensures vs[0] == FromInt(genId) && vs[1] == FromInt(specId)
  {
    [FromInt(genId), FromInt(specId)] + VectorValues(s.pos) + MatrixValues(s.rotMatrix)
  }

  /** The full row of `SaveBodyData`: ids, then position, orientation, their first and second
      derivatives, then force and torque. */
  function FullValues(genId: int, specId: int, s: BodyState): (vs: seq<Decimal>)
    ensures |vs| == 29
    ensures vs[0] == FromInt(genId) && vs[1] == FromInt(specId)
  {
    [FromInt(genId), FromInt(specId)]
      + VectorValues(s.pos) + QuaternionValues(s.rot)
      + VectorValues(s.vel) + QuaternionValues(s.rotDt)
      + VectorValues(s.acc) + QuaternionValues(s.rotDtDt)
      + VectorValues(s.force) + VectorValues(s.torque)
  }

  predicate WellFormedVector(v: Vector)
  {
    WellFormed(v.x) && WellFormed(v.y) && WellFormed(v.z)
  }

  predicate WellFormedQuaternion(q: Quaternion)
  {
    WellFormed(q.e0) && WellFormed(q.e1) && WellFormed(q.e2) && WellFormed(q.e3)
  }

  /** Every number of the snapshot is something `<<` can print. */
  predicate WellFormedState(s: BodyState)
  {
    && WellFormedVector(s.pos) && WellFormedQuaternion(s.rot)
    && WellFormedVector(s.rotMatrix.r0) && WellFormedVector(s.rotMatrix.r1) && WellFormedVector(s.rotMatrix.r2)
    && WellFormedVector(s.vel) && WellFormedQuaternion(s.rotDt)
    && WellFormedVector(s.acc) && WellFormedQuaternion(s.rotDtDt)
    && WellFormedVector(s.force) && WellFormedVector(s.torque)
  }

  predicate AllWellFormed(ds: seq<Decimal>)
  {
    forall i :: 0 <= i < |ds| ==> WellFormed(ds[i])
  }

  lemma FullValuesWellFormed(genId: int, specId: int, s: BodyState)
    requires WellFormedState(s)
    ensures AllWellFormed(FullValues(genId, specId, s))
  {
  }

  lemma LightValuesWellFormed(genId: int, specId: int, s: BodyState)
    requires WellFormedState(s)
    ensures AllWellFormed(LightValues(genId, specId, s))
  {
  }
}
