/** The inbound side of the coupling: the file `star_to_chrono_<t>.csv` the external solver writes
    for a tick, and what its rows do to the force and torque accumulators. After a header line,
    each row holds eight numbers: the part's general id, the instance id, a force (x, y, z) and a
    torque (x, y, z). Before the rows are applied, every listed part is cleared with
    `ClearAddedForces(part)`, whose instance id defaults to -1 ("every instance"). */
module Inbound {
  import opened Wrappers
  import opened Numerals
  import opened Timing
  import opened Parts
  import opened Forces
  import opened Checkpoint

  /** The number of values in an inbound row. */
  const InboundWidth := 8

  /** `"../Inputs/star_to_chrono_%.3f.csv"`. */
  function InboundName(t: int): seq<char>
  {
    "../Inputs/star_to_chrono_" + FixedThree(t) + ".csv"
  }

  /** The directory a simulator exports into: the nonvisual one writes under "../Outputs/CSV",
      the visual one under "Outputs/CSV". */
  function ExportDir(visual: bool): seq<char>
  {
    if visual then "Outputs/CSV" else "../Outputs/CSV"
  }

  /** `"%s/chrono_to_star_%.3f.csv"` in the export directory. */
  function ExportName(visual: bool, t: int): seq<char>
  {
    ExportDir(visual) + "/chrono_to_star_" + FixedThree(t) + ".csv"
  }

  // ---------------------------------------------------------------------------------------------
  // One row

  /** What one row asks for: `AddForce(part, spec_id, force)` and `AddTorque(part, spec_id, moment)`. */
  datatype Command = Command(code: int, id: int, force: Vec3, torque: Vec3)

  /** The command a row holds: the part code by `ID_To_Part` and the instance id by the conversion
      to `int` (both truncate toward zero), then the force and the torque. It is reached through
      `CommandAt`, a recursion that changes nothing, so that the truncations stay folded where
      only the accumulators matter; `CommandIs` unfolds it. */
  function CommandOf(row: seq<Decimal>): Command
    requires |row| == InboundWidth
  {
    CommandAt(row, |row|)
  }

  function CommandAt(row: seq<Decimal>, bound: nat): Command
    requires |row| == InboundWidth
    decreases bound
  {
    if bound == 0 then
      Command(IdToPart(row[0]), Truncate(row[1]),
              Vec3(Value(row[2]), Value(row[3]), Value(row[4])), Vec3(Value(row[5]), Value(row[6]), Value(row[7])))
    else CommandAt(row, bound - 1)
  }

  lemma {:induction false} CommandIs(row: seq<Decimal>, bound: nat)
    requires |row| == InboundWidth
    ensures CommandAt(row, bound) == CommandAt(row, 0)
    decreases bound
  {
    if bound > 0 {
      CommandIs(row, bound - 1);
    }
  }

  /** `AddForce`, then `AddTorque`, on the body the command names. */
  function Apply(acc: Accumulators, c: Command): Accumulators
  {
    WithTorque(WithForce(acc, c.code, c.id, c.force), c.code, c.id, c.torque)
  }

  /** One pass of the row loop. */
  function ApplyRow(acc: Accumulators, row: seq<Decimal>): Accumulators
    requires |row| == InboundWidth
  {
    Apply(acc, CommandOf(row))
  }

  predicate InboundRows(rows: seq<seq<Decimal>>)
  {
    forall i :: 0 <= i < |rows| ==> |rows[i]| == InboundWidth
  }

  /** The rows applied one after the other, first row first. */
  function ApplyRows(acc: Accumulators, rows: seq<seq<Decimal>>): Accumulators
    requires InboundRows(rows)
    decreases |rows|
  {
    if rows == [] then acc else ApplyRow(ApplyRows(acc, rows[..|rows| - 1]), rows[|rows| - 1])
  }

  /** Applying one more row after the others. */
  lemma ApplyRowsSnoc(acc: Accumulators, rows: seq<seq<Decimal>>, row: seq<Decimal>)
    requires InboundRows(rows) && |row| == InboundWidth
    ensures InboundRows(rows + [row])
    ensures ApplyRows(acc, rows + [row]) == ApplyRow(ApplyRows(acc, rows), row)
  {
    assert (rows + [row])[..|rows|] == rows;
  }

  /** The force a row puts on body `b`: its force when it names `b`, none otherwise. */
  function ForceOn(row: seq<Decimal>, b: BodyId): Vec3
    requires |row| == InboundWidth
  {
    var c := CommandOf(row);
    if Target(c.code, c.id) == Some(b) then c.force else Origin
  }

  function TorqueOn(row: seq<Decimal>, b: BodyId): Vec3
    requires |row| == InboundWidth
  {
    var c := CommandOf(row);
    if Target(c.code, c.id) == Some(b) then c.torque else Origin
  }

  /** The total force the rows put on `b`. */
  function ForceSum(rows: seq<seq<Decimal>>, b: BodyId): Vec3
    requires InboundRows(rows)
    decreases |rows|
  {
    if rows == [] then Origin else Plus(ForceSum(rows[..|rows| - 1], b), ForceOn(rows[|rows| - 1], b))
  }

  /** The total torque the rows put on `b`. */
  function TorqueSum(rows: seq<seq<Decimal>>, b: BodyId): Vec3
    requires InboundRows(rows)
    decreases |rows|
  {
    if rows == [] then Origin else Plus(TorqueSum(rows[..|rows| - 1], b), TorqueOn(rows[|rows| - 1], b))
  }

  /** One command adds its force and torque to the body it names and nothing to any other body. */
  lemma ApplyOn(acc: Accumulators, c: Command, b: BodyId)
    ensures At(Apply(acc, c), b)
         == if Target(c.code, c.id) == Some(b) then Wrench(Plus(At(acc, b).force, c.force), Plus(At(acc, b).torque, c.torque))
            else At(acc, b)
  {
    var mid := WithForce(acc, c.code, c.id, c.force);
    assert At(mid, b).torque == At(acc, b).torque;
  }

  lemma PlusAssoc(a: Vec3, b: Vec3, c: Vec3)
    ensures Plus(Plus(a, b), c) == Plus(a, Plus(b, c))
  {
  }

  lemma PlusOrigin(a: Vec3)
    ensures Plus(a, Origin) == a
  {
  }

  /** Applying the rows adds to each body exactly the sum of the forces and the sum of the torques
      of the rows that name it; a body no row names keeps what it had. */
  lemma {:induction false} AppliedSums(acc: Accumulators, rows: seq<seq<Decimal>>, b: BodyId)
    requires InboundRows(rows)
    ensures At(ApplyRows(acc, rows), b)
         == Wrench(Plus(At(acc, b).force, ForceSum(rows, b)), Plus(At(acc, b).torque, TorqueSum(rows, b)))
    decreases |rows|
  {
    if rows != [] {
      var init, last := rows[..|rows| - 1], rows[|rows| - 1];
      var before, c := ApplyRows(acc, init), CommandOf(last);
      assert ApplyRows(acc, rows) == Apply(before, c);
      AppliedSums(acc, init, b);
      ApplyOn(before, c, b);
      var w := At(acc, b);
      if Target(c.code, c.id) == Some(b) {
        PlusAssoc(w.force, ForceSum(init, b), c.force);
        PlusAssoc(w.torque, TorqueSum(init, b), c.torque);
      } else {
        PlusOrigin(ForceSum(init, b));
        PlusOrigin(TorqueSum(init, b));
      }
    }
  }

  // ---------------------------------------------------------------------------------------------
  // Clearing the listed parts

  predicate IsRoller(p: Part)
  {
    p.RollerLeft? || p.RollerRight?
  }

  /** `for (auto part_body : vec) ClearAddedForces(part_body);`, with `ClearAddedForces` as
      written. */
  function ClearedParts(acc: Accumulators, info: VehicleInfo, parts: seq<Part>): Accumulators
    decreases |parts|
  {
    if parts == [] then acc
    else ClearedAsWritten(ClearedParts(acc, info, parts[..|parts| - 1]), info, PartToId(parts[|parts| - 1]), -1)
  }

  /** Clearing one more part after a prefix of the list. */
  lemma ClearedPartsSnoc(acc: Accumulators, info: VehicleInfo, parts: seq<Part>, k: nat)
    requires k < |parts|
    ensures ClearedParts(acc, info, parts[..k + 1])
         == ClearedAsWritten(ClearedParts(acc, info, parts[..k]), info, PartToId(parts[k]), -1)
  {
    assert parts[..k + 1][..k] == parts[..k];
  }

  /** Clearing one kind with `id == -1`: other kinds keep their accumulators, every body of a
      kind other than a roller is emptied, and (as written) no existing roller is. */
  lemma ClearOneKind(acc: Accumulators, info: VehicleInfo, p: Part, b: BodyId)
    ensures b.part != p ==> At(ClearedAsWritten(acc, info, PartToId(p), -1), b) == At(acc, b)
    ensures b.part == p && Exists(info, b) && !IsRoller(p) ==> At(ClearedAsWritten(acc, info, PartToId(p), -1), b) == NoWrench
    ensures b.part == p && IsRoller(p) && b.index != -1 ==> At(ClearedAsWritten(acc, info, PartToId(p), -1), b) == At(acc, b)
  {
    CodeNamesPart(PartToId(p), p);
    if IsRoller(p) {
      assert b.part != p || b.index != -1 ==> b !in ClearTargetsAsWritten(info, PartToId(p), -1);
    } else {
      AsWrittenElsewhereAgrees(acc, info, PartToId(p), -1);
      ClearedBodies(acc, info, PartToId(p), -1);
    }
  }

  /** After the clearing pass, every existing body of a listed kind other than the rollers holds
      nothing; the accumulators of unlisted kinds, and of every existing roller, are untouched. */
  lemma {:induction false} ClearedPartsBodies(acc: Accumulators, info: VehicleInfo, parts: seq<Part>, b: BodyId)
    ensures b.part !in parts ==> At(ClearedParts(acc, info, parts), b) == At(acc, b)
    ensures IsRoller(b.part) && b.index != -1 ==> At(ClearedParts(acc, info, parts), b) == At(acc, b)
    ensures b.part in parts && Exists(info, b) && !IsRoller(b.part) ==> At(ClearedParts(acc, info, parts), b) == NoWrench
    decreases |parts|
  {
    if parts != [] {
      var init, last := parts[..|parts| - 1], parts[|parts| - 1];
      assert parts == init + [last];
      assert b.part in parts <==> b.part in init || b.part == last;
      ClearedPartsBodies(acc, info, init, b);
      ClearOneKind(ClearedParts(acc, info, init), info, last, b);
    }
  }

  /** What a tick leaves on a body of a listed kind other than a roller: exactly the force and
      torque the inbound rows give it, whatever it held before. */
  lemma TickLoads(acc: Accumulators, info: VehicleInfo, parts: seq<Part>, rows: seq<seq<Decimal>>, b: BodyId)
    requires InboundRows(rows)
    requires b.part in parts && Exists(info, b) && !IsRoller(b.part)
    ensures At(ApplyRows(ClearedParts(acc, info, parts), rows), b) == Wrench(ForceSum(rows, b), TorqueSum(rows, b))
  {
    ClearedPartsBodies(acc, info, parts, b);
    AppliedSums(ClearedParts(acc, info, parts), rows, b);
  }

  /** As written, an existing roller is never cleared: the forces of earlier ticks stay and the
      new rows add to them. */
  lemma RollerLoadsAccumulate(acc: Accumulators, info: VehicleInfo, parts: seq<Part>, rows: seq<seq<Decimal>>, b: BodyId)
    requires InboundRows(rows)
    requires IsRoller(b.part) && Exists(info, b)
    ensures At(ApplyRows(ClearedParts(acc, info, parts), rows), b)
         == Wrench(Plus(At(acc, b).force, ForceSum(rows, b)), Plus(At(acc, b).torque, TorqueSum(rows, b)))
  {
    ClearedPartsBodies(acc, info, parts, b);
    AppliedSums(ClearedParts(acc, info, parts), rows, b);
  }

  /** Two ticks wait for the same inbound file exactly when their times round to the same
      millisecond. */
  lemma InboundNames(t1: int, t2: int)
    requires t1 >= 0 && t2 >= 0
    ensures InboundName(t1) == InboundName(t2) <==> Millis(t1) == Millis(t2)
  {
    StampedNames("../Inputs/star_to_chrono_", t1, t2, ".csv");
  }

  /** Two exports of one simulator go to the same file exactly when their times round to the same
      millisecond. */
  lemma ExportNames(visual: bool, t1: int, t2: int)
    requires t1 >= 0 && t2 >= 0
    ensures ExportName(visual, t1) == ExportName(visual, t2) <==> Millis(t1) == Millis(t2)
  {
    StampedNames(ExportDir(visual) + "/chrono_to_star_", t1, t2, ".csv");
  }
}
