/** `TrackedVehicleCreator`: owns the vehicle, remembers what is needed to save it (model and
    powertrain files, initial placement, degree-of-freedom flags), writes save and export files,
    reads a save file back, and routes forces to the vehicle's bodies. */
module Creators {
  import opened Wrappers
  import opened Numerals
  import opened CsvText
  import opened Records
  import opened Parts
  import opened CsvReaders
  import opened RowLoops
  import opened CsvMakers
  import opened Forces
  import opened Vehicles
  import opened Checkpoint
  import opened SaveFiles

  /** The number of values in a row of a save file after the header row. */
  const FullWidth := 29

  /** Whether all six flags are set. */
  predicate AllSet(x: bool, y: bool, z: bool, rx: bool, ry: bool, rz: bool)
  {
    x && y && z && rx && ry && rz
  }

  /** All six flags of a `DOF` array. */
  predicate AllSetIn(flags: seq<bool>)
    requires |flags| == 6
  {
    AllSet(flags[0], flags[1], flags[2], flags[3], flags[4], flags[5])
  }

  /** The vehicle after `Initialize(place)`: placed unless it already was. */
  function Placed(v: VehicleState, initialized: bool, place: Placement): VehicleState
  {
    v.(placement := if initialized then v.placement else Some(place))
  }

  /** The vehicle after `SetPowertrain(file)`: given the powertrain unless it already has one. */
  function Powered(v: VehicleState, powertrain: bool, file: seq<char>): VehicleState
  {
    v.(powertrain := if powertrain then v.powertrain else Some(file))
  }

  /** The vehicle after `RestrictDOF(flags)`: the chassis fixed when all six flags are set, and
      then the link left as it was; otherwise released and linked by the flagged coordinates. */
  function Restricted(v: VehicleState, flags: seq<bool>): VehicleState
    requires |flags| == 6
  {
    v.(chassisFixed := AllSetIn(flags), link := if AllSetIn(flags) then v.link else Some(flags))
  }

  /** The vehicle after the first three calls of `LoadData`. */
  function Prepared(v: VehicleState, initialized: bool, place: Placement, powertrain: bool, file: seq<char>, flags: seq<bool>): VehicleState
    requires |flags| == 6
  {
    Restricted(Powered(Placed(v, initialized, place), powertrain, file), flags)
  }

  /** A first line written into an empty file, then the lines of `rows`, then `tail`. */
  lemma HeaderThenRows(first: seq<char>, rows: seq<seq<char>>, tail: seq<char>)
    ensures [] + first + ['\n'] + Lines(rows) + tail == Lines([first] + rows) + tail
  {
    LinesCons(first, rows);
  }

  /** The export text, as `ExportData` writes it into the cleared file. */
  lemma ExportTextWritten(info: VehicleInfo, parts: seq<Part>, bodies: BodyId -> BodyState)
    ensures ExportText(info, parts, bodies)
         == [] + ExportHeader() + "\n" + Lines(Texts(LightRows(BodiesOf(info, parts), bodies))) + []
  {
    HeaderThenRows(ExportHeader(), Texts(LightRows(BodiesOf(info, parts), bodies)), []);
  }

  // ---------------------------------------------------------------------------------------------
  // Reading a save file

  /** The header reads of the save-file constructor: model file, powertrain file and contact
      method as strings, then the time, the six flags, the position, the orientation and the
      speed as fifteen numbers; a number that does not parse ends it. */
  method ReadSaveHeader(r: CsvReader) returns (h: Result<Header>)
    requires Valid(r.State())
    modifies r
    ensures (h, r.State()) == ReadHeader(old(r.State()))
  {
    var master := r.GetString();
    var powertrain := r.GetString();
    var contact := r.GetString();
    ghost var r3 := r.State();
    var ns: seq<Decimal> := [];
    var k := 0;
    while k < 15
      invariant 0 <= k <= 15 && Valid(r.State())
      invariant ReadNumbers(r3, k) == (Success(ns), r.State())
    {
      var row := NextNumber(r, r3, k, ns);
      if row.Failure? {
        StillFailed(r3, k + 1, 14 - k, row, r.State());
        return Failure(row.error);
      }
      ns := row.value;
      k := k + 1;
    }
    h := Success(DecodeHeader(master, powertrain, contact, ns));
  }

  /** One `GetNumber` more in a row being read. */
  method NextNumber(r: CsvReader, ghost r0: Reader, ghost n: nat, done: seq<Decimal>) returns (row: Result<seq<Decimal>>)
    requires Valid(r0) && ReadNumbers(r0, n) == (Success(done), r.State())
    modifies r
    ensures ReadNumbers(r0, n + 1) == (row, r.State())
  {
    ghost var q := r.State();
    var d := r.GetNumber();
    NumbersThenNumber(r0, n, done, q, d, r.State());
    row := if d.Failure? then Failure(d.error) else Success(done + [d.value]);
  }

  /** One `GetVector` more in a row being read. */
  method NextVector(r: CsvReader, ghost r0: Reader, ghost n: nat, done: seq<Decimal>) returns (row: Result<seq<Decimal>>)
    requires Valid(r0) && ReadNumbers(r0, n) == (Success(done), r.State())
    modifies r
    ensures ReadNumbers(r0, n + 3) == (row, r.State())
  {
    ghost var q := r.State();
    var v := r.GetVector();
    NumbersThenVector(r0, n, done, q, v, r.State());
    row := if v.Failure? then Failure(v.error) else Success(done + VectorValues(v.value));
  }

  /** One `GetQuaternion` more in a row being read. */
  method NextQuaternion(r: CsvReader, ghost r0: Reader, ghost n: nat, done: seq<Decimal>) returns (row: Result<seq<Decimal>>)
    requires Valid(r0) && ReadNumbers(r0, n) == (Success(done), r.State())
    modifies r
    ensures ReadNumbers(r0, n + 4) == (row, r.State())
  {
    ghost var q := r.State();
    var x := r.GetQuaternion();
    NumbersThenQuaternion(r0, n, done, q, x, r.State());
    row := if x.Failure? then Failure(x.error) else Success(done + QuaternionValues(x.value));
  }

  /** A failed run stays failed however far it is continued. */
  lemma StillFailed(r0: Reader, n: nat, m: nat, row: Result<seq<Decimal>>, q: Reader)
    requires Valid(r0) && ReadNumbers(r0, n) == (row, q) && row.Failure?
    ensures ReadNumbers(r0, n + m) == (row, q)
  {
    NumbersFailed(r0, n, m, row.error, q);
  }

  /** The pose of a body in a row being read: general id, instance id, position, orientation. */
  method NextPose(r: CsvReader, ghost r0: Reader, ghost n: nat, done: seq<Decimal>) returns (row: Result<seq<Decimal>>)
    requires Valid(r0) && ReadNumbers(r0, n) == (Success(done), r.State())
    modifies r
    ensures ReadNumbers(r0, n + 9) == (row, r.State())
  {
    row := NextNumber(r, r0, n, done);
    if row.Failure? { StillFailed(r0, n + 1, 8, row, r.State()); return; }
    row := NextNumber(r, r0, n + 1, row.value);
    if row.Failure? { StillFailed(r0, n + 2, 7, row, r.State()); return; }
    row := NextVector(r, r0, n + 2, row.value);
    if row.Failure? { StillFailed(r0, n + 5, 4, row, r.State()); return; }
    row := NextQuaternion(r, r0, n + 5, row.value);
  }

  /** A vector and a quaternion more in a row being read. */
  method NextPair(r: CsvReader, ghost r0: Reader, ghost n: nat, done: seq<Decimal>) returns (row: Result<seq<Decimal>>)
    requires Valid(r0) && ReadNumbers(r0, n) == (Success(done), r.State())
    modifies r
    ensures ReadNumbers(r0, n + 7) == (row, r.State())
  {
    row := NextVector(r, r0, n, done);
    if row.Failure? { StillFailed(r0, n + 3, 4, row, r.State()); return; }
    row := NextQuaternion(r, r0, n + 3, row.value);
  }

  /** Two vectors more in a row being read. */
  method NextVectors(r: CsvReader, ghost r0: Reader, ghost n: nat, done: seq<Decimal>) returns (row: Result<seq<Decimal>>)
    requires Valid(r0) && ReadNumbers(r0, n) == (Success(done), r.State())
    modifies r
    ensures ReadNumbers(r0, n + 6) == (row, r.State())
  {
    row := NextVector(r, r0, n, done);
    if row.Failure? { StillFailed(r0, n + 3, 3, row, r.State()); return; }
    row := NextVector(r, r0, n + 3, row.value);
  }

  /** The 29 reads of a full row after `n` numbers already read. */
  method NextFullRow(r: CsvReader, ghost r0: Reader, ghost n: nat, done: seq<Decimal>) returns (row: Result<seq<Decimal>>)
    requires Valid(r0) && ReadNumbers(r0, n) == (Success(done), r.State())
    modifies r
    ensures ReadNumbers(r0, n + 29) == (row, r.State())
  {
    row := NextPose(r, r0, n, done);
    if row.Failure? { StillFailed(r0, n + 9, 20, row, r.State()); return; }
    row := NextPair(r, r0, n + 9, row.value);
    if row.Failure? { StillFailed(r0, n + 16, 13, row, r.State()); return; }
    row := NextPair(r, r0, n + 16, row.value);
    if row.Failure? { StillFailed(r0, n + 23, 6, row, r.State()); return; }
    row := NextVectors(r, r0, n + 23, row.value);
  }

  /** The reads of one pass of the `LoadData` loop: general id, instance id, then position and
      orientation, their first derivatives, their second derivatives, then force and torque;
      29 numbers in all. */
  method ReadFullRow(r: CsvReader) returns (row: Result<seq<Decimal>>)
    requires Valid(r.State())
    modifies r
    ensures (row, r.State()) == ReadNumbers(old(r.State()), FullWidth)
  {
    row := NextFullRow(r, r.State(), 0, []);
  }

  /** No rows read yet. */
  lemma AfterNothing(res: (Outcome, seq<seq<Decimal>>, Reader))
    ensures After([], res) == res
  {
    assert [] + res.1 == res.1;
  }

  /** An ending with no further rows keeps those read before. */
  lemma AfterEnd(rows: seq<seq<Decimal>>, o: Outcome, q: Reader)
    ensures After(rows, (o, [], q)) == (o, rows, q)
  {
    assert rows + [] == rows;
  }

  /** A pass of the loop whose reads fail ends it. */
  lemma LoopPassFails(r: Reader, width: nat, nextLine: bool, fuel: nat, e: Error, q: Reader)
    requires Valid(r) && ValidRow(r.row) && fuel > 0 && ReadNumbers(r, width) == (Failure(e), q)
    ensures RowLoop(r, width, nextLine, fuel) == (Crashed(e), [], q)
  {
  }

  /** A pass of the loop that reads a row adds it to those read before. */
  lemma LoopPassReads(rows: seq<seq<Decimal>>, r: Reader, width: nat, nextLine: bool, fuel: nat, v: seq<Decimal>, q: Reader)
    requires Valid(r) && ValidRow(r.row) && fuel > 0 && ReadNumbers(r, width) == (Success(v), q)
    ensures After(rows, RowLoop(r, width, nextLine, fuel))
         == After(rows + [v], RowLoop(if nextLine then ReadLine(q) else q, width, nextLine, fuel - 1))
  {
    var tail := RowLoop(if nextLine then ReadLine(q) else q, width, nextLine, fuel - 1);
    assert rows + ([v] + tail.1) == (rows + [v]) + tail.1;
  }

  /** `while (csv.IsValidRow()) { <one row of reads> [csv.GetLine();] }`, for at most `fuel`
      passes: the loop ends when the buffered row does not start with a digit, and a number that
      does not parse ends the program. */
  method ReadBodyRows(r: CsvReader, nextLine: bool, fuel: nat) returns (outcome: Outcome, rows: seq<seq<Decimal>>)
    requires Valid(r.State())
    modifies r
    ensures (outcome, rows, r.State()) == RowLoop(old(r.State()), FullWidth, nextLine, fuel)
  {
    ghost var goal := RowLoop(r.State(), FullWidth, nextLine, fuel);
    AfterNothing(goal);
    rows := [];
    var left: nat := fuel;
    while r.IsValidRow()
      invariant Valid(r.State()) && left <= fuel
      invariant After(rows, RowLoop(r.State(), FullWidth, nextLine, left)) == goal
      decreases left
    {
      if left == 0 {
        AfterEnd(rows, OutOfFuel, r.State());
        return OutOfFuel, rows;
      }
      ghost var q := r.State();
      var row := ReadFullRow(r);
      if row.Failure? {
        LoopPassFails(q, FullWidth, nextLine, left, row.error, r.State());
        AfterEnd(rows, Crashed(row.error), r.State());
        return Crashed(row.error), rows;
      }
      LoopPassReads(rows, q, FullWidth, nextLine, left, row.value, r.State());
      rows := rows + [row.value];
      if nextLine {
        r.GetLine();
      }
      left := left - 1;
    }
    outcome := Done;
    AfterEnd(rows, Done, r.State());
  }

  class Creator {
    /** The vehicle system. */
    const vehicle: Vehicle
    /** `DOF`: which of x, y, z, rot_x, rot_y, rot_z are restricted. */
    const dof: array<bool>
    /** The model file the vehicle was built from. */
    var masterFile: seq<char>
    /** The powertrain file, empty until one is set. */
    var powertrainFile: seq<char>
    /** The save file the creator was restored from. */
    var saveFile: seq<char>
    /** The placement read from a save file, for `LoadData`. */
    var initPos: Vector
    var initRot: Quaternion
    var initFwdVel: Decimal
    /** Whether `Initialize` has placed the vehicle. */
    var initialized: bool
    /** Whether a powertrain has been set. */
    var powertrain: bool
    /** Whether a restricting link has been added. */
    var restricted: bool
    /** The body counts of the vehicle. */
    var info: VehicleInfo

    /** The creator's first save-file row at time `t`. */
    function SavedHeader(t: int): Header
      reads this, vehicle, dof
    {
      Header(masterFile, powertrainFile, vehicle.contact, t, dof[..],
             vehicle.physics.pos, vehicle.physics.rot, vehicle.physics.speed)
    }

    /** The constructor from a model file: the vehicle is built from it with the given contact
        method; no powertrain, no restriction, all six flags clear. The source leaves
        `initialized` unset, so its starting value is a parameter. */
    constructor (masterFile: seq<char>, contact: ContactMethod, physics: Physics, info: VehicleInfo, initialized: bool)
      ensures fresh(vehicle) && fresh(dof)
      ensures vehicle.State() == VehicleState(contact, 0, false, None, None, None, map[], physics)
      ensures dof[..] == [false, false, false, false, false, false]
      ensures this.masterFile == masterFile && powertrainFile == [] && !powertrain && !restricted
      ensures this.initialized == initialized && this.info == info
    {
      vehicle := new Vehicle(contact, physics);
      dof := new bool[6](i => false);
      this.masterFile := masterFile;
      powertrainFile := [];
      saveFile := [];
      initPos := Vector(FromInt(0), FromInt(0), FromInt(0));
      initRot := Quaternion(FromInt(1), FromInt(0), FromInt(0), FromInt(0));
      initFwdVel := FromInt(0);
      this.initialized := initialized;
      powertrain := false;
      restricted := false;
      this.info := info;
    }

    /** `Initialize`: places the vehicle once; a second call changes nothing. */
    method Initialize(p: Placement)
      modifies this, vehicle
      ensures vehicle.State() == Placed(old(vehicle.State()), old(initialized), p)
      ensures initialized
      ensures masterFile == old(masterFile) && powertrainFile == old(powertrainFile) && powertrain == old(powertrain)
      ensures restricted == old(restricted) && info == old(info)
      ensures saveFile == old(saveFile) && initPos == old(initPos) && initRot == old(initRot) && initFwdVel == old(initFwdVel)
    {
      if initialized {
        return;
      }
      vehicle.Initialize(p);
      initialized := true;
    }

    /** `SetPowertrain`: the first call gives the vehicle a powertrain built from `file` and
        records the file; later calls change nothing. */
    method SetPowertrain(file: seq<char>)
      modifies this, vehicle
      ensures vehicle.State() == Powered(old(vehicle.State()), old(powertrain), file)
      ensures powertrain
      ensures powertrainFile == if old(powertrain) then old(powertrainFile) else file
      ensures masterFile == old(masterFile) && initialized == old(initialized)
      ensures restricted == old(restricted) && info == old(info)
      ensures saveFile == old(saveFile) && initPos == old(initPos) && initRot == old(initRot) && initFwdVel == old(initFwdVel)
    {
      if !powertrain {
        vehicle.InitializePowertrain(file);
        powertrain := true;
        powertrainFile := file;
      }
    }

    /** `RestrictDOF`: records the six flags. With all six set the chassis is fixed and nothing
        else changes; otherwise the chassis is released and linked to a fixed ball by a link
        constraining exactly the flagged coordinates, replacing any earlier link. */
    method RestrictDOF(x: bool, y: bool, z: bool, rx: bool, ry: bool, rz: bool)
      requires dof.Length == 6
      modifies this, vehicle, dof
      ensures dof[..] == [x, y, z, rx, ry, rz]
      ensures vehicle.State() == Restricted(old(vehicle.State()), [x, y, z, rx, ry, rz])
      ensures restricted == (old(restricted) || !AllSet(x, y, z, rx, ry, rz))
      ensures masterFile == old(masterFile) && powertrainFile == old(powertrainFile)
      ensures initialized == old(initialized) && powertrain == old(powertrain) && info == old(info)
      ensures saveFile == old(saveFile) && initPos == old(initPos) && initRot == old(initRot) && initFwdVel == old(initFwdVel)
    {
      dof[0], dof[1], dof[2], dof[3], dof[4], dof[5] := x, y, z, rx, ry, rz;
      if AllSet(x, y, z, rx, ry, rz) {
        vehicle.SetFixed(true);
        return;
      } else {
        vehicle.SetFixed(false);
      }
      vehicle.Restrict([x, y, z, rx, ry, rz]);
      restricted := true;
    }

    /** `AddForce`: the force goes to the accumulator of the body the part and instance name (see
        `Target`); an unknown part changes nothing. */
    method AddForce(code: int, id: int, f: Vec3)
      modifies vehicle
      ensures vehicle.State() == old(vehicle.State()).(added := WithForce(old(vehicle.added), code, id, f))
    {
      match Target(code, id)
      case None =>
      case Some(b) =>
        vehicle.AccumulateForce(b, f);
    }

    /** `AddTorque`: as `AddForce`, for the torque accumulator. */
    method AddTorque(code: int, id: int, t: Vec3)
      modifies vehicle
      ensures vehicle.State() == old(vehicle.State()).(added := WithTorque(old(vehicle.added), code, id, t))
    {
      match Target(code, id)
      case None =>
      case Some(b) =>
        vehicle.AccumulateTorque(b, t);
    }

    /** Empties the accumulators of the given bodies, one after the other. */
    method EmptyBodies(bs: seq<BodyId>)
      modifies vehicle
      ensures vehicle.State() == old(vehicle.State()).(added := Emptied(old(vehicle.added), bs))
    {
      ghost var acc := vehicle.added;
      ghost var done: seq<BodyId> := [];
      var k := 0;
      while k < |bs|
        invariant 0 <= k <= |bs| && done == bs[..k]
        invariant vehicle.added == Emptied(acc, done)
        invariant vehicle.State() == old(vehicle.State()).(added := vehicle.added)
      {
        vehicle.EmptyAccumulators(bs[k]);
        EmptiedSnoc(acc, done, bs[k]);
        done := done + [bs[k]];
        k := k + 1;
      }
      assert done == bs;
    }

    /** `ClearAddedForces` as written: for rollers and `id == -1` it visits roller -1 once per
        roller (see `ClearTargetsAsWritten`). */
    method ClearAddedForces(code: int, id: int)
      modifies vehicle
      ensures vehicle.State() == old(vehicle.State()).(added := ClearedAsWritten(old(vehicle.added), info, code, id))
    {
      EmptyBodies(ClearTargetsAsWritten(info, code, id));
    }

    /** `ClearAddedForces` with the roller loops visiting roller `i`, as the other kinds do. */
    method ClearAddedForcesCorrected(code: int, id: int)
      modifies vehicle
      ensures vehicle.State() == old(vehicle.State()).(added := Cleared(old(vehicle.added), info, code, id))
    {
      EmptyBodies(ClearTargets(info, code, id));
    }

    /** `SaveData`: the file `../Outputs/Saves/<prefix>_<t as %.3f>.csv` is opened, cleared and
        filled with the header row, one full row per body in topology order, and "EOF". What
        the file held before does not matter. */
    method SaveData(prefix: seq<char>, t: int, existing: seq<char>) returns (csv: CsvMaker)
      requires dof.Length == 6
      ensures fresh(csv) && !csv.isOpen
      ensures csv.fileName == SaveFileName(prefix, t)
      ensures csv.content == SaveText(SavedHeader(t), info, vehicle.physics.bodies, CreatorTail)
    {
      var h := SavedHeader(t);
      var bodies := vehicle.physics.bodies;
      csv := new CsvMaker(SaveFileName(prefix, t), true, existing);
      var _ := csv.Clear();
      WriteHeader(csv, h);
      WriteBodies(csv, info, bodies);
      csv.Add(CreatorTail);
      csv.Close();
      HeaderThenRows(HeaderRow(h), Texts(BodyRows(Topology(info), bodies)), CreatorTail);
    }

    /** `ExportData(parts_list, filename)`: the file is opened, cleared and filled with the label
        row and one light row per body of each listed kind, in list order. */
    method ExportData(parts: seq<Part>, filename: seq<char>, existing: seq<char>) returns (csv: CsvMaker)
      ensures fresh(csv) && !csv.isOpen && csv.fileName == filename
      ensures csv.content == ExportText(info, parts, vehicle.physics.bodies)
    {
      var bodies := vehicle.physics.bodies;
      csv := new CsvMaker(filename, true, existing);
      var _ := csv.Clear();
      WriteLabels(csv);
      csv.NewLine();
      WriteLightBodies(csv, info, parts, bodies);
      csv.Close();
      ExportTextWritten(info, parts, bodies);
    }

    /** What the save-file constructor sets from a header `h` it read. */
    ghost predicate RestoredFrom(saveFile: seq<char>, h: Header, physics: Physics, info: VehicleInfo)
      reads this, vehicle, dof
    {
      && masterFile == h.master && powertrainFile == h.powertrain && this.saveFile == saveFile
      && dof[..] == h.dof && initPos == h.pos && initRot == h.rot && initFwdVel == h.speed
      && vehicle.State() == VehicleState(h.contact, h.time, false, None, None, None, map[], physics)
      && this.info == info
    }

    /** The fields the save-file constructor sets once its reads have succeeded; the vehicle is
        built from the model file with the contact method read and its clock set to the time
        read. The source leaves `initialized`, `powertrain` and `restricted` unset, so their
        starting values are parameters. */
    constructor FromSave(saveFile: seq<char>, h: Header, physics: Physics, info: VehicleInfo,
                         initialized: bool, powertrain: bool, restricted: bool)
      requires |h.dof| == 6
      ensures fresh(vehicle) && fresh(dof)
      ensures RestoredFrom(saveFile, h, physics, info)
      ensures this.initialized == initialized && this.powertrain == powertrain && this.restricted == restricted
    {
      var v := new Vehicle(h.contact, physics);
      v.SetChTime(h.time);
      vehicle := v;
      dof := new bool[6](i requires 0 <= i < 6 => h.dof[i]);
      masterFile := h.master;
      powertrainFile := h.powertrain;
      this.saveFile := saveFile;
      initPos := h.pos;
      initRot := h.rot;
      initFwdVel := h.speed;
      this.initialized := initialized;
      this.powertrain := powertrain;
      this.restricted := restricted;
      this.info := info;
    }

    /** The save-file constructor reading through the given reader: a creator when every header
        read succeeds, the parse failure otherwise. */
    static method FromReader(r: CsvReader, saveFile: seq<char>, physics: Physics, info: VehicleInfo,
                             initialized: bool, powertrain: bool, restricted: bool) returns (res: Result<Creator>)
      requires Valid(r.State())
      modifies r
      ensures ReadHeader(old(r.State())).0.Failure? ==> res == Failure(ReadHeader(old(r.State())).0.error)
      ensures ReadHeader(old(r.State())).0.Success? ==>
        && res.Success? && fresh(res.value) && fresh(res.value.vehicle) && fresh(res.value.dof)
        && res.value.RestoredFrom(saveFile, ReadHeader(old(r.State())).0.value, physics, info)
        && res.value.initialized == initialized && res.value.powertrain == powertrain
        && res.value.restricted == restricted
    {
      var h := ReadSaveHeader(r);
      if h.Failure? {
        return Failure(h.error);
      }
      var c := new Creator.FromSave(saveFile, h.value, physics, info, initialized, powertrain, restricted);
      return Success(c);
    }

    /** The save-file constructor as written: its reader skips the first line (see `Construct`).
        `file` is what the file at `saveFile` holds, `None` when there is none. */
    static method Restore(saveFile: seq<char>, file: Option<seq<char>>, physics: Physics, info: VehicleInfo,
                          initialized: bool, powertrain: bool, restricted: bool) returns (res: Result<Creator>)
      ensures ReadHeader(Construct(file)).0.Failure? ==> res == Failure(ReadHeader(Construct(file)).0.error)
      ensures ReadHeader(Construct(file)).0.Success? ==>
        && res.Success? && fresh(res.value) && fresh(res.value.vehicle) && fresh(res.value.dof)
        && res.value.RestoredFrom(saveFile, ReadHeader(Construct(file)).0.value, physics, info)
        && res.value.initialized == initialized && res.value.powertrain == powertrain
        && res.value.restricted == restricted
    {
      var r := new CsvReader(file);
      res := FromReader(r, saveFile, physics, info, initialized, powertrain, restricted);
    }

    /** The save-file constructor with a reader that starts on the first line. */
    static method RestoreFromFirstLine(saveFile: seq<char>, file: Option<seq<char>>, physics: Physics, info: VehicleInfo,
                                       initialized: bool, powertrain: bool, restricted: bool) returns (res: Result<Creator>)
      ensures ReadHeader(ConstructFirst(file)).0.Failure? ==> res == Failure(ReadHeader(ConstructFirst(file)).0.error)
      ensures ReadHeader(ConstructFirst(file)).0.Success? ==>
        && res.Success? && fresh(res.value) && fresh(res.value.vehicle) && fresh(res.value.dof)
        && res.value.RestoredFrom(saveFile, ReadHeader(ConstructFirst(file)).0.value, physics, info)
        && res.value.initialized == initialized && res.value.powertrain == powertrain
        && res.value.restricted == restricted
    {
      var r := new CsvReader.First(file);
      res := FromReader(r, saveFile, physics, info, initialized, powertrain, restricted);
    }

    /** The first three calls of `LoadData`: `Initialize` at the saved placement, `SetPowertrain`
        with the saved powertrain file, `RestrictDOF` with the saved flags. */
    method ApplySaved()
      requires dof.Length == 6
      modifies this, vehicle, dof
      ensures initialized && powertrain && dof[..] == old(dof[..])
      ensures vehicle.State() == Prepared(old(vehicle.State()), old(initialized), Placement(old(initPos), old(initRot), old(initFwdVel)),
                                          old(powertrain), old(powertrainFile), old(dof[..]))
      ensures restricted == (old(restricted) || !AllSetIn(old(dof[..])))
      ensures masterFile == old(masterFile) && powertrainFile == old(powertrainFile) && info == old(info)
      ensures saveFile == old(saveFile) && initPos == old(initPos) && initRot == old(initRot) && initFwdVel == old(initFwdVel)
    {
      ghost var flags := dof[..];
      assert flags == [dof[0], dof[1], dof[2], dof[3], dof[4], dof[5]];
      Initialize(Placement(initPos, initRot, initFwdVel));
      SetPowertrain(powertrainFile);
      RestrictDOF(dof[0], dof[1], dof[2], dof[3], dof[4], dof[5]);
    }

    /** `LoadData` as written: after restoring the settings it opens the save file (`file` is what
        it holds) with the reader constructor that skips a line, moves one line on, and loops
        over the rows with no `GetLine` in the loop, for at most `fuel` passes. The source
        discards the values; here the rows read are returned. */
    method LoadData(file: Option<seq<char>>, fuel: nat) returns (outcome: Outcome, rows: seq<seq<Decimal>>)
      requires dof.Length == 6
      modifies this, vehicle, dof
      ensures (outcome, rows) == (RowLoop(ReadLine(Construct(file)), FullWidth, false, fuel).0,
                                  RowLoop(ReadLine(Construct(file)), FullWidth, false, fuel).1)
      ensures initialized && powertrain && dof[..] == old(dof[..])
      ensures vehicle.State() == Prepared(old(vehicle.State()), old(initialized), Placement(old(initPos), old(initRot), old(initFwdVel)),
                                          old(powertrain), old(powertrainFile), old(dof[..]))
      ensures restricted == (old(restricted) || !AllSetIn(old(dof[..])))
      ensures masterFile == old(masterFile) && powertrainFile == old(powertrainFile) && info == old(info)
      ensures saveFile == old(saveFile) && initPos == old(initPos) && initRot == old(initRot) && initFwdVel == old(initFwdVel)
    {
      ApplySaved();
      var r := new CsvReader(file);
      r.GetLine();
      outcome, rows := ReadBodyRows(r, false, fuel);
      r.Close();
    }

    /** `LoadData` with a reader that starts on the first line and a `GetLine` at the end of each
        pass. */
    method LoadDataReadingEveryRow(file: Option<seq<char>>, fuel: nat) returns (outcome: Outcome, rows: seq<seq<Decimal>>)
      requires dof.Length == 6
      modifies this, vehicle, dof
      ensures (outcome, rows) == (RowLoop(ReadLine(ConstructFirst(file)), FullWidth, true, fuel).0,
                                  RowLoop(ReadLine(ConstructFirst(file)), FullWidth, true, fuel).1)
      ensures initialized && powertrain && dof[..] == old(dof[..])
      ensures vehicle.State() == Prepared(old(vehicle.State()), old(initialized), Placement(old(initPos), old(initRot), old(initFwdVel)),
                                          old(powertrain), old(powertrainFile), old(dof[..]))
      ensures restricted == (old(restricted) || !AllSetIn(old(dof[..])))
      ensures masterFile == old(masterFile) && powertrainFile == old(powertrainFile) && info == old(info)
      ensures saveFile == old(saveFile) && initPos == old(initPos) && initRot == old(initRot) && initFwdVel == old(initFwdVel)
    {
      ApplySaved();
      var r := new CsvReader.First(file);
      r.GetLine();
      outcome, rows := ReadBodyRows(r, true, fuel);
      r.Close();
    }
  }
}
