/** `TrackedVehicleSimulator` with its nonvisual and visual variants: stepping the vehicle, the
    export and save cadence of `DoStep`, the settling phase of `InitializeModel`, and the loop of
    `RunSyncedSimulation` that couples the vehicle to an external solver through files. The
    physics engine is the `Vehicle` stand-in (a step moves its clock); the driver, the terrain,
    rendering and console output are not modelled. Times are whole microseconds. */
module Simulators {
  import opened Wrappers
  import opened Numerals
  import opened Timing
  import opened CsvText
  import opened Records
  import opened Parts
  import opened Streams
  import opened CsvReaders
  import opened RowLoops
  import opened CsvMakers
  import opened Forces
  import opened Vehicles
  import opened Checkpoint
  import opened SaveFiles
  import opened Creators
  import opened Inbound

  /** `a % b` in C++: the quotient is truncated toward zero, so the remainder has the sign of `a`. */
  function CRem(a: int, b: int): int
    requires b != 0
  {
    var m := Abs(a) % Abs(b);
    if a < 0 then -m else m
  }

  /** `InitializeModel` steps while `time_passed < 0.02`. */
  const SettleTime := 20000

  /** The files the external solver writes: the text of file `name`, if it exists, when it is
      opened for the `attempt`-th time in a tick (attempt 0 is the reader's constructor). */
  type Inbox = (seq<char>, nat) -> Option<seq<char>>

  /** What a step reads from the creator: the model and powertrain files, the six flags and the
      body counts. */
  datatype Owner = Owner(master: seq<char>, powertrain: seq<char>, dof: seq<bool>, info: VehicleInfo)

  /** Every field of a simulator that the model keeps, with the files it has written and the
      vehicle. */
  datatype SimState = SimState(
    tend: int,
    stepSize: int,
    makeCsv: bool,
    postprocess: bool,
    timePassed: int,
    renderCount: int,
    simInitialized: bool,
    modelInitialized: bool,
    saveInterval: int,
    prefix: seq<char>,
    frameCount: int,
    outputs: map<seq<char>, seq<char>>,
    vehicle: VehicleState)

  /** The first row of a save written at time `t`. */
  function SaveHeader(o: Owner, v: VehicleState, t: int): Header
  {
    Header(o.master, o.powertrain, v.contact, t, o.dof, v.physics.pos, v.physics.rot, v.physics.speed)
  }

  /** The clock after one `DoStep`: the nonvisual step integrates once (`vehicle->Advance`), the
      visual one twice (`vehicle->Advance`, then `DoStepDynamics`). */
  function Advanced(v: VehicleState, visual: bool, step: int): VehicleState
  {
    v.(chTime := v.chTime + if visual then 2 * step else step)
  }

  /** `makeCSV && model_initialized`: the step writes an export file. */
  predicate Exports(s: SimState)
  {
    s.makeCsv && s.modelInitialized
  }

  /** `frameCount % save_interval == 0 && model_initialized`: the nonvisual step saves. */
  predicate Saves(s: SimState)
    requires s.saveInterval != 0
  {
    CRem(s.frameCount, s.saveInterval) == 0 && s.modelInitialized
  }

  /** The integration calls of `DoStep`; the nonvisual step first records the clock in
      `time_passed`. */
  function Moved(s: SimState, visual: bool): SimState
  {
    s.(timePassed := if visual then s.timePassed else s.vehicle.chTime,
       vehicle := Advanced(s.vehicle, visual, s.stepSize))
  }

  /** The export of `DoStep`, when it is due: the listed parts into
      `chrono_to_star_<time_passed>.csv` (nonvisual) or `chrono_to_star_<clock>.csv` (visual). */
  function Exported(s: SimState, visual: bool, parts: seq<Part>, o: Owner): SimState
  {
    if !Exports(s) then s
    else
      var name := ExportName(visual, if visual then s.vehicle.chTime else s.timePassed);
      s.(outputs := s.outputs[name := ExportText(o.info, parts, s.vehicle.physics.bodies)])
  }

  /** The simulator's `SaveData`: the save of the current state, stamped with `time_passed`. */
  function WithSave(s: SimState, o: Owner): SimState
  {
    var name := SaveFileName(s.prefix, s.timePassed);
    s.(outputs := s.outputs[name := SaveText(SaveHeader(o, s.vehicle, s.timePassed), o.info, s.vehicle.physics.bodies, SimulatorTail)])
  }

  /** The save of `DoStep`, when it is due (never in the visual simulator). */
  function SavedStep(s: SimState, visual: bool, o: Owner): SimState
    requires visual || s.saveInterval != 0
  {
    if !visual && Saves(s) then WithSave(s, o) else s
  }

  /** `DoStep(parts_list)`. The nonvisual step records the clock in `time_passed`, steps, exports
      the listed parts, saves, and counts the frame. The visual step leaves `time_passed` alone,
      steps twice, exports and counts the frame; it never saves. */
  function Stepped(s: SimState, visual: bool, parts: seq<Part>, o: Owner): SimState
    requires visual || s.saveInterval != 0
  {
    var saved := SavedStep(Exported(Moved(s, visual), visual, parts, o), visual, o);
    saved.(frameCount := saved.frameCount + 1)
  }

  /** `while (time_passed < limit) DoStep(parts);` for at most `fuel` steps: whether the loop
      ended, and the state. */
  function StepWhile(s: SimState, visual: bool, parts: seq<Part>, o: Owner, limit: int, fuel: nat): (r: (bool, SimState))
    requires visual || s.saveInterval != 0
    ensures r.1.saveInterval == s.saveInterval
    decreases fuel
  {
    if s.timePassed >= limit then (true, s)
    else if fuel == 0 then (false, s)
    else StepWhile(Stepped(s, visual, parts, o), visual, parts, o, limit, fuel - 1)
  }

  /** The settings `InitializeModel` holds while the model settles: the chassis fixed, no
      exports, no post-processing. */
  function Held(s: SimState): SimState
  {
    s.(makeCsv := false, postprocess := false, vehicle := s.vehicle.(chassisFixed := true))
  }

  /** The state after settling from `s` to `w`: the held settings restored, the clock, `time_passed`
      and `frameCount` back to 0, the model initialized. */
  function Settled(s: SimState, w: SimState): SimState
  {
    w.(makeCsv := s.makeCsv, postprocess := s.postprocess, timePassed := 0, frameCount := 0,
       modelInitialized := true, vehicle := w.vehicle.(chassisFixed := s.vehicle.chassisFixed, chTime := 0))
  }

  /** `InitializeModel`: hold the settings, step with no parts listed until `time_passed` reaches
      0.02 s, then settle. Whether the settling loop ended within `fuel` steps, and the state. */
  function ModelInitialized(s: SimState, visual: bool, o: Owner, fuel: nat): (r: (bool, SimState))
    requires visual || s.saveInterval != 0
    ensures r.1.saveInterval == s.saveInterval
  {
    var (settled, w) := StepWhile(Held(s), visual, [], o, SettleTime, fuel);
    if !settled then (false, w) else (true, Settled(s, w))
  }

  /** The start of `RunSimulation` and `RunSyncedSimulation`: `InitializeSimulation` unless done
      (it marks the simulator initialized only when it could create its output directories), then
      `InitializeModel` unless done. */
  function Started(s: SimState, visual: bool, o: Owner, created: bool, fuel: nat): (r: (bool, SimState))
    requires visual || s.saveInterval != 0
    ensures r.1.saveInterval == s.saveInterval
  {
    var s1 := if s.simInitialized then s else s.(simInitialized := created);
    if s1.modelInitialized then (true, s1) else ModelInitialized(s1, visual, o, fuel)
  }

  /** The nonvisual `RunSimulation`: start, then step until `time_passed` reaches `tend`. */
  function Ran(s: SimState, parts: seq<Part>, o: Owner, created: bool, fuel: nat): (bool, SimState)
    requires s.saveInterval != 0
  {
    var (settled, s1) := Started(s, false, o, created, fuel);
    if !settled then (false, s1) else StepWhile(s1, false, parts, o, s1.tend, fuel)
  }

  // ---------------------------------------------------------------------------------------------
  // The coupling loop

  /** `while (!reader.Open(filename)) sleep(1);` from attempt `attempt` on, for at most `fuel`
      attempts: whether a file was opened, and the reader. */
  function Polled(r: Reader, inbox: Inbox, name: seq<char>, attempt: nat, fuel: nat): (p: (bool, Reader))
    requires Valid(r)
    ensures Valid(p.1)
    decreases fuel
  {
    if fuel == 0 then (false, r)
    else
      var (ok, r1) := OpenReader(r, inbox(name, attempt));
      if ok then (true, r1) else Polled(r1, inbox, name, attempt + 1, fuel - 1)
  }

  /** One pass of the coupling loop on the inbound file `name`: construct a reader on it, poll
      until it opens, clear the listed parts, skip the header line, apply the rows, step. The
      visual loop moves to the next line after each row; the nonvisual one does not. Reading a
      number that does not parse ends the program. */
  function TickOf(s: SimState, visual: bool, parts: seq<Part>, o: Owner, inbox: Inbox, name: seq<char>, fuel: nat)
    : (r: (Outcome, SimState))
    requires visual || s.saveInterval != 0
    ensures r.1.saveInterval == s.saveInterval
  {
    TickAt(s, visual, parts, o, inbox, name, fuel, fuel)
  }

  /** A proof device, not part of the model: it only counts `bound` down, which keeps the pass
      folded for the verifier; `TickIs` unfolds it. */
  function TickAt(s: SimState, visual: bool, parts: seq<Part>, o: Owner, inbox: Inbox, name: seq<char>, fuel: nat, bound: nat)
    : (r: (Outcome, SimState))
    requires visual || s.saveInterval != 0
    ensures r.1.saveInterval == s.saveInterval
    decreases bound
  {
    if bound > 0 then TickAt(s, visual, parts, o, inbox, name, fuel, bound - 1)
    else
      var (ok, reader) := Polled(Construct(inbox(name, 0)), inbox, name, 1, fuel);
      if !ok then (OutOfFuel, s) else Pass(s, visual, parts, o, reader, fuel)
  }

  /** A pass once the inbound file is open on `r`: clear the listed parts, skip the header line,
      apply the rows, step. */
  function Pass(s: SimState, visual: bool, parts: seq<Part>, o: Owner, r: Reader, fuel: nat): (p: (Outcome, SimState))
    requires Valid(r) && (visual || s.saveInterval != 0)
    ensures p.1.saveInterval == s.saveInterval
  {
    var (out, rows, _) := RowLoop(ReadLine(r), InboundWidth, visual, fuel);
    var loaded := Loaded(s, o, parts, rows);
    if out != Done then (out, loaded) else (Done, Stepped(loaded, visual, parts, o))
  }

  /** The accumulators after the listed parts are cleared and the rows applied. */
  function Loaded(s: SimState, o: Owner, parts: seq<Part>, rows: seq<seq<Decimal>>): SimState
    requires InboundRows(rows)
  {
    s.(vehicle := s.vehicle.(added := ApplyRows(ClearedParts(s.vehicle.added, o.info, parts), rows)))
  }

  lemma {:induction false} TickIs(s: SimState, visual: bool, parts: seq<Part>, o: Owner, inbox: Inbox, name: seq<char>,
                                  fuel: nat, bound: nat)
    requires visual || s.saveInterval != 0
    ensures TickAt(s, visual, parts, o, inbox, name, fuel, bound) == TickAt(s, visual, parts, o, inbox, name, fuel, 0)
    decreases bound
  {
    if bound > 0 {
      TickIs(s, visual, parts, o, inbox, name, fuel, bound - 1);
    }
  }

  /** The inbound file of the next pass: the nonvisual loop names it after `time_passed`; the
      visual loop names it after the clock when `frameCount % file_ratio == 1` or `file_ratio == 1`,
      and otherwise keeps the previous name. */
  function NextName(s: SimState, visual: bool, ratio: int, name: seq<char>): seq<char>
    requires visual ==> ratio != 0
  {
    if !visual then InboundName(s.timePassed)
    else if CRem(s.frameCount, ratio) == 1 || ratio == 1 then InboundName(s.vehicle.chTime)
    else name
  }

  /** The loop condition: `time_passed < tend` (nonvisual), the clock below `tend` (visual). */
  predicate Running(s: SimState, visual: bool)
  {
    if visual then s.vehicle.chTime < s.tend else s.timePassed < s.tend
  }

  /** The coupling loop for at most `ticks` passes, `name` being the previous inbound name. */
  function SyncLoop(s: SimState, visual: bool, parts: seq<Part>, o: Owner, inbox: Inbox, ratio: int, name: seq<char>,
                    fuel: nat, ticks: nat): (r: (Outcome, SimState))
    requires (visual || s.saveInterval != 0) && (visual ==> ratio != 0)
    decreases ticks
  {
    if !Running(s, visual) then (Done, s)
    else if ticks == 0 then (OutOfFuel, s)
    else
      var n := NextName(s, visual, ratio, name);
      var (out, s1) := TickOf(s, visual, parts, o, inbox, n, fuel);
      if out != Done then (out, s1) else SyncLoop(s1, visual, parts, o, inbox, ratio, n, fuel, ticks - 1)
  }

  /** One pass of the coupling loop, while it runs. */
  lemma SyncPass(s: SimState, visual: bool, parts: seq<Part>, o: Owner, inbox: Inbox, ratio: int, name: seq<char>,
                 fuel: nat, ticks: nat)
    requires (visual || s.saveInterval != 0) && (visual ==> ratio != 0)
    requires Running(s, visual) && ticks > 0
    ensures var n := NextName(s, visual, ratio, name);
            var t := TickOf(s, visual, parts, o, inbox, n, fuel);
            t.0 != Done ==> SyncLoop(s, visual, parts, o, inbox, ratio, name, fuel, ticks) == t
    ensures var n := NextName(s, visual, ratio, name);
            var t := TickOf(s, visual, parts, o, inbox, n, fuel);
            t.0 == Done ==> SyncLoop(s, visual, parts, o, inbox, ratio, name, fuel, ticks)
                            == SyncLoop(t.1, visual, parts, o, inbox, ratio, n, fuel, ticks - 1)
  {
  }

  /** `RunSyncedSimulation`: start, one step, then the coupling loop. The inbound name starts
      empty, as `data_file` does. */
  function SyncedRun(s: SimState, visual: bool, parts: seq<Part>, o: Owner, inbox: Inbox, ratio: int, created: bool, fuel: nat)
    : (Outcome, SimState)
    requires (visual || s.saveInterval != 0) && (visual ==> ratio != 0)
  {
    var (settled, s1) := Started(s, visual, o, created, fuel);
    if !settled then (OutOfFuel, s1)
    else SyncLoop(Stepped(s1, visual, parts, o), visual, parts, o, inbox, ratio, [], fuel, fuel)
  }

  // ---------------------------------------------------------------------------------------------
  // Polling

  /** The polling loop. */
  method Poll(r: CsvReader, inbox: Inbox, name: seq<char>, fuel: nat) returns (found: bool)
    requires Valid(r.State())
    modifies r
    ensures (found, r.State()) == Polled(old(r.State()), inbox, name, 1, fuel)
  {
    ghost var goal := Polled(r.State(), inbox, name, 1, fuel);
    var attempt := 1;
    var left: nat := fuel;
    while left > 0
      invariant Valid(r.State()) && Polled(r.State(), inbox, name, attempt, left) == goal
      decreases left
    {
      var ok := r.Open(inbox(name, attempt));
      if ok {
        return true;
      }
      attempt := attempt + 1;
      left := left - 1;
    }
    return false;
  }

  /** Fills a cleared file with a save, as the simulator's `SaveData` writes it. */
  method WriteSave(csv: CsvMaker, h: Header, info: VehicleInfo, bodies: BodyId -> BodyState)
    requires csv.isOpen && csv.content == [] && |h.dof| == 6
    modifies csv
    ensures csv.present == old(csv.present)
    ensures !csv.isOpen && csv.content == SaveText(h, info, bodies, SimulatorTail)
  {
    WriteHeader(csv, h);
    WriteBodies(csv, info, bodies);
    csv.Destroy();
    HeaderThenRows(HeaderRow(h), Texts(BodyRows(Topology(info), bodies)), SimulatorTail);
    assert csv.content + SimulatorTail == csv.content;
  }

  // ---------------------------------------------------------------------------------------------
  // The simulator object

  class Simulator {
    /** The creator whose vehicle is simulated (`vehicleCreator`; `vehicle` is its vehicle). */
    const creator: Creator
    /** Which variant: `TrackedVehicleVisualSimulator` or `TrackedVehicleNonVisualSimulator`. */
    const visual: bool
    /** Length of the simulation. */
    var tend: int
    var stepSize: int
    var makeCsv: bool
    var runPostprocessor: bool
    var timePassed: int
    var renderCount: int
    var simInitialized: bool
    var modelInitialized: bool
    /** Save every `saveInterval` frames. */
    var saveInterval: int
    /** The prefix of save file names. */
    var prefix: seq<char>
    var frameCount: int
    /** The files written so far, by name. */
    var outputs: map<seq<char>, seq<char>>

    function Sim(): SimState
      reads this, creator.vehicle
    {
      SimState(tend, stepSize, makeCsv, runPostprocessor, timePassed, renderCount, simInitialized, modelInitialized,
               saveInterval, prefix, frameCount, outputs, creator.vehicle.State())
    }

    function OwnerOf(): Owner
      reads creator, creator.dof
    {
      Owner(creator.masterFile, creator.powertrainFile, creator.dof[..], creator.info)
    }

    /** What file `name` holds before it is opened for appending. */
    function Existing(name: seq<char>): seq<char>
      reads this
    {
      if name in outputs then outputs[name] else []
    }

    /** The constructor: ten seconds of simulation in steps of 4 ms, no exports, no
        post-processing, save interval -1 (every frame of an initialized nonvisual model), render
        count 1, nothing initialized.
        `frameCount` is left uninitialised by the source; the model takes it as a parameter. */
    constructor (creator: Creator, visual: bool, frameCount: int)
      ensures this.creator == creator && this.visual == visual
      ensures Sim() == SimState(10 * Second, 4000, false, false, 0, 1, false, false, -1, [], frameCount, map[],
                                creator.vehicle.State())
    {
      this.creator := creator;
      this.visual := visual;
      tend := 10 * Second;
      stepSize := 4000;
      makeCsv := false;
      runPostprocessor := false;
      timePassed := 0;
      renderCount := 1;
      simInitialized := false;
      modelInitialized := false;
      saveInterval := -1;
      prefix := [];
      this.frameCount := frameCount;
      outputs := map[];
    }

    method SetSimulationLength(t: int)
      modifies this
      ensures Sim() == old(Sim()).(tend := t)
    {
      tend := t;
    }

    method SetTimeStep(step: int)
      modifies this
      ensures Sim() == old(Sim()).(stepSize := step)
    {
      stepSize := step;
    }

    method SetCSV(enabled: bool)
      modifies this
      ensures Sim() == old(Sim()).(makeCsv := enabled)
    {
      makeCsv := enabled;
    }

    method SetPostProcess(process: bool)
      modifies this
      ensures Sim() == old(Sim()).(postprocess := process)
    {
      runPostprocessor := process;
    }

    /** `SetSaveProperties`: both settings are stored before the save directory is created, so
        they hold whether or not that succeeds. */
    method SetSaveProperties(interval: int, filePrefix: seq<char>)
      modifies this
      ensures Sim() == old(Sim()).(saveInterval := interval, prefix := filePrefix)
    {
      saveInterval := interval;
      prefix := filePrefix;
    }

    /** `InitializeSimulation`: the simulator becomes initialized when its output directories
        could be created (`created`); a failed creation returns early and leaves the flag as it
        was, since the source only ever sets it to true. */
    method InitializeSimulation(created: bool)
      modifies this
      ensures Sim() == old(Sim()).(simInitialized := old(simInitialized) || created)
      ensures old(simInitialized) ==> simInitialized
    {
      simInitialized := simInitialized || created;
    }

    /** The simulator's `SaveData`: the same header and body rows as the creator's, at
        `time_passed`, into `../Outputs/Saves/<prefix>_<time_passed>.csv`, with no `EOF` row. */
    method SaveData()
      requires creator.dof.Length == 6
      modifies this
      ensures Sim() == WithSave(old(Sim()), OwnerOf())
    {
      var name := SaveFileName(prefix, timePassed);
      var csv := new CsvMaker(name, true, Existing(name));
      var _ := csv.Clear();
      WriteSave(csv, creator.SavedHeader(timePassed), creator.info, creator.vehicle.physics.bodies);
      outputs := outputs[name := csv.content];
    }

    /** The integration calls of `DoStep`. */
    method Integrate()
      modifies this, creator.vehicle
      ensures Sim() == Moved(old(Sim()), visual)
    {
      if !visual {
        timePassed := creator.vehicle.chTime;
        creator.vehicle.Step(stepSize);
      } else {
        creator.vehicle.Step(stepSize);
        creator.vehicle.Step(stepSize);
      }
    }

    /** `if (makeCSV && model_initialized) ExportData(parts_list, filename);` */
    method ExportIfDue(parts: seq<Part>)
      modifies this
      ensures Sim() == Exported(old(Sim()), visual, parts, OwnerOf())
    {
      if makeCsv && modelInitialized {
        var name := ExportName(visual, if visual then creator.vehicle.chTime else timePassed);
        var csv := creator.ExportData(parts, name, Existing(name));
        outputs := outputs[name := csv.content];
      }
    }

    /** `if (frameCount % save_interval == 0 && model_initialized) SaveData();` (nonvisual only). */
    method SaveIfDue()
      requires creator.dof.Length == 6 && (visual || saveInterval != 0)
      modifies this
      ensures Sim() == SavedStep(old(Sim()), visual, OwnerOf())
    {
      if !visual && CRem(frameCount, saveInterval) == 0 && modelInitialized {
        SaveData();
      }
    }

    /** `DoStep(parts_list)`. */
    method DoStep(parts: seq<Part>)
      requires creator.dof.Length == 6 && (visual || saveInterval != 0)
      modifies this, creator.vehicle
      ensures Sim() == Stepped(old(Sim()), visual, parts, OwnerOf())
    {
      Integrate();
      ExportIfDue(parts);
      SaveIfDue();
      frameCount := frameCount + 1;
    }

    /** `while (time_passed < limit) DoStep(parts);`, for at most `fuel` steps. */
    method StepUntil(parts: seq<Part>, limit: int, fuel: nat) returns (done: bool)
      requires creator.dof.Length == 6 && (visual || saveInterval != 0)
      modifies this, creator.vehicle
      ensures (done, Sim()) == StepWhile(old(Sim()), visual, parts, OwnerOf(), limit, fuel)
    {
      ghost var goal := StepWhile(Sim(), visual, parts, OwnerOf(), limit, fuel);
      var left: nat := fuel;
      while timePassed < limit
        invariant visual || saveInterval != 0
        invariant StepWhile(Sim(), visual, parts, OwnerOf(), limit, left) == goal
        decreases left
      {
        if left == 0 {
          return false;
        }
        DoStep(parts);
        left := left - 1;
      }
      return true;
    }

    /** The first half of `InitializeModel`: keep the three settings, then hold them. */
    method HoldSettings() returns (fixed: bool, exporting: bool, process: bool)
      modifies this, creator.vehicle
      ensures Sim() == Held(old(Sim()))
      ensures fixed == old(creator.vehicle.chassisFixed) && exporting == old(makeCsv) && process == old(runPostprocessor)
    {
      fixed, exporting, process := creator.vehicle.chassisFixed, makeCsv, runPostprocessor;
      creator.vehicle.SetFixed(true);
      makeCsv, runPostprocessor := false, false;
    }

    /** The last half of `InitializeModel`, once the model has settled. */
    method Settle(ghost s: SimState, fixed: bool, exporting: bool, process: bool)
      requires s.vehicle.chassisFixed == fixed && s.makeCsv == exporting && s.postprocess == process
      modifies this, creator.vehicle
      ensures Sim() == Settled(s, old(Sim()))
    {
      creator.vehicle.SetFixed(fixed);
      makeCsv, runPostprocessor := exporting, process;
      creator.vehicle.SetChTime(0);
      timePassed := creator.vehicle.chTime;
      frameCount := 0;
      modelInitialized := true;
    }

    /** `InitializeModel`. */
    method InitializeModel(fuel: nat) returns (settled: bool)
      requires creator.dof.Length == 6 && (visual || saveInterval != 0)
      modifies this, creator.vehicle
      ensures (settled, Sim()) == ModelInitialized(old(Sim()), visual, OwnerOf(), fuel)
    {
      ghost var s0 := Sim();
      var fixed, exporting, process := HoldSettings();
      settled := StepUntil([], SettleTime, fuel);
      if settled {
        Settle(s0, fixed, exporting, process);
      }
    }

    /** The start shared by the runs. */
    method Start(created: bool, fuel: nat) returns (settled: bool)
      requires creator.dof.Length == 6 && (visual || saveInterval != 0)
      modifies this, creator.vehicle
      ensures (settled, Sim()) == Started(old(Sim()), visual, OwnerOf(), created, fuel)
    {
      if !simInitialized {
        InitializeSimulation(created);
      }
      if !modelInitialized {
        settled := InitializeModel(fuel);
      } else {
        settled := true;
      }
    }

    /** The nonvisual `RunSimulation`. */
    method RunSimulation(parts: seq<Part>, created: bool, fuel: nat) returns (finished: bool)
      requires !visual && creator.dof.Length == 6 && saveInterval != 0
      modifies this, creator.vehicle
      ensures (finished, Sim()) == Ran(old(Sim()), parts, OwnerOf(), created, fuel)
    {
      finished := Start(created, fuel);
      if !finished {
        return;
      }
      finished := StepUntil(parts, tend, fuel);
    }

    /** The pass of that loop on `parts[k]`, after the parts before it were cleared. */
    method ClearNext(parts: seq<Part>, k: nat, ghost v0: VehicleState)
      requires k < |parts|
      requires creator.vehicle.State() == v0.(added := ClearedParts(v0.added, creator.info, parts[..k]))
      modifies creator.vehicle
      ensures creator.vehicle.State() == v0.(added := ClearedParts(v0.added, creator.info, parts[..k + 1]))
    {
      ClearedPartsSnoc(v0.added, creator.info, parts, k);
      creator.ClearAddedForces(PartToId(parts[k]), -1);
    }

    /** `for (auto part_body : vec) ClearAddedForces(part_body);` */
    method ClearParts(parts: seq<Part>)
      modifies creator.vehicle
      ensures creator.vehicle.State()
           == old(creator.vehicle.State()).(added := ClearedParts(old(creator.vehicle.added), creator.info, parts))
    {
      ghost var v0 := creator.vehicle.State();
      var k := 0;
      while k < |parts|
        invariant 0 <= k <= |parts|
        invariant creator.vehicle.State() == v0.(added := ClearedParts(v0.added, creator.info, parts[..k]))
      {
        ClearNext(parts, k, v0);
        k := k + 1;
      }
      assert parts[..|parts|] == parts;
    }

    /** The reads of one inbound row: general id, instance id, force, moment. */
    static method ReadInboundRow(r: CsvReader) returns (row: Result<seq<Decimal>>)
      requires Valid(r.State())
      modifies r
      ensures (row, r.State()) == ReadNumbers(old(r.State()), InboundWidth)
    {
      ghost var r0 := r.State();
      row := NextNumber(r, r0, 0, []);
      if row.Failure? { StillFailed(r0, 1, 7, row, r.State()); return; }
      row := NextNumber(r, r0, 1, row.value);
      if row.Failure? { StillFailed(r0, 2, 6, row, r.State()); return; }
      row := NextVectors(r, r0, 2, row.value);
    }

    /** `AddForce(part, spec_id, force); AddTorque(part, spec_id, moment);` for one more row. */
    method ApplyCommand(row: seq<Decimal>, ghost acc: Accumulators, ghost rows: seq<seq<Decimal>>)
      requires |row| == InboundWidth && InboundRows(rows) && creator.vehicle.added == ApplyRows(acc, rows)
      modifies creator.vehicle
      ensures InboundRows(rows + [row])
      ensures creator.vehicle.State() == old(creator.vehicle.State()).(added := ApplyRows(acc, rows + [row]))
    {
      var c := CommandOf(row);
      creator.AddForce(c.code, c.id, c.force);
      creator.AddTorque(c.code, c.id, c.torque);
      ApplyRowsSnoc(acc, rows, row);
    }

    /** One pass of the inbound row loop, after `rows` were applied to `acc`: read a row, apply it,
        and move to the next line in the visual simulator. */
    method ApplyNextRow(r: CsvReader, nextLine: bool, ghost rows: seq<seq<Decimal>>, ghost left: nat, ghost acc: Accumulators)
      returns (row: Result<seq<Decimal>>)
      requires Valid(r.State()) && ValidRow(r.State().row) && left > 0
      requires InboundRows(rows) && creator.vehicle.added == ApplyRows(acc, rows)
      modifies r, creator.vehicle
      ensures Valid(r.State())
      ensures row.Failure? ==> RowLoop(old(r.State()), InboundWidth, nextLine, left) == (Crashed(row.error), [], r.State())
      ensures row.Failure? ==> creator.vehicle.State() == old(creator.vehicle.State())
      ensures row.Success? ==>
        && |row.value| == InboundWidth && InboundRows(rows + [row.value])
        && After(rows, RowLoop(old(r.State()), InboundWidth, nextLine, left))
           == After(rows + [row.value], RowLoop(r.State(), InboundWidth, nextLine, left - 1))
        && creator.vehicle.State() == old(creator.vehicle.State()).(added := ApplyRows(acc, rows + [row.value]))
    {
      ghost var q := r.State();
      row := ReadInboundRow(r);
      if row.Failure? {
        LoopPassFails(q, InboundWidth, nextLine, left, row.error, r.State());
        return;
      }
      LoopPassReads(rows, q, InboundWidth, nextLine, left, row.value, r.State());
      ApplyCommand(row.value, acc, rows);
      if nextLine {
        r.GetLine();
      }
    }

    /** `while (reader.IsValidRow()) { <read a row>; AddForce; AddTorque; [reader.GetLine();] }`,
        for at most `fuel` rows. */
    method ApplyInbound(r: CsvReader, nextLine: bool, fuel: nat) returns (outcome: Outcome, rows: seq<seq<Decimal>>)
      requires Valid(r.State())
      modifies r, creator.vehicle
      ensures (outcome, rows, r.State()) == RowLoop(old(r.State()), InboundWidth, nextLine, fuel)
      ensures InboundRows(rows)
      ensures creator.vehicle.State() == old(creator.vehicle.State()).(added := ApplyRows(old(creator.vehicle.added), rows))
    {
      ghost var v0 := creator.vehicle.State();
      ghost var goal := RowLoop(r.State(), InboundWidth, nextLine, fuel);
      AfterNothing(goal);
      rows := [];
      var left: nat := fuel;
      while r.IsValidRow()
        invariant Valid(r.State()) && left <= fuel && InboundRows(rows)
        invariant After(rows, RowLoop(r.State(), InboundWidth, nextLine, left)) == goal
        invariant creator.vehicle.State() == v0.(added := ApplyRows(v0.added, rows))
        decreases left
      {
        if left == 0 {
          AfterEnd(rows, OutOfFuel, r.State());
          return OutOfFuel, rows;
        }
        var row := ApplyNextRow(r, nextLine, rows, left, v0.added);
        if row.Failure? {
          AfterEnd(rows, Crashed(row.error), r.State());
          return Crashed(row.error), rows;
        }
        rows := rows + [row.value];
        left := left - 1;
      }
      outcome := Done;
      AfterEnd(rows, Done, r.State());
    }

    /** One pass of the coupling loop on the inbound file `name`. */
    method Tick(parts: seq<Part>, inbox: Inbox, name: seq<char>, fuel: nat) returns (outcome: Outcome)
      requires creator.dof.Length == 6 && (visual || saveInterval != 0)
      modifies this, creator.vehicle
      ensures (outcome, Sim()) == TickOf(old(Sim()), visual, parts, OwnerOf(), inbox, name, fuel)
    {
      TickIs(Sim(), visual, parts, OwnerOf(), inbox, name, fuel, fuel);
      var reader := new CsvReader(inbox(name, 0));
      var found := Poll(reader, inbox, name, fuel);
      if !found {
        return OutOfFuel;
      }
      outcome := Load(reader, parts, fuel);
      if visual {
        reader.Close();
      }
    }

    /** The pass once the inbound file is open. */
    method Load(reader: CsvReader, parts: seq<Part>, fuel: nat) returns (outcome: Outcome)
      requires Valid(reader.State()) && creator.dof.Length == 6 && (visual || saveInterval != 0)
      modifies this, creator.vehicle, reader
      ensures (outcome, Sim()) == Pass(old(Sim()), visual, parts, OwnerOf(), old(reader.State()), fuel)
    {
      ClearParts(parts);
      reader.GetLine();
      var rows;
      outcome, rows := ApplyInbound(reader, visual, fuel);
      if outcome == Done {
        DoStep(parts);
      }
    }

    /** The inbound file of the next pass. */
    method NextFile(fileRatio: int, dataFile: seq<char>) returns (name: seq<char>)
      requires visual ==> fileRatio != 0
      ensures name == NextName(Sim(), visual, fileRatio, dataFile)
    {
      if !visual {
        name := InboundName(timePassed);
      } else if CRem(frameCount, fileRatio) == 1 || fileRatio == 1 {
        name := InboundName(creator.vehicle.chTime);
      } else {
        name := dataFile;
      }
    }

    /** One pass of the coupling loop: pick the inbound file, then tick on it. */
    method TickNext(parts: seq<Part>, inbox: Inbox, fileRatio: int, dataFile: seq<char>, fuel: nat)
      returns (outcome: Outcome, name: seq<char>)
      requires creator.dof.Length == 6 && (visual || saveInterval != 0) && (visual ==> fileRatio != 0)
      modifies this, creator.vehicle
      ensures name == NextName(old(Sim()), visual, fileRatio, dataFile)
      ensures (outcome, Sim()) == TickOf(old(Sim()), visual, parts, OwnerOf(), inbox, name, fuel)
    {
      name := NextFile(fileRatio, dataFile);
      outcome := Tick(parts, inbox, name, fuel);
    }

    /** The coupling loop of `RunSyncedSimulation`, for at most `fuel` passes. */
    method Couple(parts: seq<Part>, inbox: Inbox, fileRatio: int, fuel: nat) returns (outcome: Outcome)
      requires creator.dof.Length == 6 && (visual || saveInterval != 0) && (visual ==> fileRatio != 0)
      modifies this, creator.vehicle
      ensures (outcome, Sim()) == SyncLoop(old(Sim()), visual, parts, OwnerOf(), inbox, fileRatio, [], fuel, fuel)
    {
      var dataFile: seq<char> := [];
      ghost var goal := SyncLoop(Sim(), visual, parts, OwnerOf(), inbox, fileRatio, dataFile, fuel, fuel);
      var left: nat := fuel;
      while if visual then creator.vehicle.chTime < tend else timePassed < tend
        invariant visual || saveInterval != 0
        invariant SyncLoop(Sim(), visual, parts, OwnerOf(), inbox, fileRatio, dataFile, fuel, left) == goal
        decreases left
      {
        if left == 0 {
          return OutOfFuel;
        }
        SyncPass(Sim(), visual, parts, OwnerOf(), inbox, fileRatio, dataFile, fuel, left);
        left := left - 1;
        outcome, dataFile := TickNext(parts, inbox, fileRatio, dataFile, fuel);
        if outcome != Done {
          return;
        }
      }
      return Done;
    }

    /** `RunSyncedSimulation`; `fileRatio` is the visual variant's `file_ratio`. */
    method RunSyncedSimulation(parts: seq<Part>, inbox: Inbox, fileRatio: int, created: bool, fuel: nat)
      returns (outcome: Outcome)
      requires creator.dof.Length == 6 && (visual || saveInterval != 0) && (visual ==> fileRatio != 0)
      modifies this, creator.vehicle
      ensures (outcome, Sim()) == SyncedRun(old(Sim()), visual, parts, OwnerOf(), inbox, fileRatio, created, fuel)
    {
      var settled := Start(created, fuel);
      if !settled {
        return OutOfFuel;
      }
      DoStep(parts);
      outcome := Couple(parts, inbox, fileRatio, fuel);
    }
  }
}
