/** What the simulators' stepping, settling and coupling promise, stated on the functions that
    specify them. */
module SimulatorProperties {
  import opened Wrappers
  import opened Numerals
  import opened Timing
  import opened Streams
  import opened CsvReaders
  import opened RowLoops
  import opened CsvText
  import opened Parts
  import opened Forces
  import opened Checkpoint
  import opened Inbound
  import opened Simulators

  // ---------------------------------------------------------------------------------------------
  // One step

  /** A step moves the clock by one step (two in the visual simulator), counts one frame, records
      the old clock in `time_passed` (nonvisual only), and writes at most the export and the save
      that are due; nothing else changes. */
  lemma StepEffects(s: SimState, visual: bool, parts: seq<Part>, o: Owner)
    requires visual || s.saveInterval != 0
    ensures var r := Stepped(s, visual, parts, o);
            && r.frameCount == s.frameCount + 1
            && r.vehicle == s.vehicle.(chTime := s.vehicle.chTime + (if visual then 2 else 1) * s.stepSize)
            && r.timePassed == (if visual then s.timePassed else s.vehicle.chTime)
            && r.(timePassed := s.timePassed, frameCount := s.frameCount, outputs := s.outputs, vehicle := s.vehicle) == s
    ensures var r := Stepped(s, visual, parts, o);
            forall name :: name in r.outputs ==>
              name in s.outputs
              || (Exports(s) && name == ExportName(visual, if visual then r.vehicle.chTime else r.timePassed))
              || (!visual && Saves(s) && name == SaveFileName(s.prefix, r.timePassed))
  {
  }

  /** The export directory and the save directory differ, so a save never replaces an export. */
  lemma ExportIsNotSave(visual: bool, t: int, prefix: seq<char>, t2: int)
    ensures ExportName(visual, t) != SaveFileName(prefix, t2)
  {
    var e, v := ExportName(visual, t), SaveFileName(prefix, t2);
    if visual {
      assert e[0] == 'O' && v[0] == '.';
    } else {
      assert e[11] == 'C' && v[11] == 'S';
    }
  }

  /** A step that exports writes the export text of the listed parts, taken after the step. */
  lemma StepExports(s: SimState, visual: bool, parts: seq<Part>, o: Owner)
    requires visual || s.saveInterval != 0
    requires Exports(s)
    ensures var r := Stepped(s, visual, parts, o);
            var name := ExportName(visual, if visual then r.vehicle.chTime else r.timePassed);
            name in r.outputs && r.outputs[name] == ExportText(o.info, parts, r.vehicle.physics.bodies)
  {
    var r := Stepped(s, visual, parts, o);
    ExportIsNotSave(visual, if visual then r.vehicle.chTime else r.timePassed, s.prefix, r.timePassed);
  }

  /** With the default `save_interval` of -1 every frame of an initialized nonvisual model is
      saved; with a positive interval and a frame count that is not negative, exactly the frames
      whose count is a multiple of the interval are. */
  lemma SaveCadence(s: SimState)
    requires s.saveInterval == -1 || (s.saveInterval > 0 && s.frameCount >= 0)
    ensures s.saveInterval == -1 ==> (Saves(s) <==> s.modelInitialized)
    ensures s.saveInterval > 0 ==> (Saves(s) <==> s.modelInitialized && s.frameCount % s.saveInterval == 0)
  {
    if s.saveInterval == -1 {
      assert Abs(s.frameCount) % 1 == 0;
    }
  }

  /** A nonvisual step that saves writes, under the save name of the old clock, the header of the
      stepped vehicle stamped with that clock, its bodies, and no terminator. */
  lemma StepSaves(s: SimState, parts: seq<Part>, o: Owner)
    requires s.saveInterval != 0 && Saves(s)
    ensures var r := Stepped(s, false, parts, o);
            var name := SaveFileName(s.prefix, s.vehicle.chTime);
            name in r.outputs
            && r.outputs[name] == SaveText(SaveHeader(o, r.vehicle, s.vehicle.chTime), o.info, r.vehicle.physics.bodies, SimulatorTail)
  {
  }

  // ---------------------------------------------------------------------------------------------
  // Stepping loops and settling

  /** `while (time_passed < limit) DoStep(...)` ends exactly with `time_passed` at the limit or
      beyond. */
  lemma {:induction false} StepWhileStops(s: SimState, visual: bool, parts: seq<Part>, o: Owner, limit: int, fuel: nat)
    requires visual || s.saveInterval != 0
    ensures StepWhile(s, visual, parts, o, limit, fuel).0 <==> StepWhile(s, visual, parts, o, limit, fuel).1.timePassed >= limit
    decreases fuel
  {
    if s.timePassed < limit && fuel > 0 {
      StepWhileStops(Stepped(s, visual, parts, o), visual, parts, o, limit, fuel - 1);
    }
  }

  /** Steps with exports off and the model not yet initialized write nothing and change only the
      clock, `time_passed` and the frame count. */
  lemma {:induction false} QuietSteps(s: SimState, visual: bool, o: Owner, limit: int, fuel: nat)
    requires visual || s.saveInterval != 0
    requires !s.makeCsv && !s.modelInitialized
    ensures var w := StepWhile(s, visual, [], o, limit, fuel).1;
            w == s.(timePassed := w.timePassed, frameCount := w.frameCount, vehicle := s.vehicle.(chTime := w.vehicle.chTime))
    decreases fuel
  {
    if s.timePassed < limit && fuel > 0 {
      QuietSteps(Stepped(s, visual, [], o), visual, o, limit, fuel - 1);
    }
  }

  /** Settling restores the three settings it held and writes no file: a model that settles ends
      with the clock, `time_passed` and the frame count at 0, initialized, and otherwise as it
      started. */
  lemma SettlingRestores(s: SimState, visual: bool, o: Owner, fuel: nat)
    requires visual || s.saveInterval != 0
    requires !s.modelInitialized
    ensures ModelInitialized(s, visual, o, fuel).0 ==>
              ModelInitialized(s, visual, o, fuel).1
              == s.(timePassed := 0, frameCount := 0, modelInitialized := true, vehicle := s.vehicle.(chTime := 0))
  {
    QuietSteps(Held(s), visual, o, SettleTime, fuel);
  }

  /** The nonvisual loop ends once its clock, taken before each step, reaches the limit: `fuel`
      steps of a positive size suffice when the clock plus `fuel - 1` steps reaches it. */
  lemma {:induction false} NonvisualStepsEnd(s: SimState, parts: seq<Part>, o: Owner, limit: int, fuel: nat)
    requires s.saveInterval != 0 && s.stepSize > 0
    requires fuel >= 1 && s.vehicle.chTime + (fuel - 1) * s.stepSize >= limit
    ensures StepWhile(s, false, parts, o, limit, fuel).0
    decreases fuel
  {
    if s.timePassed < limit {
      var s1 := Stepped(s, false, parts, o);
      if fuel > 1 {
        assert s1.vehicle.chTime + (fuel - 2) * s.stepSize == s.vehicle.chTime + (fuel - 1) * s.stepSize;
        NonvisualStepsEnd(s1, parts, o, limit, fuel - 1);
      }
    }
  }

  /** The nonvisual model settles: with steps of a positive size, `fuel` steps suffice when the
      clock plus `fuel - 1` steps reaches 0.02 s (six steps of 4 ms from a clock at zero). */
  lemma NonvisualModelSettles(s: SimState, o: Owner, fuel: nat)
    requires s.saveInterval != 0 && s.stepSize > 0
    requires fuel >= 1 && s.vehicle.chTime + (fuel - 1) * s.stepSize >= SettleTime
    ensures ModelInitialized(s, false, o, fuel).0
  {
    NonvisualStepsEnd(Held(s), [], o, SettleTime, fuel);
  }

  /** The visual step never moves `time_passed`, so its loop never ends unless it starts ended. */
  lemma {:induction false} VisualStepsNeverEnd(s: SimState, parts: seq<Part>, o: Owner, limit: int, fuel: nat)
    requires s.timePassed < limit
    ensures !StepWhile(s, true, parts, o, limit, fuel).0
    decreases fuel
  {
    if fuel > 0 {
      VisualStepsNeverEnd(Stepped(s, true, parts, o), parts, o, limit, fuel - 1);
    }
  }

  /** As written, the visual model never settles from `time_passed` below 0.02 s, however many
      steps it takes. */
  lemma VisualWarmUpNeverEnds(s: SimState, o: Owner, fuel: nat)
    requires s.timePassed < SettleTime
    ensures !ModelInitialized(s, true, o, fuel).0
  {
    VisualStepsNeverEnd(Held(s), [], o, SettleTime, fuel);
  }

  /** So the visual `RunSyncedSimulation` of a model not yet initialized never reaches its
      coupling loop. */
  lemma VisualSyncedRunHangs(s: SimState, parts: seq<Part>, o: Owner, inbox: Inbox, ratio: int, created: bool, fuel: nat)
    requires ratio != 0 && !s.modelInitialized && s.timePassed < SettleTime
    ensures SyncedRun(s, true, parts, o, inbox, ratio, created, fuel).0 == OutOfFuel
    ensures !SyncedRun(s, true, parts, o, inbox, ratio, created, fuel).1.modelInitialized
  {
    var s1 := if s.simInitialized then s else s.(simInitialized := created);
    VisualWarmUpNeverEnds(s1, o, fuel);
    VisualStepsNeverEnd(Held(s1), [], o, SettleTime, fuel);
    QuietSteps(Held(s1), true, o, SettleTime, fuel);
  }

  /** A corrected visual step that, like the nonvisual one, keeps `time_passed` with the clock,
      here the clock after the step. */
  function TimedStepped(s: SimState, parts: seq<Part>, o: Owner): SimState
  {
    var r := Stepped(s, true, parts, o);
    r.(timePassed := r.vehicle.chTime)
  }

  function TimedWhile(s: SimState, parts: seq<Part>, o: Owner, limit: int, fuel: nat): (bool, SimState)
    decreases fuel
  {
    if s.timePassed >= limit then (true, s)
    else if fuel == 0 then (false, s)
    else TimedWhile(TimedStepped(s, parts, o), parts, o, limit, fuel - 1)
  }

  /** `InitializeModel` on the corrected visual step. */
  function TimedModelInitialized(s: SimState, o: Owner, fuel: nat): (bool, SimState)
  {
    var (settled, w) := TimedWhile(Held(s), [], o, SettleTime, fuel);
    if !settled then (false, w) else (true, Settled(s, w))
  }

  lemma {:induction false} TimedStepsEnd(s: SimState, parts: seq<Part>, o: Owner, limit: int, fuel: nat)
    requires s.stepSize > 0 && fuel >= 1 && s.vehicle.chTime + 2 * fuel * s.stepSize >= limit
    ensures TimedWhile(s, parts, o, limit, fuel).0
    decreases fuel
  {
    if s.timePassed < limit {
      var s1 := TimedStepped(s, parts, o);
      assert s1.timePassed == s.vehicle.chTime + 2 * s.stepSize;
      if s1.timePassed < limit {
        assert s1.vehicle.chTime + 2 * (fuel - 1) * s.stepSize == s.vehicle.chTime + 2 * fuel * s.stepSize;
        TimedStepsEnd(s1, parts, o, limit, fuel - 1);
      }
    }
  }

  /** With the corrected step the visual model settles: `fuel` double steps suffice when they take
      the clock to 0.02 s. */
  lemma TimedWarmUpEnds(s: SimState, o: Owner, fuel: nat)
    requires s.stepSize > 0 && fuel >= 1 && s.vehicle.chTime + 2 * fuel * s.stepSize >= SettleTime
    ensures TimedModelInitialized(s, o, fuel).0
    ensures TimedModelInitialized(s, o, fuel).1.modelInitialized
  {
    TimedStepsEnd(Held(s), [], o, SettleTime, fuel);
  }

  // ---------------------------------------------------------------------------------------------
  // Polling for the inbound file

  /** Polling opens a file exactly when one of the attempts finds it. */
  lemma {:induction false} PollFinds(r: Reader, inbox: Inbox, name: seq<char>, attempt: nat, fuel: nat)
    requires Valid(r)
    ensures Polled(r, inbox, name, attempt, fuel).0 <==> exists j :: attempt <= j < attempt + fuel && inbox(name, j).Some?
    decreases fuel
  {
    if fuel > 0 {
      OpenLoadsFirstLine(r, inbox(name, attempt), [], []);
      var r1 := OpenReader(r, inbox(name, attempt)).1;
      PollFinds(r1, inbox, name, attempt + 1, fuel - 1);
      if inbox(name, attempt).None? {
        assert (exists j :: attempt <= j < attempt + fuel && inbox(name, j).Some?)
           <==> (exists j :: attempt + 1 <= j < attempt + 1 + (fuel - 1) && inbox(name, j).Some?);
      }
    }
  }

  /** The first attempt that finds the file opens it and loads its first line. */
  lemma {:induction false} PollLoadsFirstLine(r: Reader, inbox: Inbox, name: seq<char>, attempt: nat, fuel: nat,
                                             k: nat, first: seq<char>, after: seq<char>)
    requires Valid(r) && attempt <= k < attempt + fuel
    requires forall j :: attempt <= j < k ==> inbox(name, j).None?
    requires inbox(name, k) == Some(first + ['\n'] + after) && '\n' !in first
    ensures var p := Polled(r, inbox, name, attempt, fuel);
            p.0 && p.1.stream == Stream(true, after, false, false) && p.1.row == first && p.1.cursor == 0
    decreases fuel
  {
    OpenLoadsFirstLine(r, inbox(name, attempt), first, after);
    if attempt < k {
      PollLoadsFirstLine(OpenReader(r, inbox(name, attempt)).1, inbox, name, attempt + 1, fuel - 1, k, first, after);
    }
  }

  // ---------------------------------------------------------------------------------------------
  // One pass of the coupling loop

  /** The text the external solver writes: a header line, one printed row per command, and the
      end of the file or `EOF`. */
  function InboundText(header: seq<char>, rows: seq<seq<Decimal>>, tail: seq<char>): seq<char>
  {
    header + ['\n'] + Lines(Texts(rows)) + tail
  }

  /** An inbound file with no rows: both loops stop at once, apply nothing and step. */
  lemma PassOnEmptyFile(s: SimState, visual: bool, parts: seq<Part>, o: Owner, r: Reader, tail: seq<char>, fuel: nat)
    requires visual || s.saveInterval != 0
    requires Valid(r) && Terminator(tail) && r.stream == Stream(true, tail, false, false)
    ensures Pass(s, visual, parts, o, r, fuel) == (Done, Stepped(Loaded(s, o, parts, []), visual, parts, o))
  {
    LastRow(r, tail);
  }

  /** The visual loop reads every row of the file and applies them all, then steps. */
  lemma VisualPassReadsEveryRow(s: SimState, parts: seq<Part>, o: Owner, r: Reader, rows: seq<seq<Decimal>>,
                                tail: seq<char>, fuel: nat)
    requires Printable(rows, InboundWidth) && |rows| > 0 && Terminator(tail) && fuel >= |rows|
    requires Valid(r) && r.stream == Stream(true, Lines(Texts(rows)) + tail, false, false)
    ensures InboundRows(rows)
    ensures Pass(s, true, parts, o, r, fuel) == (Done, Stepped(Loaded(s, o, parts, rows), true, parts, o))
  {
    NextRow(r, rows, InboundWidth, tail);
    LoopReadsEveryRow(ReadLine(r), rows, InboundWidth, tail, fuel);
  }

  /** The nonvisual loop reads every row of a file that has one, but never moves past the last:
      the next read hits the terminator and throws, after all rows were applied and before any
      step. */
  lemma NonvisualPassCrashes(s: SimState, parts: seq<Part>, o: Owner, r: Reader, rows: seq<seq<Decimal>>,
                             tail: seq<char>, fuel: nat)
    requires s.saveInterval != 0
    requires Printable(rows, InboundWidth) && |rows| > 0 && Terminator(tail) && fuel > |rows|
    requires Valid(r) && r.stream == Stream(true, Lines(Texts(rows)) + tail, false, false)
    ensures InboundRows(rows)
    ensures Pass(s, false, parts, o, r, fuel) == (Crashed(ParseError), Loaded(s, o, parts, rows))
  {
    NextRow(r, rows, InboundWidth, tail);
    LoopWithoutGetLineCrashes(ReadLine(r), rows, InboundWidth, tail, fuel);
  }

  /** The text of an inbound file, split after its header line. */
  lemma InboundTextSplits(header: seq<char>, rows: seq<seq<Decimal>>, tail: seq<char>)
    ensures InboundText(header, rows, tail) == header + ['\n'] + (Lines(Texts(rows)) + tail)
  {
  }

  /** A visual pass on the first inbound file that appears reads and applies all its rows, then
      steps. */
  lemma VisualTickAppliesRows(s: SimState, parts: seq<Part>, o: Owner, inbox: Inbox, name: seq<char>, fuel: nat,
                              k: nat, header: seq<char>, rows: seq<seq<Decimal>>, tail: seq<char>)
    requires Printable(rows, InboundWidth) && |rows| > 0 && Terminator(tail) && fuel >= |rows|
    requires 1 <= k < 1 + fuel && forall j :: 1 <= j < k ==> inbox(name, j).None?
    requires inbox(name, k) == Some(InboundText(header, rows, tail)) && '\n' !in header
    ensures InboundRows(rows)
    ensures TickOf(s, true, parts, o, inbox, name, fuel) == (Done, Stepped(Loaded(s, o, parts, rows), true, parts, o))
  {
    TickIs(s, true, parts, o, inbox, name, fuel, fuel);
    var r0 := Construct(inbox(name, 0));
    InboundTextSplits(header, rows, tail);
    PollLoadsFirstLine(r0, inbox, name, 1, fuel, k, header, Lines(Texts(rows)) + tail);
    VisualPassReadsEveryRow(s, parts, o, Polled(r0, inbox, name, 1, fuel).1, rows, tail, fuel);
  }

  /** So after that pass every listed body other than a roller holds exactly the force and torque
      the file's rows give it. */
  lemma VisualTickLoads(s: SimState, parts: seq<Part>, o: Owner, inbox: Inbox, name: seq<char>, fuel: nat,
                        k: nat, header: seq<char>, rows: seq<seq<Decimal>>, tail: seq<char>, b: BodyId)
    requires Printable(rows, InboundWidth) && |rows| > 0 && Terminator(tail) && fuel >= |rows|
    requires 1 <= k < 1 + fuel && forall j :: 1 <= j < k ==> inbox(name, j).None?
    requires inbox(name, k) == Some(InboundText(header, rows, tail)) && '\n' !in header
    requires b.part in parts && Exists(o.info, b) && !IsRoller(b.part)
    ensures InboundRows(rows)
    ensures At(TickOf(s, true, parts, o, inbox, name, fuel).1.vehicle.added, b) == Wrench(ForceSum(rows, b), TorqueSum(rows, b))
  {
    VisualTickAppliesRows(s, parts, o, inbox, name, fuel, k, header, rows, tail);
    TickLoads(s.vehicle.added, o.info, parts, rows, b);
  }

  /** A nonvisual pass on the first inbound file that appears, when it holds a row, ends the
      program. */
  lemma NonvisualTickCrashes(s: SimState, parts: seq<Part>, o: Owner, inbox: Inbox, name: seq<char>, fuel: nat,
                             k: nat, header: seq<char>, rows: seq<seq<Decimal>>, tail: seq<char>)
    requires s.saveInterval != 0
    requires Printable(rows, InboundWidth) && |rows| > 0 && Terminator(tail) && fuel > |rows|
    requires 1 <= k < 1 + fuel && forall j :: 1 <= j < k ==> inbox(name, j).None?
    requires inbox(name, k) == Some(InboundText(header, rows, tail)) && '\n' !in header
    ensures InboundRows(rows)
    ensures TickOf(s, false, parts, o, inbox, name, fuel) == (Crashed(ParseError), Loaded(s, o, parts, rows))
  {
    TickIs(s, false, parts, o, inbox, name, fuel, fuel);
    var r0 := Construct(inbox(name, 0));
    InboundTextSplits(header, rows, tail);
    PollLoadsFirstLine(r0, inbox, name, 1, fuel, k, header, Lines(Texts(rows)) + tail);
    NonvisualPassCrashes(s, parts, o, Polled(r0, inbox, name, 1, fuel).1, rows, tail, fuel);
  }

  /** A pass that finds no file within its attempts changes nothing. */
  lemma TickWaits(s: SimState, visual: bool, parts: seq<Part>, o: Owner, inbox: Inbox, name: seq<char>, fuel: nat)
    requires visual || s.saveInterval != 0
    requires forall j :: 1 <= j < 1 + fuel ==> inbox(name, j).None?
    ensures TickOf(s, visual, parts, o, inbox, name, fuel) == (OutOfFuel, s)
  {
    TickIs(s, visual, parts, o, inbox, name, fuel, fuel);
    PollFinds(Construct(inbox(name, 0)), inbox, name, 1, fuel);
  }

  // ---------------------------------------------------------------------------------------------
  // The loop

  /** After a step that exports, the next pass waits for the inbound file stamped with the same
      time as the export: `time_passed` in the nonvisual simulator, the clock in the visual one
      when every pass refreshes the name (`file_ratio` 1). */
  lemma ReplyAwaited(s: SimState, visual: bool, parts: seq<Part>, o: Owner, name: seq<char>)
    requires visual || s.saveInterval != 0
    requires Exports(s)
    ensures var r := Stepped(s, visual, parts, o);
            var stamp := if visual then r.vehicle.chTime else r.timePassed;
            ExportName(visual, stamp) in r.outputs && NextName(r, visual, 1, name) == InboundName(stamp)
  {
    StepExports(s, visual, parts, o);
  }

  /** With a `file_ratio` above 1 the visual loop renames its inbound file only on frames whose
      count leaves remainder 1, and otherwise waits on the previous name. */
  lemma RatioRefresh(s: SimState, ratio: int, name: seq<char>)
    requires ratio > 1 && s.frameCount >= 0
    ensures NextName(s, true, ratio, name) == if s.frameCount % ratio == 1 then InboundName(s.vehicle.chTime) else name
  {
  }

  /** The coupling loop ends normally only once the simulated time has reached `tend`. */
  lemma {:induction false} SyncLoopEnds(s: SimState, visual: bool, parts: seq<Part>, o: Owner, inbox: Inbox, ratio: int,
                                        name: seq<char>, fuel: nat, ticks: nat)
    requires (visual || s.saveInterval != 0) && (visual ==> ratio != 0)
    ensures var r := SyncLoop(s, visual, parts, o, inbox, ratio, name, fuel, ticks);
            r.0 == Done ==> !Running(r.1, visual)
    decreases ticks
  {
    if Running(s, visual) && ticks > 0 {
      var n := NextName(s, visual, ratio, name);
      var t := TickOf(s, visual, parts, o, inbox, n, fuel);
      SyncPass(s, visual, parts, o, inbox, ratio, name, fuel, ticks);
      if t.0 == Done {
        SyncLoopEnds(t.1, visual, parts, o, inbox, ratio, n, fuel, ticks - 1);
      }
    }
  }
}
