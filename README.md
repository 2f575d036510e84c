# Chrono–STAR coupling, modelled in Dafny

This project models the core of `chrono-star-coupling`, which couples a Chrono tracked vehicle
simulation to an external CFD solver (STAR-CCM+) through CSV files. Each coupling tick runs like this:

- The vehicle side exports the pose of the bodies that were asked for into
  `chrono_to_star_<t>.csv`.
- It waits for the solver's reply `star_to_chrono_<t>.csv`.
- It clears the force accumulators of those bodies.
- It adds the forces and torques that each reply row names.
- It steps.

Every so many frames it also writes a save file. `Creator/TrackedVehicleCreator.cpp` defines a
constructor and a `LoadData` that restore a creator from such a file, but the class as declared
does not have them (see "## Left out"); the model follows those definitions.

The modules follow the source's structure:

| module | file | models |
|---|---|---|
| `Wrappers` | wrappers.dfy | `Option`, `Result` and the one error a parse can raise (`ParseError`) |
| `Streams` | streams.dfy | an `std::ifstream` and libstdc++ `getline` (eof and fail bits) |
| `Numerals` | numerals.dfy | what `<<` prints for a `double`, `int` or `bool`; what `std::stod` reads back; the `(int)` cast |
| `Timing` | timing.dfy | time in whole microseconds; `%.3f` in file names; `<<` of the time |
| `CsvText` | csv_text.dfy | cells, rows and lines as text |
| `CsvReaders` | csv_reader.dfy | `CSVReader`: first as functions over a `Reader` value, then as the class `CsvReader` |
| `CsvMakers` | csv_maker.dfy | `CSVMaker` (and `CSVWriter`, which is the same code): the class `CsvMaker` over the file text |
| `Parts` | parts.dfy | the `Parts` enumeration, `Part_to_ID`, `ID_To_Part`, `VehicleInfo`, the topology order of the bodies |
| `Records` | records.dfy | vectors, quaternions, matrices, body states and the rows `BodyToCSV` and `SaveBodyData` print |
| `RowLoops` | row_loops.dfy | `while (IsValidRow()) { ... }`, with and without a `GetLine` |
| `Forces` | forces.dfy | `AddForce`, `AddTorque` and `ClearAddedForces` on a map of accumulators |
| `Vehicles` | vehicle.dfy | the stand-in for the Chrono vehicle: clock, fixed chassis, link, placement, powertrain, accumulators, an opaque physics snapshot |
| `Checkpoint` | checkpoint.dfy | the layouts of the save file and the export file, and reading them back |
| `SaveFiles` | save_files.dfy | the writers of those files, as methods on a `CsvMaker` |
| `Creators` | creator.dfy | `TrackedVehicleCreator` as the class `Creator` |
| `Inbound` | inbound.dfy | reply rows as commands; clearing the listed parts; file names |
| `Simulators` | simulator.dfy | both simulators as one class `Simulator`: `DoStep`, `InitializeModel`, the runs and the coupling loop |
| `SimulatorProperties` | simulator_properties.dfy | what stepping, settling and coupling promise |

Conventions:

- A `double` time is a whole number of microseconds (`Timing.Second`).
- Numbers in files are kept as text-level numerals (`Numerals.Decimal`), so the codec is exact.
- C++'s `%` on `int` truncates toward zero. It is written out as `Simulators.CRem`.
- Loops that may run forever (polling, the coupling loop, reading rows, settling) take a `fuel` bound.
  They report `OutOfFuel` when the bound is used up.
- A `GetNumber` whose `stod` throws ends the program. The model reports this as `Crashed(ParseError)`.
- The files the solver writes are an `Inbox`. An `Inbox` maps a file name and an attempt number to
  the file's text, or to nothing when the file does not exist yet.

## Model

| member | source | states |
|---|---|---|
| Streams.Getline | CSV/CSVReader.cpp:18-21 | `getline` yields a line without a newline; a failed stream keeps the row and sets fail |
| Streams.GetlineLine | CSV/CSVReader.cpp:18-21 | on a terminated line, `getline` returns it and consumes it with its newline |
| Streams.GetlineAtEnd | CSV/CSVReader.cpp:18-21 | at the end of the file, `getline` sets eof and fail and empties the row |
| Streams.GetlineUnterminated | CSV/CSVReader.cpp:18-21 | a last line without a newline is returned and sets eof |
| Numerals.NatText | CSV/CSVMaker.h:57-61 | `<<` of a natural number prints its shortest digit string, whose value is the number |
| Numerals.NatTextInjective | CSV/CSVMaker.h:57-61 | distinct numbers print differently |
| Numerals.FormatShape | CSV/CSVMaker.h:57-61 | a printed numeral is non-empty and holds no comma or newline; it starts with a digit exactly when it is not negative |
| Numerals.ScanNumber | CSV/CSVReader.cpp:34 | `stod` consumes at least one character and never more than the text holds |
| Numerals.NoNumeral | CSV/CSVReader.cpp:34 | the model's `stod` fails exactly when, after white space and an optional sign, neither a digit nor a point and a digit follows; so it fails on empty text, `EOF` and every letter (the `inf`, `nan` and hexadecimal forms, and the `out_of_range` throw on numerals beyond a `double`'s range, are left out) |
| Numerals.ScanNumberDigits | CSV/CSVReader.cpp:34 | what `stod` reads is made of digit runs, with at least one digit |
| Numerals.ScanFormat | CSV/CSVReader.cpp:34 | `stod` on what `<<` printed, followed by a comma or by the end of the line, consumes exactly that text and returns the same numeral |
| Numerals.TruncateReal | Creator/TrackedVehicleCreator.cpp:299-303 | the `(int)` cast truncates toward zero |
| Numerals.FromInt | CSV/CSVMaker.cpp:26-30 | an `int` printed with `<<`, then read back and truncated, is the same integer |
| Numerals.FromBool | Creator/TrackedVehicleCreator.cpp:53-58 | a `bool` printed as 1 or 0 and read back as a number recovers the flag |
| Timing.Digits3 | Creator/TrackedVehicleCreator.cpp:81 | three digits whose value is the millisecond count |
| Timing.Digits6 | Creator/TrackedVehicleCreator.cpp:52 | six digits whose value is the microsecond count |
| Timing.TimeNumeral | Creator/TrackedVehicleCreator.cpp:52 | the time printed into a save file is a well-formed numeral |
| Timing.TimeRoundTrip | Creator/TrackedVehicleCreator.cpp:52 | a time written into a save file and read back is the same time |
| Timing.FixedThreeNames | Creator/TrackedVehicleCreator.cpp:81 | two times print the same under `%.3f` exactly when they round to the same millisecond |
| CsvText.SplitJoin | CSV/CSVMaker.h:43-46 | cells free of commas, joined with commas, split back into the same cells |
| CsvText.JoinCommas | CSV/CSVMaker.h:43-46 | a row of n comma-free cells holds exactly n - 1 commas |
| CsvText.LinesAppend | CSV/CSVMaker.h:32-35 | the lines of two runs of rows are the lines of the first, then those of the second |
| CsvText.FormattedCellsPlain | CSV/CSVMaker.h:57-61 | printed numerals are plain cells |
| CsvReaders.ReadLine | CSV/CSVReader.cpp:18-21 | `GetLine` puts the next line in the buffer and sets the cursor to 0 |
| CsvReaders.ReadNumber | CSV/CSVReader.cpp:27-38 | `GetNumber` leaves the stream and row alone unless the cursor is past the last delimiter |
| CsvReaders.RollOver | CSV/CSVReader.cpp:30-32 | with the cursor one past the end of the row, `GetNumber` reads from the start of the next line |
| CsvReaders.ReadCell | CSV/CSVReader.cpp:34-35 | a cell that reads as d returns d and moves the cursor past the cell and its delimiter |
| CsvReaders.ReadJoined | CSV/CSVReader.cpp:27-38 | from the start of a printed row, one `GetNumber` per number returns exactly those numbers in order and leaves the cursor one past the end |
| CsvReaders.FormatReads | CSV/CSVReader.cpp:34 | what the writer prints for a number reads back as that number |
| CsvReaders.NoNumber | CSV/CSVReader.cpp:34 | `GetNumber` fails on `EOF` and on an empty remainder |
| CsvReaders.ReadNumbers | CSV/CSVReader.cpp:63-68 | a successful run of n reads yields n numbers |
| CsvReaders.ReadNumbersFails | CSV/CSVReader.cpp:63-68 | a first read that fails fails the whole run with the same error |
| CsvReaders.ValidRowCases | CSV/CSVReader.cpp:23-25 | `IsValidRow` rejects `EOF`, an empty row and a leading minus; it accepts a printed row exactly when the row's first number is not negative |
| CsvReaders.OpenLoadsFirstLine | CSV/CSVReader.cpp:40-53 | `Open` succeeds exactly when the file exists; it then holds the first line with the cursor at 0; on failure the buffer is unchanged and the stream has failed |
| CsvReaders.CloseResets | CSV/CSVReader.cpp:55-61 | `Close` resets the cursor and `*processed` only when a file was attached |
| CsvReaders.GetLineTwice | CSV/CSVReader.h:25-28 | two `GetLine` calls skip a line and load the one after it |
| CsvReaders.ConstructorSkipsFirstLine | CSV/CSVReader.cpp:5-9 | the constructor as written leaves the second line in the buffer; the documented constructor leaves the first |
| CsvReaders.CsvReader.constructor | CSV/CSVReader.cpp:5-9 | the state after construction is `Construct(file)`: `Open`, `*processed = 0`, then one more `getline` |
| CsvReaders.CsvReader.First | CSV/CSVReader.h:18-20 | the state after construction is `ConstructFirst(file)`: the first line is loaded |
| CsvReaders.CsvReader.GetLine | CSV/CSVReader.cpp:18-21 | the new state is `ReadLine` of the old one |
| CsvReaders.CsvReader.IsValidRow | CSV/CSVReader.cpp:23-25 | the result is true exactly when the row starts with a digit |
| CsvReaders.CsvReader.GetNumber | CSV/CSVReader.cpp:27-38 | the result and the new state are `ReadNumber` of the old state |
| CsvReaders.CsvReader.GetVector | CSV/CSVReader.cpp:63-68 | three reads in x, y, z order; the first failure ends the call |
| CsvReaders.CsvReader.GetQuaternion | Creator/TrackedVehicleCreator.cpp:206 | four reads with e0 first; the first failure ends the call |
| CsvReaders.CsvReader.GetString | Creator/TrackedVehicleCreator.cpp:43-46 | reads the cell at the cursor as text, as `ReadString` does |
| CsvReaders.CsvReader.Open | CSV/CSVReader.cpp:40-53 | the result and the new state are `OpenReader` of the old state |
| CsvReaders.CsvReader.Close | CSV/CSVReader.cpp:55-61 | the new state is `CloseReader` of the old one |
| CsvReaders.CsvReader.GetRow | CSV/CSVReader.h:51 | returns the buffered row |
| CsvMakers.CsvMaker.constructor | CSV/CSVMaker.cpp:5-10 | opens in append mode: on a writable path the file exists, keeps its text and the stream is open; otherwise there is no file and every write is dropped |
| CsvMakers.CsvMaker.NewLine | CSV/CSVMaker.h:32-35 | appends exactly one newline |
| CsvMakers.CsvMaker.AddComma | CSV/CSVMaker.h:44-46 | appends exactly one comma |
| CsvMakers.CsvMaker.Add | CSV/CSVMaker.h:57-61 | appends the word and nothing else |
| CsvMakers.CsvMaker.Close | CSV/CSVMaker.h:49-52 | detaches the stream; the text is kept |
| CsvMakers.CsvMaker.Destroy | CSV/CSVMaker.cpp:12-17 | the destructor leaves the stream closed and the text as it was |
| CsvMakers.CsvMaker.Clear | CSV/CSVMaker.cpp:19-24 | returns `remove`'s status, 0 when the file was there and -1 when it was not; the file is then empty, and it exists and is open exactly when the path is writable |
| CsvMakers.CsvMaker.AddVector | CSV/CSVMaker.h:95-99 | appends x, y, z joined with commas, with no comma after z |
| CsvMakers.CsvMaker.AddQuaternion | CSV/CSVMaker.h:101-104 | appends e0 to e3 joined with commas, with no comma after e3 |
| CsvMakers.CsvMaker.AddMatrix | CSV/CSVMaker.h:106-116 | appends the nine entries row by row, joined with commas, with no comma after entry (2,2) |
| CsvMakers.CsvMaker.WriteCellStep | CSV/CSVMaker.h:108-114 | one pass of the matrix loop extends the comma-separated prefix by one cell |
| CsvMakers.CsvMaker.BodyToCSV | CSV/CSVMaker.cpp:26-34 | appends one light row: ids, position, rotation matrix (14 cells) |
| CsvMakers.CsvMaker.SaveBodyData | CSV/CSVMaker.cpp:36-56 | appends one full row: ids, pose, first and second derivatives, force and torque (29 cells) |
| Parts.FromCode | Creator/TrackedVehicleCreator.h:30-35 | a code names a part exactly when it lies in 0..10, and that part's ordinal is the code |
| Parts.PartIdOfCode | Creator/TrackedVehicleCreator.cpp:305-333 | `Part_to_ID` after a cast to `Parts`: a part id, or -1 from the `default:` branch |
| Parts.PartIdIsOrdinal | Creator/TrackedVehicleCreator.cpp:305-333 | `Part_to_ID` is the enumeration order and is injective |
| Parts.IdRoundTrip | Creator/TrackedVehicleCreator.cpp:299-303 | `ID_To_Part` of the printed `Part_to_ID` gives the part back |
| Parts.CodeNamesPart | Creator/TrackedVehicleCreator.h:30-35 | a code names a part exactly when it is that part's id |
| Parts.Instances | Creator/TrackedVehicleCreator.h:38-46 | the instances of a kind are indices 0 up to its count |
| Parts.Count | Creator/TrackedVehicleCreator.h:38-46 | a one-body kind has exactly one instance |
| Parts.BodiesOfMembers | Creator/TrackedVehicleCreatorExportData.cpp:186-272 | the bodies of a part list are exactly the existing bodies of the listed kinds |
| Parts.BodiesOfOrdered | Creator/TrackedVehicleCreatorExportData.cpp:186-272 | kinds listed in ascending order give bodies in ascending order |
| Parts.TopologyShape | Creator/TrackedVehicleCreator.cpp:117-176 | the save order lists every existing body once, in ascending order |
| Parts.TopologyLength | Creator/TrackedVehicleCreator.cpp:117-176 | a save holds 5 rows for the single parts plus one per shoe, roller and road wheel |
| Records.MatrixValues | CSV/CSVMaker.h:106-116 | entry (row, col) sits at position 3 * row + col |
| Records.LightValues | CSV/CSVMaker.cpp:26-34 | a light row has 14 values and starts with the two ids |
| Records.FullValues | CSV/CSVMaker.cpp:36-56 | a full row has 29 values and starts with the two ids |
| Records.FullValuesWellFormed | CSV/CSVMaker.cpp:36-56 | a full row of printable values is printable |
| Records.LightValuesWellFormed | CSV/CSVMaker.cpp:26-34 | a light row of printable values is printable |
| RowLoops.RowLoop | Creator/TrackedVehicleCreator.cpp:201-214 | every row read has the loop's width; a loop that ends normally ends on a row `IsValidRow` rejects |
| RowLoops.ReadNumbersAppend | CSV/CSVReader.cpp:63-68 | n + m reads are n reads then m reads; the first failure ends both the same way |
| RowLoops.ReadNumbersRollOver | CSV/CSVReader.cpp:30-32 | a run that starts past the end of a row starts on the next line |
| RowLoops.LoopReadsEveryRow | Simulator/TrackedVehicleVisualSimulator.cpp:223-231 | with a `GetLine` after each row, the loop reads every printed row in order and stops at the end of the file or at `EOF` |
| RowLoops.StaleLoopCrashes | Simulator/TrackedVehicleNonvisualSimulator.cpp:168-175 | without `GetLine`, once positioned past a row the loop reads the later rows by roll-over, then `stod` throws on the terminator |
| RowLoops.LoopWithoutGetLineCrashes | Simulator/TrackedVehicleNonvisualSimulator.cpp:168-175 | without `GetLine` the loop reads every row and then ends in a parse error, not by its condition |
| Forces.WithForce | Creator/TrackedVehicleCreatorForces.cpp:6-114 | `AddForce` adds the force to the target body's force only; an unknown part changes nothing |
| Forces.WithTorque | Creator/TrackedVehicleCreatorForces.cpp:116-224 | `AddTorque` adds the torque to the target body's torque only; an unknown part changes nothing |
| Forces.Emptied | Creator/TrackedVehicleCreatorForces.cpp:233-235 | the listed bodies hold nothing and every other body is unchanged |
| Forces.ClearedBodies | Creator/TrackedVehicleCreatorForces.cpp:228-343 | the corrected `ClearAddedForces` empties exactly the bodies its contract names; an unknown part changes nothing |
| Forces.ClearIdempotent | Creator/TrackedVehicleCreatorForces.cpp:228-343 | clearing twice is the same as clearing once |
| Forces.AsWrittenElsewhereAgrees | Creator/TrackedVehicleCreatorForces.cpp:228-343 | except for the roller kinds with id -1, the code as written clears what its contract says |
| Forces.RollerClearAllMisses | Creator/TrackedVehicleCreatorForces.cpp:281-307 | the roller clear-all as written leaves every existing roller untouched; the corrected one empties it |
| Forces.ForceTorqueCommute | Creator/TrackedVehicleCreatorForces.cpp:6-224 | `AddForce` and `AddTorque` commute |
| Vehicles.Vehicle.SetFixed | Creator/TrackedVehicleCreator.cpp:266 | only `chassisFixed` changes |
| Vehicles.Vehicle.SetChTime | Creator/TrackedVehicleCreator.cpp:64 | only the clock changes |
| Vehicles.Vehicle.Step | Simulator/TrackedVehicleNonvisualSimulator.cpp:72-76 | one step moves the clock by the step size and nothing else |
| Vehicles.Vehicle.Initialize | Creator/TrackedVehicleCreator.cpp:224 | records the placement |
| Vehicles.Vehicle.InitializePowertrain | Creator/TrackedVehicleCreator.cpp:246-247 | records the powertrain |
| Vehicles.Vehicle.Restrict | Creator/TrackedVehicleCreator.cpp:273-290 | replaces the link with one that constrains the given coordinates |
| Vehicles.Vehicle.AccumulateForce | Creator/TrackedVehicleCreatorForces.cpp:11-18 | adds to one body's force |
| Vehicles.Vehicle.AccumulateTorque | Creator/TrackedVehicleCreatorForces.cpp:121-128 | adds to one body's torque |
| Vehicles.Vehicle.EmptyAccumulators | Creator/TrackedVehicleCreatorForces.cpp:233-235 | empties one body |
| Checkpoint.MethodText | Creator/TrackedVehicleCreator.cpp:46-51 | the text written for the contact method reads back as that method |
| Checkpoint.MethodOf | Creator/TrackedVehicleCreator.cpp:46-51 | a cell means NSC exactly when it is `NSC`; anything else means SMC |
| Checkpoint.FlagValues | Creator/TrackedVehicleCreator.cpp:53-58 | each flag is written as `FromBool` of that flag |
| Checkpoint.HeaderLayout | Creator/TrackedVehicleCreator.cpp:89-111 | a header row is one line of 18 plain cells, 15 of them numbers |
| Checkpoint.HeaderNumbersAt | Creator/TrackedVehicleCreator.cpp:52-61 | the position of each header field among the 15 numbers |
| Checkpoint.DecodeWritten | Creator/TrackedVehicleCreator.cpp:43-61 | decoding the fields of a written header gives the header back |
| Checkpoint.HeaderRoundTrip | Creator/TrackedVehicleCreator.cpp:43-61 | a header row read from its start gives back the header that was written |
| Checkpoint.BodyRows | Creator/TrackedVehicleCreator.cpp:117-176 | row k is the full row of body k |
| Checkpoint.BodyRowsPrintable | Creator/TrackedVehicleCreator.cpp:201-214 | body rows have 29 printable numbers and start with a part id |
| Checkpoint.SaveFileNames | Creator/TrackedVehicleCreator.cpp:81 | two saves share a file name exactly when their times round to the same millisecond |
| Checkpoint.OpenedSave | CSV/CSVReader.cpp:5-9 | on a save file, the constructor as written holds the chassis row; the documented constructor holds the header row |
| Checkpoint.BodyRowAsHeader | Creator/TrackedVehicleCreator.cpp:43-61 | a body row read as a header yields names "0", "0" and its later numbers |
| Checkpoint.HeaderFromChassisRow | Creator/TrackedVehicleCreator.cpp:38-61 | the save-file constructor as written decodes the chassis row, so it cannot give back a header whose model file is not "0" |
| Checkpoint.HeaderFromFirstRow | Creator/TrackedVehicleCreator.cpp:38-61 | with a reader that starts on the first line, the header read is the header written |
| Checkpoint.LoadSkipsChassisAndCrashes | Creator/TrackedVehicleCreator.cpp:199-214 | `LoadData` as written reads every body row but the chassis row, then ends in a parse error |
| Checkpoint.SkipThenCrash | Creator/TrackedVehicleCreator.cpp:199-214 | after one `GetLine`, a loop without `GetLine` keeps every later row and then crashes |
| Checkpoint.LoadReadsEveryBody | Creator/TrackedVehicleCreator.cpp:199-214 | with a first-line reader and a `GetLine` per row, every body row is read in topology order and the loop stops at `EOF` |
| Checkpoint.ExportHeaderLine | Creator/TrackedVehicleCreatorExportData.cpp:168-183 | the label row is one line, with one label per number of a light row |
| Checkpoint.LightRows | Creator/TrackedVehicleCreatorExportData.cpp:186-272 | row k is the light row of body k |
| Checkpoint.ExportReadable | Creator/TrackedVehicleCreatorExportData.cpp:160-274 | after the label row, a 14-wide reading loop reads back every light row in order |
| SaveFiles.WriteHeader | Creator/TrackedVehicleCreator.cpp:89-111 | appends the header row and its newline |
| SaveFiles.WriteNames | Creator/TrackedVehicleCreator.cpp:89-98 | appends the three text cells, each with its comma |
| SaveFiles.WriteTimeAndFlags | Creator/TrackedVehicleCreator.cpp:99-104 | appends the time and the six flags, each with a comma |
| SaveFiles.WriteHeaderNumbers | Creator/TrackedVehicleCreator.cpp:99-110 | appends the 15 header numbers joined with commas |
| SaveFiles.WriteBodyRow | Creator/TrackedVehicleCreator.cpp:117-119 | appends one full row and its newline |
| SaveFiles.WriteKindRows | Creator/TrackedVehicleCreator.cpp:122-132 | appends the rows of every instance of one kind, in index order |
| SaveFiles.WriteBodies | Creator/TrackedVehicleCreator.cpp:117-176 | appends the rows of every body, in topology order |
| SaveFiles.WriteLabels | Creator/TrackedVehicleCreatorExportData.cpp:169-182 | appends the label row |
| SaveFiles.WriteLightRow | Creator/TrackedVehicleCreatorExportData.cpp:191-193 | appends one light row and its newline |
| SaveFiles.WriteKindLightRows | Creator/TrackedVehicleCreatorExportData.cpp:196-202 | appends the light rows of every instance of one kind |
| SaveFiles.WriteLightBodies | Creator/TrackedVehicleCreatorExportData.cpp:186-272 | appends the light rows of the listed kinds, in list order |
| SaveFiles.BodiesOfSnoc | Creator/TrackedVehicleCreatorExportData.cpp:186-272 | listing one more kind lists its instances after the others |
| Creators.ReadSaveHeader | Creator/TrackedVehicleCreator.cpp:43-61 | the result and the reader state are `ReadHeader` of the old state |
| Creators.ReadFullRow | Creator/TrackedVehicleCreator.cpp:203-212 | the loop body's reads are 29 `GetNumber` steps |
| Creators.ReadBodyRows | Creator/TrackedVehicleCreator.cpp:201-214 | the loop's outcome, rows and reader are `RowLoop` of the old state |
| Creators.Creator.constructor | Creator/TrackedVehicleCreator.cpp:6-36 | a fresh vehicle, all six flags clear, no powertrain, no restriction |
| Creators.Creator.Initialize | Creator/TrackedVehicleCreator.cpp:218-240 | places the vehicle once; a later call changes nothing; every other field is kept |
| Creators.Creator.SetPowertrain | Creator/TrackedVehicleCreator.cpp:244-251 | the first call installs the powertrain and records the file; later calls change nothing |
| Creators.Creator.RestrictDOF | Creator/TrackedVehicleCreator.cpp:254-293 | records the flags; all six set fixes the chassis and keeps the link; otherwise releases the chassis and links exactly the flagged coordinates |
| Creators.Creator.AddForce | Creator/TrackedVehicleCreatorForces.cpp:6-114 | the accumulators become `WithForce` of the old ones |
| Creators.Creator.AddTorque | Creator/TrackedVehicleCreatorForces.cpp:116-224 | the accumulators become `WithTorque` of the old ones |
| Creators.Creator.EmptyBodies | Creator/TrackedVehicleCreatorForces.cpp:237-263 | empties the given bodies one after the other |
| Creators.Creator.ClearAddedForces | Creator/TrackedVehicleCreatorForces.cpp:228-343 | the accumulators become `ClearedAsWritten` of the old ones |
| Creators.Creator.ClearAddedForcesCorrected | Creator/TrackedVehicleCreatorForces.cpp:228-343 | the accumulators become `Cleared` of the old ones |
| Creators.Creator.SaveData | Creator/TrackedVehicleCreator.cpp:77-181 | the file `../Outputs/Saves/<prefix>_<t>.csv` holds exactly the header, the body rows and `EOF`, whatever it held before |
| Creators.Creator.ExportData | Creator/TrackedVehicleCreatorExportData.cpp:160-274 | the file holds exactly the label row and the light rows of the listed kinds |
| Creators.Creator.FromSave | Creator/TrackedVehicleCreator.cpp:38-75 | the fields are set from the header read; the clock is set to the saved time |
| Creators.Creator.FromReader | Creator/TrackedVehicleCreator.cpp:38-75 | a creator when the header reads succeed; the parse error otherwise |
| Creators.Creator.Restore | Creator/TrackedVehicleCreator.cpp:38-75 | the save-file constructor as written, with the reader that skips a line |
| Creators.Creator.RestoreFromFirstLine | Creator/TrackedVehicleCreator.cpp:38-75 | the save-file constructor with a reader that starts on the first line |
| Creators.Creator.ApplySaved | Creator/TrackedVehicleCreator.cpp:184-186 | `Initialize`, `SetPowertrain` and `RestrictDOF` with the saved settings |
| Creators.Creator.LoadData | Creator/TrackedVehicleCreator.cpp:183-216 | the settings are restored (placed, powertrain installed, `restricted` set unless all six flags are, the flags, file names, placement and vehicle info kept); the rows read are those of the as-written loop |
| Creators.Creator.LoadDataReadingEveryRow | Creator/TrackedVehicleCreator.cpp:183-216 | the same, reading with a first-line reader and a `GetLine` per row |
| Inbound.ApplyOn | Simulator/TrackedVehicleVisualSimulator.cpp:228-229 | a command adds its force and torque to the body it names and to no other |
| Inbound.AppliedSums | Simulator/TrackedVehicleVisualSimulator.cpp:223-231 | after the rows are applied, each body holds what it held plus the sums of the rows that name it |
| Inbound.ClearOneKind | Simulator/TrackedVehicleVisualSimulator.cpp:218-220 | clearing one kind leaves other kinds alone; it empties the non-roller bodies; as written it empties no existing roller |
| Inbound.ClearedPartsBodies | Simulator/TrackedVehicleVisualSimulator.cpp:218-220 | after the clearing pass, the listed non-roller bodies are empty; unlisted kinds and every roller are untouched |
| Inbound.TickLoads | Simulator/TrackedVehicleVisualSimulator.cpp:218-231 | after a tick, a listed non-roller body holds exactly the sums the reply gives it |
| Inbound.RollerLoadsAccumulate | Simulator/TrackedVehicleVisualSimulator.cpp:218-231 | as written, a roller keeps the loads of earlier ticks and the new rows add to them |
| Inbound.InboundNames | Simulator/TrackedVehicleNonvisualSimulator.cpp:155 | two ticks wait for the same file exactly when their times round to the same millisecond |
| Inbound.ExportNames | Simulator/TrackedVehicleNonvisualSimulator.cpp:92 | two exports share a file exactly when their times round to the same millisecond |
| Simulators.Poll | Simulator/TrackedVehicleNonvisualSimulator.cpp:159-161 | the result and the reader are `Polled` from attempt 1 |
| Simulators.WriteSave | Simulator/TrackedVehicleSimulator.cpp:158-261 | a cleared file filled with the header and body rows and no `EOF` |
| Simulators.Simulator.constructor | Simulator/TrackedVehicleSimulator.cpp:7-11 | defaults: 10 s, 4 ms steps, no CSV, no post-processing, save interval -1, render count 1, nothing initialized |
| Simulators.Simulator.SetSimulationLength | Simulator/TrackedVehicleSimulator.cpp:32-34 | only `tend` changes |
| Simulators.Simulator.SetTimeStep | Simulator/TrackedVehicleSimulator.cpp:57-59 | only the step size changes |
| Simulators.Simulator.SetCSV | Simulator/TrackedVehicleSimulator.cpp:62-64 | only `makeCSV` changes |
| Simulators.Simulator.SetPostProcess | Simulator/TrackedVehicleSimulator.cpp:67-69 | only `run_postprocesser` changes |
| Simulators.Simulator.SetSaveProperties | Simulator/TrackedVehicleSimulator.cpp:36-43 | both settings are stored, whether or not the directory can be created |
| Simulators.Simulator.InitializeSimulation | Simulator/TrackedVehicleNonvisualSimulator.cpp:8-46 | the simulator becomes initialized when its directories could be created; a failed creation returns early and leaves the flag as it was, so an initialized simulator stays initialized |
| Simulators.Simulator.SaveData | Simulator/TrackedVehicleSimulator.cpp:158-261 | writes the save of the current state under the name stamped with `time_passed` |
| Simulators.Simulator.Integrate | Simulator/TrackedVehicleNonvisualSimulator.cpp:64-76 | the nonvisual step records the clock, then steps once; the visual step steps twice |
| Simulators.Simulator.ExportIfDue | Simulator/TrackedVehicleNonvisualSimulator.cpp:91-95 | exports only when `makeCSV` and `model_initialized` both hold |
| Simulators.Simulator.SaveIfDue | Simulator/TrackedVehicleNonvisualSimulator.cpp:101-103 | saves only when the truncating `frameCount % save_interval` is 0 and the model is initialized |
| Simulators.Simulator.DoStep | Simulator/TrackedVehicleNonvisualSimulator.cpp:48-116 | the new state is `Stepped` of the old state |
| Simulators.Simulator.StepUntil | Simulator/TrackedVehicleSimulator.cpp:142-145 | the new state is `StepWhile` of the old state |
| Simulators.Simulator.HoldSettings | Simulator/TrackedVehicleSimulator.cpp:134-140 | keeps the three settings, then holds them |
| Simulators.Simulator.Settle | Simulator/TrackedVehicleSimulator.cpp:147-153 | restores the settings and zeroes the clock, `time_passed` and the frame count |
| Simulators.Simulator.InitializeModel | Simulator/TrackedVehicleSimulator.cpp:132-155 | the new state is `ModelInitialized` of the old state |
| Simulators.Simulator.Start | Simulator/TrackedVehicleNonvisualSimulator.cpp:143-150 | initializes the simulation and the model unless they already are |
| Simulators.Simulator.RunSimulation | Simulator/TrackedVehicleNonvisualSimulator.cpp:118-132 | start, then step while `time_passed < tend` |
| Simulators.Simulator.ClearNext | Simulator/TrackedVehicleNonvisualSimulator.cpp:163-165 | one more pass of the clearing loop |
| Simulators.Simulator.ClearParts | Simulator/TrackedVehicleNonvisualSimulator.cpp:163-165 | clears each listed part with id -1, in order |
| Simulators.Simulator.ReadInboundRow | Simulator/TrackedVehicleNonvisualSimulator.cpp:169-172 | eight reads: the ids, then force and moment |
| Simulators.Simulator.ApplyCommand | Simulator/TrackedVehicleNonvisualSimulator.cpp:173-174 | the accumulators gain one more applied row |
| Simulators.Simulator.ApplyNextRow | Simulator/TrackedVehicleVisualSimulator.cpp:223-231 | one pass of the inbound loop agrees with `RowLoop` and with `ApplyRows` |
| Simulators.Simulator.ApplyInbound | Simulator/TrackedVehicleVisualSimulator.cpp:223-231 | the rows read are `RowLoop`'s, and the accumulators are the old ones with exactly those rows applied |
| Simulators.Simulator.Tick | Simulator/TrackedVehicleVisualSimulator.cpp:212-233 | the new state is `TickOf` of the old state |
| Simulators.Simulator.Load | Simulator/TrackedVehicleVisualSimulator.cpp:218-232 | the new state is `Pass` of the old state |
| Simulators.Simulator.NextFile | Simulator/TrackedVehicleVisualSimulator.cpp:208-211 | the name of the next inbound file is `NextName` |
| Simulators.Simulator.TickNext | Simulator/TrackedVehicleVisualSimulator.cpp:208-233 | picks the name, then ticks on it |
| Simulators.Simulator.Couple | Simulator/TrackedVehicleVisualSimulator.cpp:203-234 | the new state is `SyncLoop` of the old state |
| Simulators.Simulator.RunSyncedSimulation | Simulator/TrackedVehicleVisualSimulator.cpp:174-235 | the new state is `SyncedRun` of the old state |
| SimulatorProperties.StepEffects | Simulator/TrackedVehicleNonvisualSimulator.cpp:48-116 | a step counts one frame, moves the clock by one step (two when visual), sets `time_passed` to the old clock (nonvisual only), and writes at most the export and the save that are due |
| SimulatorProperties.ExportIsNotSave | Simulator/TrackedVehicleNonvisualSimulator.cpp:92 | an export never overwrites a save |
| SimulatorProperties.StepExports | Simulator/TrackedVehicleNonvisualSimulator.cpp:91-95 | an export step writes the export text of the listed parts |
| SimulatorProperties.SaveCadence | Simulator/TrackedVehicleNonvisualSimulator.cpp:101-103 | interval -1 saves every frame; a positive interval saves exactly the frames whose count it divides |
| SimulatorProperties.StepSaves | Simulator/TrackedVehicleNonvisualSimulator.cpp:101-103 | a save step writes the save of the stepped vehicle, stamped with the old clock, with no `EOF` |
| SimulatorProperties.StepWhileStops | Simulator/TrackedVehicleNonvisualSimulator.cpp:129-131 | the step loop ends exactly when `time_passed` has reached the limit |
| SimulatorProperties.QuietSteps | Simulator/TrackedVehicleSimulator.cpp:142-145 | steps with exports off and the model not initialized write nothing |
| SimulatorProperties.SettlingRestores | Simulator/TrackedVehicleSimulator.cpp:132-155 | settling restores the held settings, writes no file and zeroes the clock and the frame count |
| SimulatorProperties.NonvisualStepsEnd | Simulator/TrackedVehicleNonvisualSimulator.cpp:129-131 | enough positive steps end the nonvisual loop |
| SimulatorProperties.NonvisualModelSettles | Simulator/TrackedVehicleSimulator.cpp:142-145 | the nonvisual model settles once 0.02 s is reached |
| SimulatorProperties.VisualStepsNeverEnd | Simulator/TrackedVehicleVisualSimulator.cpp:62-144 | the visual step never moves `time_passed`, so a loop on it never ends |
| SimulatorProperties.VisualWarmUpNeverEnds | Simulator/TrackedVehicleSimulator.cpp:142-145 | as written, the visual model never settles |
| SimulatorProperties.VisualSyncedRunHangs | Simulator/TrackedVehicleVisualSimulator.cpp:187-188 | so the visual synced run of a model that is not initialized never couples |
| SimulatorProperties.TimedStepsEnd | Simulator/TrackedVehicleVisualSimulator.cpp:102-108 | with `time_passed` kept in step with the clock, enough double steps end the loop |
| SimulatorProperties.TimedWarmUpEnds | Simulator/TrackedVehicleSimulator.cpp:142-153 | the corrected visual model settles and is marked initialized |
| SimulatorProperties.PollFinds | Simulator/TrackedVehicleVisualSimulator.cpp:214-216 | polling opens a file exactly when one of the attempts finds it |
| SimulatorProperties.PollLoadsFirstLine | Simulator/TrackedVehicleVisualSimulator.cpp:214-216 | the first attempt that finds the file loads its first line |
| SimulatorProperties.PassOnEmptyFile | Simulator/TrackedVehicleVisualSimulator.cpp:218-232 | a reply with no rows applies nothing, then steps |
| SimulatorProperties.VisualPassReadsEveryRow | Simulator/TrackedVehicleVisualSimulator.cpp:218-232 | the visual pass applies every row, then steps |
| SimulatorProperties.NonvisualPassCrashes | Simulator/TrackedVehicleNonvisualSimulator.cpp:163-176 | the nonvisual pass applies every row, then throws before it steps |
| SimulatorProperties.VisualTickAppliesRows | Simulator/TrackedVehicleVisualSimulator.cpp:212-233 | a visual tick on the first reply to appear applies all its rows, then steps |
| SimulatorProperties.VisualTickLoads | Simulator/TrackedVehicleVisualSimulator.cpp:212-233 | after that tick, each listed non-roller body holds exactly the reply's sums |
| SimulatorProperties.NonvisualTickCrashes | Simulator/TrackedVehicleNonvisualSimulator.cpp:155-176 | a nonvisual tick on a reply that holds rows ends the program |
| SimulatorProperties.TickWaits | Simulator/TrackedVehicleNonvisualSimulator.cpp:159-161 | a tick that finds no file changes nothing |
| SimulatorProperties.ReplyAwaited | Simulator/TrackedVehicleNonvisualSimulator.cpp:152-157 | after an export step, the next tick waits for the reply stamped with the export's time |
| SimulatorProperties.RatioRefresh | Simulator/TrackedVehicleVisualSimulator.cpp:208-211 | with `file_ratio` above 1, the name is refreshed only when the frame count leaves remainder 1 |
| SimulatorProperties.SyncLoopEnds | Simulator/TrackedVehicleVisualSimulator.cpp:203-207 | the coupling loop ends normally only once the simulated time has reached `tend` |

## Left out

- Physics. Integration, the driver, the terrain, the solver settings (`SetSolver`), rendering,
  POV-Ray export, `renderCount`, logging and console output are not modelled. A body's state is an
  opaque snapshot, and a step only moves the clock. So the force and torque cells of a save row are
  not linked to the accumulator map.
- Floating point. Numbers are exact decimal numerals. `std::stod` is modelled for decimal text
  with an optional exponent; hexadecimal, `inf` and `nan` are not modelled. A `double` time is a
  whole number of microseconds.
- Numerals.NoNumeral: the real `stod` also reads `inf`, `infinity` and `nan` (in any case) and
  hexadecimal `0x` numerals. The model's `stod` fails on the first two and reads only the `0` of
  the third, so a reply from the solver holding one of them is read differently. The real `stod`
  also throws `std::out_of_range` when `strtod` reports a range error, on an overflow such as
  `1e400` and, in libstdc++, on an underflow such as `1e-400`; that uncaught exception ends the
  program at `CSV/CSVReader.cpp:34`. The model has unbounded exponents and reads both as numbers,
  so `Numerals.ScanNumber` and `CsvReaders.ReadNumber` succeed where the source ends.
- Timing.Millis rounds a half millisecond away from zero. glibc's `%.3f` rounds the exact binary
  value of the `double`, and an exactly representable tie goes to the even digit: 0.0625 s prints
  `0.062` in the source and `0.063` in the model. The file names of `Timing.FixedThreeNames`,
  `Checkpoint.SaveFileNames`, `Inbound.InboundNames` and `Inbound.ExportNames` rest on this
  rounding, so for such times they differ from the source's.
- Timing.TimeNumeral: `<<` prints a `double` with six significant digits by default. The model
  prints the time with six fraction digits, so every microsecond survives. In the source a time with
  more than six significant digits is rounded in the save file, and `Timing.TimeRoundTrip` does not
  hold for it.
- The terminal variant of `ExportData` (`Creator/TrackedVehicleCreatorExportData.cpp:6-158`) only
  prints to the console. It is left out, and so are the `else` branches of both `DoStep`s that call it.
- `ExportComponentList` is only a call into the vehicle and is left out.
- The visual `RunSimulation` stops on the wall clock (`realtime_timer`). It is left out, and so is
  the real-time spin of the visual `DoStep`. The window's `run()` is taken as always true.
- `sleep(1)` between polls is modelled as an attempt number in the `Inbox`.
- Directory creation is a parameter (`created`) of `InitializeSimulation`.
  `filesystem::create_directory` returns false when the directory already exists, so `created`
  is false on every run after the first in the same working directory. For the visual simulator
  this makes the missing window of the `Simulators.Simulator.DoStep` line below the ordinary case
  rather than an exceptional one.
- `CSVReader::GetString` and `GetQuaternion` are called but declared nowhere. They are modelled as
  reading a text cell and four numbers, with the same roll-over as `GetNumber`.
- Creators.Creator.constructor, Creators.Creator.FromSave, Creators.Creator.SaveData and
  Creators.Creator.LoadData: the class in `Creator/TrackedVehicleCreator.h` does not declare what
  `Creator/TrackedVehicleCreator.cpp` defines. The save-file constructor is declared only in a
  comment (`:58`), `SaveData` and `LoadData` only inside `/* ... */` (`:66-71`), and the first
  constructor is declared with a third parameter `bool parallel` (`:55`) that its definition
  (`Creator/TrackedVehicleCreator.cpp:6`) does not take. So the definitions at `:6`, `:38`, `:77`
  and `:183` match no declared member, and the shipped program cannot restore a creator from a
  save; only the simulator's `SaveData` writes saves. The model takes the definitions in
  `Creator/TrackedVehicleCreator.cpp` as the class and has no `parallel` parameter (nor
  `is_parallel`).
- The source never initialises `frameCount` in the simulators, `initialized` in either creator
  constructor (`Creators.Creator.constructor` and `Creators.Creator.FromSave`), or `powertrain`
  and `restricted` in the save-file constructor, nor the reader's `cursor` when the
  `CSVReader` constructor cannot open its file (`CSV/CSVReader.cpp:5-9`; `CsvReaders.Blank` takes
  0). They are parameters, or fixed values where noted. With an indeterminate
  `initialized` that happens to be true, `Initialize`'s latch never places the vehicle. The visual
  loop opens its `filename` buffer, which is uninitialised until the first refresh
  (`Simulator/TrackedVehicleVisualSimulator.cpp:177`, `:209`, `:214`); only the reader's
  construction uses `data_file`, which starts empty. The model uses the empty name for both, so a
  first pass without a refresh (`file_ratio` -1, or a frame count not 1 modulo the ratio) looks for
  the empty name where the source reads an indeterminate buffer.
- Creators.Creator.LoadData: the source reads the values of each row into locals and discards
  them. The model returns the rows read and does not apply them to the vehicle.
- Creators.Creator.FromReader: the order in which C++ evaluates the arguments of
  `ChVector<>(csv.GetNumber(), ...)` is unspecified. The model reads them left to right.
- `GetRoller(-1)` in the roller clear-all is undefined behaviour in C++. The model takes it as a
  body that does not exist, so clearing it changes nothing.
- Parts.PartIdOfCode: the `default:` branch of `Part_to_ID` (-1 and a message) is reached only by
  a value cast from outside the enumeration. The message is not modelled.
- Fuel: polling, the coupling loop, the row loops and settling take a `fuel` bound. A run that
  exhausts it reports `OutOfFuel`, so a loop that never ends is only shown not to end within any
  given bound.
- Each simulator's header and definition of `RunSyncedSimulation` disagree, in opposite
  directions. The nonvisual header declares `file_ratio = 1`
  (`Simulator/TrackedVehicleNonvisualSimulator.h:21-22`), but its definition takes no `file_ratio`
  (`Simulator/TrackedVehicleNonvisualSimulator.cpp:134`). The visual header declares none
  (`Simulator/TrackedVehicleVisualSimulator.h:21`), but its definition takes one
  (`Simulator/TrackedVehicleVisualSimulator.cpp:174-175`). The model gives both loops the
  parameter, and the nonvisual loop ignores it.
- Inbound files whose last row has no newline and no `EOF` after it: the lemmas about the
  coupling loop assume the reply ends with a newline or an `EOF` row (`RowLoops.Terminator`).
  After an unterminated last row, `getline` fails without clearing the buffer
  (`Streams.Getline`), so `IsValidRow` accepts the same row again. Both inbound loops then
  re-apply that row until the fuel runs out. No lemma states this case.
- The two simulators are one class with a `visual` flag. Their `InitializeSimulation` differ in
  the directories they create and in the rendering set-up, which is not modelled. The visual one
  returns before it creates the window when a directory cannot be created (see the
  `Simulators.Simulator.DoStep` line).
- Simulators.Simulator.DoStep: a visual simulator whose `InitializeSimulation` failed has no
  window, and the source's first `DoStep` then dereferences the null `app`
  (`Simulator/TrackedVehicleVisualSimulator.cpp:69`). The model has no window state: it steps on,
  and so do `Simulators.Simulator.InitializeModel`, `Simulators.Simulator.RunSyncedSimulation` and
  `SimulatorProperties.TimedWarmUpEnds`. The visual `DoStep` also rebuilds the driver while the
  model is not initialized; the driver is not modelled.
- Simulators.Simulator.SaveIfDue: `frameCount % save_interval` with a `save_interval` of 0 divides
  by zero. That is undefined behaviour in C++, and `SetSaveProperties` stores 0 when asked. The
  nonvisual stepping members (`Simulators.Simulator.DoStep`, `StepUntil`, `InitializeModel`,
  `Start`, `RunSimulation`, `Tick`, `Couple`, `RunSyncedSimulation` and the functions they rest
  on) therefore require a non-zero interval. The crash is not modelled.
- Simulators.Simulator.NextFile: in the visual loop `frameCount % file_ratio` with a `file_ratio`
  of 0 divides by zero, which is undefined behaviour. `NextFile`, `Simulators.Simulator.Couple`
  and `Simulators.Simulator.RunSyncedSimulation` require a non-zero ratio in the visual loop. The
  crash is not modelled.
- Forces.Target: the source indexes the shoe, roller and road-wheel vectors without a bound check
  (`GetTrackShoe(id)`, `GetRoller(id)`, `GetRoadWheelAssembly(id)`). An id outside
  0..count-1 is undefined behaviour there. The model names a body that does not exist.
- Forces.WithForce: an id outside 0..count-1 adds to that nonexistent body (see `Forces.Target`),
  where the source's behaviour is undefined. Nothing reads such a body back into a file, because
  the save and export rows cover only indices below the counts.
- Forces.WithTorque: the same as `Forces.WithForce` for out-of-range ids.
- Creators.Creator.ExportData: its part list is a `seq<Part>`, so the `default:` branch of the
  source's switch (`Creator/TrackedVehicleCreatorExportData.cpp:268-270`) cannot be reached. It
  is reached only by a value cast from outside the enumeration, as for `Parts.PartIdOfCode`.
  `Checkpoint.ExportText` and `SaveFiles.WriteLightBodies` take the same list.
- Creators.Creator.SaveData and Creators.Creator.ExportData, and the files of
  `Simulators.Simulator.SaveData` and `Simulators.Simulator.ExportIfDue`, open a writable path.
  A missing output directory is modelled in `CsvMakers.CsvMaker` (no file, every write dropped)
  but not followed into these callers.
- The visual simulator exports into `Outputs/CSV`; the nonvisual one into `../Outputs/CSV`.
  The model keeps both names.

## Findings

| source | as written | input that shows it | evidently intended | confidence | as-written member | corrected member |
|---|---|---|---|---|---|---|
| Creator/TrackedVehicleCreatorForces.cpp:281-307 | the roller clear-all loop calls `GetRoller(id)` with `id == -1` on every pass | a vehicle with one left roller carrying a force, then `ClearAddedForces(ROLLER_LEFT)`: the force survives, and each tick adds to it | `GetRoller(i)`, emptying every roller | high (not executed) | Forces.RollerClearAllMisses | Forces.ClearedBodies |
| CSV/CSVReader.cpp:5-9 | the constructor calls `Open`, which loads the first line, and then calls `getline` again | a save file whose header names a model file other than "0": the save-file constructor decodes the chassis row instead, so it reads "0", "0", SMC and shifted numbers. This input goes through the save-file constructor, which the shipped class does not declare (see "## Left out"). In the simulators' coupling loops the poll's `Open` reloads the first line, which hides the skipped line there | load only the first line, as the header comment says | high (not executed) | CsvReaders.ConstructorSkipsFirstLine | CsvReaders.CsvReader.First |
| Creator/TrackedVehicleCreator.cpp:199-214 | the `LoadData` row loop has no `GetLine`, and the reader has already skipped the header | any save file: the chassis row is never read, and after the last row `stod` throws on `EOF`. `LoadData` and the save-file constructor are defined but not declared in the shipped class (see "## Left out") | read every body row, with a `GetLine` per row, stopping at `EOF` | high (not executed) | Checkpoint.LoadSkipsChassisAndCrashes | Checkpoint.LoadReadsEveryBody |
| Simulator/TrackedVehicleNonvisualSimulator.cpp:168-175 | the inbound row loop has no `GetLine` | a reply with one row and then the end of the file: the row is applied, then `stod` throws before the step | a `GetLine` per row, as the visual loop has at 230 | high (not executed) | SimulatorProperties.NonvisualTickCrashes | SimulatorProperties.VisualTickAppliesRows |
| Simulator/TrackedVehicleSimulator.cpp:142-145 | `InitializeModel` loops until `time_passed` reaches 0.02 s, but the visual `DoStep` never sets `time_passed` | a visual simulator with `time_passed` at 0: settling never ends, and neither `RunSyncedSimulation` nor `RunSimulation` reach their loops | the visual step records the clock in `time_passed`, as the nonvisual one does | high (not executed) | SimulatorProperties.VisualWarmUpNeverEnds | SimulatorProperties.TimedWarmUpEnds |

Where each finding also shows up in the model:

- Roller clear-all:
  - as written: `Creators.Creator.ClearAddedForces`, `Inbound.RollerLoadsAccumulate`;
  - corrected: `Creators.Creator.ClearAddedForcesCorrected`.
- Reader constructor:
  - as written: `Checkpoint.HeaderFromChassisRow`, `Creators.Creator.Restore`;
  - corrected: `Checkpoint.HeaderFromFirstRow`, `Creators.Creator.RestoreFromFirstLine`.
- `LoadData` loop: `Creators.Creator.LoadData` (as written) and
  `Creators.Creator.LoadDataReadingEveryRow` (corrected).
- Loops without `GetLine` in general: `RowLoops.LoopWithoutGetLineCrashes` and
  `RowLoops.LoopReadsEveryRow`.
- Visual warm-up: `SimulatorProperties.VisualSyncedRunHangs` (as written).
