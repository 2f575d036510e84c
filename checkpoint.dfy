/** The files the creator writes and reads: the save file (`SaveData`, the save-file constructor,
    `LoadData`) and the export file handed to the fluid solver (`ExportData`). Each layout is stated
    as text built from cells and rows; reading is stated with the reader functions. */
module Checkpoint {
  import opened Wrappers
  import opened Numerals
  import opened CsvText
  import opened Records
  import opened Parts
  import opened Timing
  import opened Streams
  import opened CsvReaders
  import opened RowLoops
  import opened Vehicles

  // ---------------------------------------------------------------------------------------------
  // The header row of a save file

  /** The text `SaveData` writes for the contact method. */
  function MethodText(m: ContactMethod): (t: seq<char>)
    ensures MethodOf(t) == m && PlainCell(t)
  {
    if m == NSC then "NSC" else "SMC"
  }

  /** How the save-file constructor reads the contact method back: "NSC", or else SMC. */
  function MethodOf(s: seq<char>): (m: ContactMethod)
    ensures m == NSC <==> s == "NSC"
  {
    if s == "NSC" then NSC else SMC
  }

  /** What the first row of a save file holds: model file, powertrain file, contact method, time,
      the six degree-of-freedom flags, initial position, orientation and forward speed. */
  datatype Header = Header(
    master: seq<char>,
    powertrain: seq<char>,
    contact: ContactMethod,
    time: int,
    dof: seq<bool>,
    pos: Vector,
    rot: Quaternion,
    speed: Decimal)

  /** A header whose every cell keeps the row's shape: six flags, file names without a comma or a
      newline, numbers `<<` can print. */
  predicate Savable(h: Header)
  {
    && |h.dof| == 6 && PlainCell(h.master) && PlainCell(h.powertrain)
    && WellFormedVector(h.pos) && WellFormedQuaternion(h.rot) && WellFormed(h.speed)
  }

  /** A flag is written as the number 1 or 0. */
  function FlagValues(flags: seq<bool>): (ds: seq<Decimal>)
    ensures |ds| == |flags|
    ensures forall i :: 0 <= i < |flags| ==> ds[i] == FromBool(flags[i])
  {
    seq(|flags|, i requires 0 <= i < |flags| => FromBool(flags[i]))
  }

  /** The numbers of the header in the order they are written. */
  function HeaderNumbers(h: Header): seq<Decimal>
  {
    [TimeNumeral(h.time)] + FlagValues(h.dof) + VectorValues(h.pos) + QuaternionValues(h.rot) + [h.speed]
  }

  function HeaderCells(h: Header): seq<seq<char>>
  {
    [h.master, h.powertrain, MethodText(h.contact)] + Cells(HeaderNumbers(h))
  }

  function HeaderRow(h: Header): seq<char>
  {
    Join(HeaderCells(h))
  }

  /** A savable header is one line of 18 cells. */
  lemma HeaderLayout(h: Header)
    requires Savable(h)
    ensures |HeaderNumbers(h)| == 15 && AllWellFormed(HeaderNumbers(h))
    ensures |HeaderCells(h)| == 18 && PlainCells(HeaderCells(h))
    ensures CommaCount(HeaderRow(h)) == 17 && '\n' !in HeaderRow(h)
  {
    var ns := HeaderNumbers(h);
    assert AllWellFormed(ns);
    FormattedCellsPlain(ns);
    var cells := HeaderCells(h);
    assert PlainCells(cells) by {
      forall i | 0 <= i < |cells|
        ensures PlainCell(cells[i])
      {
        if i >= 3 {
          assert cells[i] == Cells(ns)[i - 3];
        }
      }
    }
    JoinCommas(cells);
    JoinPlain(cells);
  }

  /** The header fields recovered from the three text cells and fifteen numbers of a header row. */
  function DecodeHeader(master: seq<char>, powertrain: seq<char>, contact: seq<char>, ns: seq<Decimal>): Header
    requires |ns| == 15
  {
    Header(master, powertrain, MethodOf(contact), MicrosOf(ns[0]),
           seq(6, i requires 0 <= i < 6 => Value(ns[1 + i]) != 0.0),
           Vector(ns[7], ns[8], ns[9]), Quaternion(ns[10], ns[11], ns[12], ns[13]), ns[14])
  }

  /** The reads of the save-file constructor: three `GetString`, then fifteen `GetNumber`. */
  function ReadHeader(r: Reader): (p: (Result<Header>, Reader))
    requires Valid(r)
    ensures Valid(p.1)
  {
    var (master, r1) := ReadString(r);
    var (powertrain, r2) := ReadString(r1);
    var (contact, r3) := ReadString(r2);
    var (ns, r4) := ReadNumbers(r3, 15);
    if ns.Failure? then (Failure(ns.error), r4)
    else (Success(DecodeHeader(master, powertrain, contact, ns.value)), r4)
  }

  /** A cell in front of a nonempty row of cells. */
  lemma JoinCons(c: seq<char>, cells: seq<seq<char>>)
    requires |cells| > 0
    ensures Join([c] + cells) == c + ([','] + Join(cells))
  {
    assert ([c] + cells)[1..] == cells;
  }

  /** Three text cells and then a row of numbers. */
  lemma ThreeThenNumbers(a: seq<char>, b: seq<char>, c: seq<char>, ds: seq<Decimal>)
    requires |ds| > 0
    ensures Join([a, b, c] + Cells(ds)) == a + ([','] + (b + ([','] + (c + ([','] + Join(Cells(ds)))))))
  {
    var cs := Cells(ds);
    JoinCons(c, cs);
    JoinCons(b, [c] + cs);
    JoinCons(a, [b] + ([c] + cs));
    assert [a, b, c] + cs == [a] + ([b] + ([c] + cs));
  }

  /** Reading three text cells: each `GetString` returns its cell and moves past it and its comma. */
  lemma ReadThreeCells(r: Reader, a: seq<char>, b: seq<char>, c: seq<char>, x1: seq<char>, x2: seq<char>, rest: seq<char>)
    requires Valid(r) && r.cursor <= |r.row|
    requires ',' !in a && ',' !in b && ',' !in c
    requires x2 == c + ([','] + rest) && x1 == b + ([','] + x2)
    requires r.row[r.cursor..] == a + ([','] + x1)
    ensures var k := r.cursor;
      && ReadString(r) == (a, r.(cursor := k + |a| + 1))
      && ReadString(r.(cursor := k + |a| + 1)) == (b, r.(cursor := k + |a| + |b| + 2))
      && ReadString(r.(cursor := k + |a| + |b| + 2)) == (c, r.(cursor := k + |a| + |b| + |c| + 3))
      && k + |a| + |b| + |c| + 3 <= |r.row| && r.row[k + |a| + |b| + |c| + 3..] == rest
  {
    ReadStringCell(r, a, x1);
    ReadStringCell(r.(cursor := r.cursor + |a| + 1), b, x2);
    ReadStringCell(r.(cursor := r.cursor + |a| + |b| + 2), c, rest);
  }

  /** `ReadHeader` in terms of its reads. */
  lemma ReadHeaderFrom(r: Reader, a: seq<char>, b: seq<char>, c: seq<char>, r1: Reader, r2: Reader, r3: Reader, ns: seq<Decimal>)
    requires Valid(r) && Valid(r1) && Valid(r2)
    requires ReadString(r) == (a, r1) && ReadString(r1) == (b, r2) && ReadString(r2) == (c, r3)
    requires ReadNumbers(r3, 15).0 == Success(ns)
    ensures ReadHeader(r).0 == Success(DecodeHeader(a, b, c, ns))
  {
  }

  /** Where each field of a header sits among its fifteen numbers. */
  lemma HeaderNumbersAt(h: Header)
    requires |h.dof| == 6
    ensures var ns := HeaderNumbers(h);
      && |ns| == 15 && ns[0] == TimeNumeral(h.time)
      && (forall i :: 0 <= i < 6 ==> ns[1 + i] == FromBool(h.dof[i]))
      && ns[7] == h.pos.x && ns[8] == h.pos.y && ns[9] == h.pos.z
      && ns[10] == h.rot.e0 && ns[11] == h.rot.e1 && ns[12] == h.rot.e2 && ns[13] == h.rot.e3
      && ns[14] == h.speed
  {
  }

  /** Decoding the fields of a header as written gives the header back. */
  lemma DecodeWritten(h: Header)
    requires |h.dof| == 6
    ensures DecodeHeader(h.master, h.powertrain, MethodText(h.contact), HeaderNumbers(h)) == h
  {
    var ns := HeaderNumbers(h);
    HeaderNumbersAt(h);
    TimeRoundTrip(h.time);
    var flags := seq(6, i requires 0 <= i < 6 => Value(ns[1 + i]) != 0.0);
    assert flags == h.dof by {
      forall i | 0 <= i < 6
        ensures flags[i] == h.dof[i]
      {
        assert ns[1 + i] == FromBool(h.dof[i]);
      }
    }
    assert Vector(ns[7], ns[8], ns[9]) == h.pos;
    assert Quaternion(ns[10], ns[11], ns[12], ns[13]) == h.rot;
    assert DecodeHeader(h.master, h.powertrain, MethodText(h.contact), ns)
        == Header(h.master, h.powertrain, h.contact, h.time, h.dof, h.pos, h.rot, h.speed);
  }

  /** A header row read from its start gives back the header written (the `GetString` cells are
      assumed to be read as text, see `ReadString`). */
  lemma HeaderRoundTrip(r: Reader, h: Header)
    requires Valid(r) && r.cursor == 0 && r.row == HeaderRow(h) && Savable(h)
    ensures ReadHeader(r).0 == Success(h)
  {
    var ns := HeaderNumbers(h);
    HeaderLayout(h);
    var mt := MethodText(h.contact);
    ThreeThenNumbers(h.master, h.powertrain, mt, ns);
    var x2 := mt + ([','] + Join(Cells(ns + [])));
    var x1 := h.powertrain + ([','] + x2);
    assert ns + [] == ns;
    assert r.row[r.cursor..] == h.master + ([','] + x1);
    ReadHeaderCells(r, h.master, h.powertrain, mt, x1, x2, ns, []);
    DecodeWritten(h);
  }

  // ---------------------------------------------------------------------------------------------
  // The body rows and the whole save file

  /** Every body snapshot can be printed. */
  ghost predicate WellFormedBodies(bodies: BodyId -> BodyState)
  {
    forall b :: WellFormedState(bodies(b))
  }

  /** The full rows `SaveBodyData` writes for the given bodies, in order. */
  function BodyRows(bs: seq<BodyId>, bodies: BodyId -> BodyState): (rows: seq<seq<Decimal>>)
    ensures |rows| == |bs|
    ensures forall k :: 0 <= k < |bs| ==> rows[k] == FullValues(PartToId(bs[k].part), bs[k].index, bodies(bs[k]))
  {
    seq(|bs|, k requires 0 <= k < |bs| => FullValues(PartToId(bs[k].part), bs[k].index, bodies(bs[k])))
  }

  /** Printed body rows are rows the load loop accepts: 29 numbers, the first a part id. */
  lemma BodyRowsPrintable(bs: seq<BodyId>, bodies: BodyId -> BodyState)
    requires WellFormedBodies(bodies)
    ensures Printable(BodyRows(bs, bodies), 29)
  {
    var rows := BodyRows(bs, bodies);
    forall k | 0 <= k < |rows|
      ensures |rows[k]| == 29 && AllWellFormed(rows[k]) && !rows[k][0].negative
    {
      FullValuesWellFormed(PartToId(bs[k].part), bs[k].index, bodies(bs[k]));
      PartIdIsOrdinal(bs[k].part, bs[k].part);
    }
  }

  /** What follows the last body row: the creator writes `EOF` without a newline, the simulator
      nothing. */
  const CreatorTail: seq<char> := "EOF"
  const SimulatorTail: seq<char> := []

  /** A save file: the header row, one full row per body in topology order, then `tail`. */
  function SaveText(h: Header, info: VehicleInfo, bodies: BodyId -> BodyState, tail: seq<char>): seq<char>
  {
    Lines([HeaderRow(h)] + Texts(BodyRows(Topology(info), bodies))) + tail
  }

  /** `"../Outputs/Saves/%s_%.3f.csv"`. */
  function SaveFileName(prefix: seq<char>, t: int): seq<char>
  {
    "../Outputs/Saves/" + prefix + "_" + FixedThree(t) + ".csv"
  }

  /** A name made of a fixed prefix, a `%.3f` time and a fixed suffix. */
  lemma StampedNames(pre: seq<char>, t1: int, t2: int, post: seq<char>)
    requires t1 >= 0 && t2 >= 0
    ensures pre + FixedThree(t1) + post == pre + FixedThree(t2) + post <==> Millis(t1) == Millis(t2)
  {
    var a, b := pre + FixedThree(t1) + post, pre + FixedThree(t2) + post;
    if a == b {
      assert FixedThree(t1) == a[|pre|..|a| - |post|];
      assert FixedThree(t2) == b[|pre|..|b| - |post|];
    }
    FixedThreeNames(t1, t2);
  }

  /** Two saves of the same run get the same file name exactly when their times round to the same
      millisecond: a later save within the same millisecond overwrites an earlier one. */
  lemma SaveFileNames(prefix: seq<char>, t1: int, t2: int)
    requires t1 >= 0 && t2 >= 0
    ensures SaveFileName(prefix, t1) == SaveFileName(prefix, t2) <==> Millis(t1) == Millis(t2)
  {
    StampedNames("../Outputs/Saves/" + prefix + "_", t1, t2, ".csv");
  }

  /** The chassis comes first in every topology, which holds at least the five single parts. */
  lemma TopologyStart(info: VehicleInfo)
    ensures |Topology(info)| >= 5 && Topology(info)[0] == BodyId(Chassis, 0)
  {
    TopologyLength(info);
    assert Topology(info)[0] == Instances(info, Chassis)[0];
  }

  /** A first line and the lines after it. */
  lemma LinesCons(line: seq<char>, more: seq<seq<char>>)
    ensures Lines([line] + more) == line + ['\n'] + Lines(more)
  {
    assert ([line] + more)[1..] == more;
  }

  /** The header row holds no newline. */
  lemma HeaderRowPlain(h: Header)
    requires Savable(h)
    ensures '\n' !in HeaderRow(h)
  {
    HeaderLayout(h);
  }

  /** The chassis row holds no newline. */
  lemma FirstRowPlain(info: VehicleInfo, bodies: BodyId -> BodyState)
    requires WellFormedBodies(bodies)
    ensures |Topology(info)| >= 5 && '\n' !in RowText(BodyRows(Topology(info), bodies)[0])
  {
    TopologyStart(info);
    FullValuesWellFormed(PartToId(Chassis), 0, bodies(BodyId(Chassis, 0)));
    RowTextPlain(BodyRows(Topology(info), bodies)[0]);
  }

  /** The file is the header row, a newline, and the rest. */
  lemma SaveTextHead(h: Header, info: VehicleInfo, bodies: BodyId -> BodyState, tail: seq<char>)
    ensures var rest := Lines(Texts(BodyRows(Topology(info), bodies))) + tail;
      SaveText(h, info, bodies, tail) == HeaderRow(h) + ['\n'] + rest
  {
    LinesCons(HeaderRow(h), Texts(BodyRows(Topology(info), bodies)));
  }

  /** The file, cut after the header row and after the first body row. */
  lemma SaveTextSplit(h: Header, info: VehicleInfo, bodies: BodyId -> BodyState, tail: seq<char>)
    requires Savable(h) && WellFormedBodies(bodies)
    ensures |Topology(info)| >= 5 && Topology(info)[0] == BodyId(Chassis, 0)
    ensures var rows := BodyRows(Topology(info), bodies);
      && '\n' !in HeaderRow(h) && '\n' !in RowText(rows[0])
      && SaveText(h, info, bodies, tail) == HeaderRow(h) + ['\n'] + (Lines(Texts(rows)) + tail)
      && Lines(Texts(rows)) + tail == RowText(rows[0]) + ['\n'] + (Lines(Texts(rows[1..])) + tail)
  {
    TopologyStart(info);
    var rows := BodyRows(Topology(info), bodies);
    HeaderRowPlain(h);
    FirstRowPlain(info, bodies);
    LinesThen(rows, tail);
    SaveTextHead(h, info, bodies, tail);
  }

  // ---------------------------------------------------------------------------------------------
  // Reading a save file back

  /** A successful run of numbers begins with a successful shorter run. */
  lemma ReadPrefix(r: Reader, ds: seq<Decimal>, n: nat)
    requires Valid(r) && n <= |ds| && ReadNumbers(r, |ds|).0 == Success(ds)
    ensures ReadNumbers(r, n).0 == Success(ds[..n])
  {
    ReadNumbersAppend(r, n, |ds| - n);
    var (a, q) := ReadNumbers(r, n);
    assert a.Success? && a.value + ReadNumbers(q, |ds| - n).0.value == ds;
    assert a.value == ds[..n];
  }

  /** The first numbers of a printed run are read as themselves. */
  lemma ReadJoinedPrefix(r: Reader, ds: seq<Decimal>, more: seq<Decimal>)
    requires Valid(r) && r.cursor <= |r.row| && |ds| > 0 && AllWellFormed(ds + more)
    requires r.row[r.cursor..] == Join(Cells(ds + more))
    ensures ReadNumbers(r, |ds|).0 == Success(ds)
  {
    ReadJoined(r, ds + more);
    ReadPrefix(r, ds + more, |ds|);
    assert (ds + more)[..|ds|] == ds;
  }

  /** A row of three text cells and then printed numbers, read as a header: the cells become the
      file names and the contact method, the first fifteen numbers the rest of the header. */
  lemma ReadHeaderCells(r: Reader, a: seq<char>, b: seq<char>, c: seq<char>, x1: seq<char>, x2: seq<char>,
                        ds: seq<Decimal>, more: seq<Decimal>)
    requires Valid(r) && r.cursor <= |r.row|
    requires ',' !in a && ',' !in b && ',' !in c
    requires |ds| == 15 && AllWellFormed(ds + more)
    requires x2 == c + ([','] + Join(Cells(ds + more))) && x1 == b + ([','] + x2)
    requires r.row[r.cursor..] == a + ([','] + x1)
    ensures ReadHeader(r).0 == Success(DecodeHeader(a, b, c, ds))
  {
    ReadThreeCells(r, a, b, c, x1, x2, Join(Cells(ds + more)));
    var k := r.cursor;
    var r3 := r.(cursor := k + |a| + |b| + |c| + 3);
    ReadJoinedPrefix(r3, ds, more);
    ReadHeaderFrom(r, a, b, c, r.(cursor := k + |a| + 1), r.(cursor := k + |a| + |b| + 2), r3, ds);
  }

  /** A printed row split after its third cell. */
  lemma RowAfterThree(v: seq<Decimal>)
    requires |v| > 3
    ensures RowText(v) == Format(v[0]) + ([','] + (Format(v[1]) + ([','] + (Format(v[2]) + ([','] + Join(Cells(v[3..])))))))
  {
    CellsAppend(v[..3], v[3..]);
    assert v[..3] + v[3..] == v;
    assert Cells(v[..3]) == [Format(v[0]), Format(v[1]), Format(v[2])];
    ThreeThenNumbers(Format(v[0]), Format(v[1]), Format(v[2]), v[3..]);
  }

  /** A save file opened by the reader constructor as written, and by one that stops at the
      first line. */
  lemma OpenedSave(h: Header, info: VehicleInfo, bodies: BodyId -> BodyState, tail: seq<char>)
    requires Savable(h) && WellFormedBodies(bodies)
    ensures var rows := BodyRows(Topology(info), bodies);
      && |rows| >= 5 && rows[0] == FullValues(0, 0, bodies(BodyId(Chassis, 0)))
      && Construct(Some(SaveText(h, info, bodies, tail)))
           == Reader(Stream(true, Lines(Texts(rows[1..])) + tail, false, false), RowText(rows[0]), 0, 0)
      && ConstructFirst(Some(SaveText(h, info, bodies, tail)))
           == Reader(Stream(true, Lines(Texts(rows)) + tail, false, false), HeaderRow(h), 0, 0)
  {
    SaveTextSplit(h, info, bodies, tail);
    var rows := BodyRows(Topology(info), bodies);
    PartIdIsOrdinal(Chassis, Chassis);
    ConstructorSkipsFirstLine(HeaderRow(h), RowText(rows[0]), Lines(Texts(rows[1..])) + tail);
  }

  /** A body row read as a header: its ids become the two file names, its third number the
      contact method, and the next fifteen numbers the time, flags and placement. */
  lemma BodyRowAsHeader(r: Reader, v: seq<Decimal>)
    requires Valid(r) && r.cursor == 0 && r.row == RowText(v)
    requires |v| == 29 && AllWellFormed(v) && v[0] == FromInt(0) && v[1] == FromInt(0)
    ensures ReadHeader(r).0 == Success(DecodeHeader("0", "0", Format(v[2]), v[3..18]))
  {
    RowAfterThree(v);
    assert Format(v[0]) == "0" && Format(v[1]) == "0";
    FormatShape(v[2]);
    var m := Format(v[2]);
    var x2 := m + ([','] + Join(Cells(v[3..])));
    var x1 := "0" + ([','] + x2);
    assert r.row[r.cursor..] == "0" + ([','] + x1);
    assert v[3..] == v[3..18] + v[18..];
    ReadHeaderCells(r, "0", "0", m, x1, x2, v[3..18], v[18..]);
  }

  /** The save-file constructor as written opens the file with the reader constructor, which has
      already moved past the header row: the "header" it decodes is the chassis row. The model
      file name it reads is the chassis part id "0", the powertrain file the instance id "0", the
      contact method SMC (a number is never "NSC"), and the time, flags and placement are the
      chassis position, orientation and velocity, shifted by three cells. */
  lemma HeaderFromChassisRow(h: Header, info: VehicleInfo, bodies: BodyId -> BodyState, tail: seq<char>)
    requires Savable(h) && WellFormedBodies(bodies)
    ensures var v := FullValues(0, 0, bodies(BodyId(Chassis, 0)));
      ReadHeader(Construct(Some(SaveText(h, info, bodies, tail)))).0
        == Success(DecodeHeader("0", "0", Format(v[2]), v[3..18]))
    ensures h.master != "0" ==> ReadHeader(Construct(Some(SaveText(h, info, bodies, tail)))).0 != Success(h)
  {
    OpenedSave(h, info, bodies, tail);
    var r := Construct(Some(SaveText(h, info, bodies, tail)));
    var v := FullValues(0, 0, bodies(BodyId(Chassis, 0)));
    FullValuesWellFormed(0, 0, bodies(BodyId(Chassis, 0)));
    BodyRowAsHeader(r, v);
  }

  /** Read by a constructor that stops at the first line, the header is the one written. */
  lemma HeaderFromFirstRow(h: Header, info: VehicleInfo, bodies: BodyId -> BodyState, tail: seq<char>)
    requires Savable(h) && WellFormedBodies(bodies)
    ensures ReadHeader(ConstructFirst(Some(SaveText(h, info, bodies, tail)))).0 == Success(h)
  {
    OpenedSave(h, info, bodies, tail);
    HeaderRoundTrip(ConstructFirst(Some(SaveText(h, info, bodies, tail))), h);
  }

  /** `LoadData` as written: the reader constructor has already moved past the header row and the
      explicit `GetLine` past the chassis row, so the chassis row is never read; and with no
      `GetLine` in the loop body, the loop reads the remaining rows through `GetNumber`'s own
      line roll-over and ends with `stod` throwing on what follows the last row. */
  lemma LoadSkipsChassisAndCrashes(h: Header, info: VehicleInfo, bodies: BodyId -> BodyState, tail: seq<char>, fuel: nat)
    requires Savable(h) && WellFormedBodies(bodies) && Terminator(tail)
    requires fuel >= |Topology(info)|
    ensures var res := RowLoop(ReadLine(Construct(Some(SaveText(h, info, bodies, tail)))), 29, false, fuel);
      res.0 == Crashed(ParseError) && res.1 == BodyRows(Topology(info), bodies)[1..]
  {
    OpenedSave(h, info, bodies, tail);
    BodyRowsPrintable(Topology(info), bodies);
    SkipThenCrash(Construct(Some(SaveText(h, info, bodies, tail))), BodyRows(Topology(info), bodies), tail, fuel);
  }

  /** A reader on the first of printed rows, moved on by one line and then looped without
      `GetLine`, keeps every later row and crashes at the end. */
  lemma SkipThenCrash(r: Reader, rows: seq<seq<Decimal>>, tail: seq<char>, fuel: nat)
    requires Printable(rows, 29) && |rows| >= 2 && Terminator(tail) && fuel >= |rows|
    requires r == Reader(Stream(true, Lines(Texts(rows[1..])) + tail, false, false), RowText(rows[0]), 0, 0)
    ensures var res := RowLoop(ReadLine(r), 29, false, fuel);
      res.0 == Crashed(ParseError) && res.1 == rows[1..]
  {
    assert Printable(rows[1..], 29);
    NextRow(r, rows[1..], 29, tail);
    assert rows[1..][1..] == rows[2..];
    LoopWithoutGetLineCrashes(ReadLine(r), rows[1..], 29, tail, fuel);
  }

  /** `LoadData` with a reader that stops at the header and a `GetLine` after every row reads every
      body row in topology order and stops at the end of the file. */
  lemma LoadReadsEveryBody(h: Header, info: VehicleInfo, bodies: BodyId -> BodyState, tail: seq<char>, fuel: nat)
    requires Savable(h) && WellFormedBodies(bodies) && Terminator(tail)
    requires fuel >= |Topology(info)|
    ensures var res := RowLoop(ReadLine(ConstructFirst(Some(SaveText(h, info, bodies, tail)))), 29, true, fuel);
      res.0 == Done && res.1 == BodyRows(Topology(info), bodies)
  {
    OpenedSave(h, info, bodies, tail);
    var rows := BodyRows(Topology(info), bodies);
    BodyRowsPrintable(Topology(info), bodies);
    var r := ConstructFirst(Some(SaveText(h, info, bodies, tail)));
    NextRow(r, rows, 29, tail);
    LoopReadsEveryRow(ReadLine(r), rows, 29, tail, fuel);
  }

  // ---------------------------------------------------------------------------------------------
  // The export file

  /** The arguments of the fourteen `Add` calls that write the label row of an export file: each
      label but the last carries its own comma. */
  const ExportLabels: seq<seq<char>> := ["General_ID,", "Specific_ID,", "Position_X,", "Position_Y,",
    "Position_Z,", "Rotation_00,", "Rotation_01,", "Rotation_02,", "Rotation_10,", "Rotation_11,",
    "Rotation_12,", "Rotation_20,", "Rotation_21,", "Rotation_22"]

  /** Pieces of text written one after another. */
  function Concat(pieces: seq<seq<char>>): (s: seq<char>)
    ensures forall i :: 0 <= i < |pieces| && '\n' in pieces[i] ==> '\n' in s
    ensures (forall i :: 0 <= i < |pieces| ==> '\n' !in pieces[i]) ==> '\n' !in s
    decreases |pieces|
  {
    if pieces == [] then [] else Concat(pieces[..|pieces| - 1]) + pieces[|pieces| - 1]
  }

  /** The label row of an export file. */
  function ExportHeader(): seq<char>
  {
    Concat(ExportLabels)
  }

  /** The label row is one line, with a label for each number of a light row. */
  lemma ExportHeaderLine(genId: int, specId: int, s: BodyState)
    ensures '\n' !in ExportHeader()
    ensures |ExportLabels| == |LightValues(genId, specId, s)|
  {
    assert forall i :: 0 <= i < |ExportLabels| ==> '\n' !in ExportLabels[i];
  }

  /** The light rows `BodyToCSV` writes for the given bodies, in order. */
  function LightRows(bs: seq<BodyId>, bodies: BodyId -> BodyState): (rows: seq<seq<Decimal>>)
    ensures |rows| == |bs|
    ensures forall k :: 0 <= k < |bs| ==> rows[k] == LightValues(PartToId(bs[k].part), bs[k].index, bodies(bs[k]))
  {
    seq(|bs|, k requires 0 <= k < |bs| => LightValues(PartToId(bs[k].part), bs[k].index, bodies(bs[k])))
  }

  /** A file of a label row and then one light row for every instance of every listed kind, kind by
      kind in list order, instances in index order. */
  function ExportFile(header: seq<char>, info: VehicleInfo, parts: seq<Part>, bodies: BodyId -> BodyState): seq<char>
  {
    Lines([header] + Texts(LightRows(BodiesOf(info, parts), bodies)))
  }

  /** What `ExportData` writes. */
  function ExportText(info: VehicleInfo, parts: seq<Part>, bodies: BodyId -> BodyState): seq<char>
  {
    ExportFile(ExportHeader(), info, parts, bodies)
  }

  /** Every light row of an export file is read back, in order, by a loop reading fourteen
      numbers and then a line per row, after the label row. */
  lemma ExportReadable(header: seq<char>, info: VehicleInfo, parts: seq<Part>, bodies: BodyId -> BodyState, fuel: nat)
    requires '\n' !in header
    requires WellFormedBodies(bodies) && |BodiesOf(info, parts)| > 0
    requires fuel >= |BodiesOf(info, parts)|
    ensures var res := RowLoop(ReadLine(ConstructFirst(Some(ExportFile(header, info, parts, bodies)))), 14, true, fuel);
      res.0 == Done && res.1 == LightRows(BodiesOf(info, parts), bodies)
  {
    var bs := BodiesOf(info, parts);
    var rows := LightRows(bs, bodies);
    assert Printable(rows, 14) by {
      forall k | 0 <= k < |rows|
        ensures |rows[k]| == 14 && AllWellFormed(rows[k]) && !rows[k][0].negative
      {
        LightValuesWellFormed(PartToId(bs[k].part), bs[k].index, bodies(bs[k]));
        PartIdIsOrdinal(bs[k].part, bs[k].part);
      }
    }
    RowTextPlain(rows[0]);
    LinesThen(rows, []);
    assert ([header] + Texts(rows))[1..] == Texts(rows);
    var text := ExportFile(header, info, parts, bodies);
    assert text == header + ['\n'] + (Lines(Texts(rows)) + []);
    OpenLoadsFirstLine(Blank, Some(text), header, Lines(Texts(rows)) + []);
    var r := ConstructFirst(Some(text));
    NextRow(r, rows, 14, []);
    LoopReadsEveryRow(ReadLine(r), rows, 14, [], fuel);
  }
}
