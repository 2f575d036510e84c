/** The row loops built on `CSVReader`: `while (IsValidRow()) { read a row of numbers; ... }`, with
    or without a `GetLine` at the end of the body. A loop is stated as a function of the reader
    that returns how it ended, the rows it read and the reader after it; a bound on the number of
    rows (`fuel`) stands for a loop that never ends. */
module RowLoops {
  import opened Wrappers
  import opened Numerals
  import opened CsvText
  import opened Records
  import opened Streams
  import opened CsvReaders

  /** How a row loop ends: its condition fails; a `GetNumber` throws (which nothing catches, so the
      program stops); or it is still running when the bound on rows is used up. */
  datatype Outcome = Done | Crashed(error: Error) | OutOfFuel

  /** `while (IsValidRow()) { width x GetNumber(); [GetLine();] }` */
  function RowLoop(r: Reader, width: nat, nextLine: bool, fuel: nat)
    : (res: (Outcome, seq<seq<Decimal>>, Reader))
    requires Valid(r)
    ensures Valid(res.2)
    ensures forall i :: 0 <= i < |res.1| ==> |res.1[i]| == width
    ensures res.0 == Done ==> !ValidRow(res.2.row)
    decreases fuel
  {
    if !ValidRow(r.row) then (Done, [], r)
    else if fuel == 0 then (OutOfFuel, [], r)
    else
      var (row, r1) := ReadNumbers(r, width);
      if row.Failure? then (Crashed(row.error), [], r1)
      else
        var r2 := if nextLine then ReadLine(r1) else r1;
        var (o, rows, q) := RowLoop(r2, width, nextLine, fuel - 1);
        (o, [row.value] + rows, q)
  }

  /** The rows `done` already read, followed by what the rest of the loop yields. */
  function After(done: seq<seq<Decimal>>, res: (Outcome, seq<seq<Decimal>>, Reader))
    : (Outcome, seq<seq<Decimal>>, Reader)
  {
    (res.0, done + res.1, res.2)
  }

  // ---------------------------------------------------------------------------------------------
  // Runs of numbers read in pieces

  /** Reading `n` numbers and then `m` more. */
  function Then(p: (Result<seq<Decimal>>, Reader), m: nat): (Result<seq<Decimal>>, Reader)
    requires Valid(p.1)
  {
    if p.0.Failure? then p
    else
      var (more, q) := ReadNumbers(p.1, m);
      if more.Failure? then (more, q) else (Success(p.0.value + more.value), q)
  }

  /** A run of `n + m` numbers is a run of `n` followed by a run of `m`; the first failure ends
      both the same way. */
  lemma {:induction false} ReadNumbersAppend(r: Reader, n: nat, m: nat)
    requires Valid(r)
    ensures ReadNumbers(r, n + m) == Then(ReadNumbers(r, n), m)
    decreases n
  {
    if n == 0 {
      var (more, q) := ReadNumbers(r, m);
      if more.Success? {
        assert [] + more.value == more.value;
      }
    } else {
      var (first, r1) := NumberAt(r, |r.row| + 1);
      if first.Success? {
        ReadNumbersAppend(r1, n - 1, m);
        assert n + m - 1 == (n - 1) + m;
        var (a, q) := ReadNumbers(r1, n - 1);
        if a.Success? {
          var (b, q2) := ReadNumbers(q, m);
          if b.Success? {
            assert [first.value] + (a.value + b.value) == ([first.value] + a.value) + b.value;
          }
        }
      }
    }
  }

  /** After a failed run nothing more is read. */
  lemma NumbersFailed(r: Reader, n: nat, m: nat, e: Error, q: Reader)
    requires Valid(r) && ReadNumbers(r, n) == (Failure(e), q)
    ensures ReadNumbers(r, n + m) == (Failure(e), q)
  {
    ReadNumbersAppend(r, n, m);
  }

  /** One more `GetNumber` after a run of `n`. */
  lemma NumbersThenNumber(r: Reader, n: nat, done: seq<Decimal>, q: Reader, d: Result<Decimal>, q2: Reader)
    requires Valid(r) && ReadNumbers(r, n) == (Success(done), q) && ReadNumber(q) == (d, q2)
    ensures ReadNumbers(r, n + 1)
         == (if d.Failure? then Failure(d.error) else Success(done + [d.value]), q2)
  {
    ReadNumbersAppend(r, n, 1);
    NumberAtIs(q, |q.row| + 1);
    if d.Success? {
      assert [d.value] + [] == [d.value];
    }
  }

  /** A `GetVector` after a run of `n` continues it by the three components. */
  lemma NumbersThenVector(r: Reader, n: nat, done: seq<Decimal>, q: Reader, v: Result<Vector>, q2: Reader)
    requires Valid(r) && ReadNumbers(r, n) == (Success(done), q) && ReadVector(q) == (v, q2)
    ensures ReadNumbers(r, n + 3)
         == (if v.Failure? then Failure(v.error) else Success(done + VectorValues(v.value)), q2)
  {
    ReadNumbersAppend(r, n, 3);
    if v.Success? {
      assert VectorValues(v.value) == ReadNumbers(q, 3).0.value;
    }
  }

  /** A `GetQuaternion` after a run of `n` continues it by the four components. */
  lemma NumbersThenQuaternion(r: Reader, n: nat, done: seq<Decimal>, q: Reader, x: Result<Quaternion>, q2: Reader)
    requires Valid(r) && ReadNumbers(r, n) == (Success(done), q) && ReadQuaternion(q) == (x, q2)
    ensures ReadNumbers(r, n + 4)
         == (if x.Failure? then Failure(x.error) else Success(done + QuaternionValues(x.value)), q2)
  {
    ReadNumbersAppend(r, n, 4);
    if x.Success? {
      assert QuaternionValues(x.value) == ReadNumbers(q, 4).0.value;
    }
  }

  /** A run that starts at the end of a row starts on the next line. */
  lemma ReadNumbersRollOver(r: Reader, n: nat)
    requires Valid(r) && r.cursor == |r.row| + 1 && n > 0
    ensures ReadNumbers(r, n) == ReadNumbers(ReadLine(r), n)
  {
    RollOver(r);
    NumberAtIs(r, |r.row| + 1);
    NumberAtIs(ReadLine(r), |ReadLine(r).row| + 1);
  }

  // ---------------------------------------------------------------------------------------------
  // Files of printed rows

  /** The line the writer prints for a row of numbers. */
  function RowText(ds: seq<Decimal>): seq<char>
  {
    Join(Cells(ds))
  }

  function Texts(rows: seq<seq<Decimal>>): (ts: seq<seq<char>>)
    ensures |ts| == |rows| && forall i {:trigger ts[i]} :: 0 <= i < |rows| ==> ts[i] == RowText(rows[i])
  {
    seq(|rows|, i requires 0 <= i < |rows| => RowText(rows[i]))
  }

  /** Rows a loop reading `width` numbers accepts: the right width, printed numbers, a first
      number (the part code) that `IsValidRow` accepts. */
  predicate Printable(rows: seq<seq<Decimal>>, width: nat)
  {
    && width > 0
    && forall i :: 0 <= i < |rows| ==>
         |rows[i]| == width && AllWellFormed(rows[i]) && !rows[i][0].negative
  }

  /** What may follow the last row: the end of the file, or the terminator `EOF` with no newline. */
  predicate Terminator(tail: seq<char>)
  {
    tail == [] || tail == "EOF"
  }

  lemma {:induction false} JoinPlain(cells: seq<seq<char>>)
    requires PlainCells(cells)
    ensures '\n' !in Join(cells)
    decreases |cells|
  {
    if |cells| > 1 {
      assert PlainCell(cells[0]);
      assert PlainCells(cells[1..]) by {
        forall i | 0 <= i < |cells| - 1
          ensures PlainCell(cells[1..][i])
        {
          assert cells[1..][i] == cells[i + 1];
        }
      }
      JoinPlain(cells[1..]);
    } else if |cells| == 1 {
      assert PlainCell(cells[0]);
    }
  }

  /** A printed row is one line. */
  lemma RowTextPlain(ds: seq<Decimal>)
    requires AllWellFormed(ds)
    ensures '\n' !in RowText(ds)
  {
    FormattedCellsPlain(ds);
    JoinPlain(Cells(ds));
  }

  /** The first printed row of a file and what follows it. */
  lemma LinesThen(rows: seq<seq<Decimal>>, tail: seq<char>)
    requires |rows| > 0
    ensures Lines(Texts(rows)) + tail == RowText(rows[0]) + ['\n'] + (Lines(Texts(rows[1..])) + tail)
  {
    var a, b := RowText(rows[0]), Lines(Texts(rows[1..]));
    assert Lines(Texts(rows)) == a + (['\n'] + b) by {
      assert Texts(rows)[1..] == Texts(rows[1..]);
    }
    AppendAssoc(a, ['\n'], b, tail);
  }

  /** Regrouping four texts. */
  lemma AppendAssoc(a: seq<char>, b: seq<char>, c: seq<char>, d: seq<char>)
    ensures a + (b + c) + d == a + b + (c + d)
  {
  }

  /** Reading a printed row from its start gives its numbers and leaves the cursor past its end. */
  lemma ReadRowAt(r: Reader, ds: seq<Decimal>)
    requires Valid(r) && r.cursor == 0 && r.row == RowText(ds)
    requires |ds| > 0 && AllWellFormed(ds)
    ensures ReadNumbers(r, |ds|).0 == Success(ds)
    ensures ReadNumbers(r, |ds|).1.cursor == |r.row| + 1
    ensures ReadNumbers(r, |ds|).1.row == r.row && ReadNumbers(r, |ds|).1.stream == r.stream
  {
    assert r.row[r.cursor..] == Join(Cells(ds));
    ReadJoined(r, ds);
  }

  /** `GetLine` at a row boundary of a file of printed rows. */
  lemma NextRow(r: Reader, rows: seq<seq<Decimal>>, width: nat, tail: seq<char>)
    requires Printable(rows, width) && |rows| > 0
    requires Good(r.stream) && r.stream.rest == Lines(Texts(rows)) + tail
    ensures ReadLine(r) == r.(stream := r.stream.(rest := Lines(Texts(rows[1..])) + tail),
                              row := RowText(rows[0]), cursor := 0)
  {
    LinesThen(rows, tail);
    RowTextPlain(rows[0]);
    GetlineLine(r.stream, r.row, RowText(rows[0]), Lines(Texts(rows[1..])) + tail);
  }

  /** `GetLine` after the last row loads the terminator, a row `IsValidRow` rejects. */
  lemma LastRow(r: Reader, tail: seq<char>)
    requires Terminator(tail) && Good(r.stream) && r.stream.rest == tail
    ensures ReadLine(r).row == tail && !ValidRow(tail)
  {
    if tail == [] {
      GetlineAtEnd(r.stream, r.row);
    } else {
      GetlineUnterminated(r.stream, r.row, tail);
    }
  }

  // ---------------------------------------------------------------------------------------------
  // The two loops on a file of printed rows

  /** A pass of the loop that reads a row: that row, then what the rest of the loop reads. */
  lemma LoopPass(r: Reader, width: nat, nextLine: bool, fuel: nat, v: seq<Decimal>, q: Reader)
    requires Valid(r) && ValidRow(r.row) && fuel > 0 && ReadNumbers(r, width) == (Success(v), q)
    ensures var rest := RowLoop(if nextLine then ReadLine(q) else q, width, nextLine, fuel - 1);
      RowLoop(r, width, nextLine, fuel) == (rest.0, [v] + rest.1, rest.2)
  {
  }

  /** With a `GetLine` after each row, the loop reads every row of the file in order and ends at the
      terminator. */
  lemma {:induction false} LoopReadsEveryRow(r: Reader, rows: seq<seq<Decimal>>, width: nat, tail: seq<char>, fuel: nat)
    requires Printable(rows, width) && |rows| > 0 && Terminator(tail)
    requires Valid(r) && Good(r.stream) && r.cursor == 0 && r.row == RowText(rows[0])
    requires r.stream.rest == Lines(Texts(rows[1..])) + tail
    requires fuel >= |rows|
    ensures var res := RowLoop(r, width, true, fuel); res.0 == Done && res.1 == rows
    decreases |rows|
  {
    ValidRowCases(rows[0], []);
    ReadRowAt(r, rows[0]);
    var r1 := ReadNumbers(r, width).1;
    LoopPass(r, width, true, fuel, rows[0], r1);
    if |rows| == 1 {
      assert r1.stream.rest == tail;
      LastRow(r1, tail);
      assert RowLoop(ReadLine(r1), width, true, fuel - 1).1 == [];
      assert [rows[0]] + [] == rows;
    } else {
      NextRow(r1, rows[1..], width, tail);
      assert rows[1..][1..] == rows[2..];
      LoopReadsEveryRow(ReadLine(r1), rows[1..], width, tail, fuel - 1);
      assert [rows[0]] + rows[1..] == rows;
    }
  }

  /** Without `GetLine`, a stale row followed only by the terminator: the next `GetNumber` moves
      to the terminator and throws. */
  lemma StaleAtTerminator(q: Reader, width: nat, tail: seq<char>, fuel: nat)
    requires width > 0 && Terminator(tail)
    requires Valid(q) && Good(q.stream) && ValidRow(q.row) && q.cursor == |q.row| + 1
    requires q.stream.rest == tail && fuel > 0
    ensures RowLoop(q, width, false, fuel).0 == Crashed(ParseError)
    ensures RowLoop(q, width, false, fuel).1 == []
  {
    ReadNumbersRollOver(q, width);
    var r1 := ReadLine(q);
    LastRow(q, tail);
    assert r1.row[r1.cursor..] == [] || r1.row[r1.cursor..] == "EOF" + [];
    NoNumber(r1, []);
    ReadNumbersFails(r1, width);
  }

  /** Without `GetLine`, one pass on a stale row reads the next line's row and leaves the cursor
      past its end. */
  lemma StaleStep(q: Reader, rows: seq<seq<Decimal>>, width: nat, tail: seq<char>, fuel: nat)
    requires Printable(rows, width) && |rows| > 0
    requires Valid(q) && Good(q.stream) && ValidRow(q.row) && q.cursor == |q.row| + 1
    requires q.stream.rest == Lines(Texts(rows)) + tail
    requires fuel > 0
    ensures var q1 := ReadNumbers(ReadLine(q), width).1;
      && Valid(q1) && Good(q1.stream) && ValidRow(q1.row) && q1.cursor == |q1.row| + 1
      && q1.stream.rest == Lines(Texts(rows[1..])) + tail
      && var rest := RowLoop(q1, width, false, fuel - 1);
         RowLoop(q, width, false, fuel) == (rest.0, [rows[0]] + rest.1, rest.2)
  {
    ReadNumbersRollOver(q, width);
    var r1 := ReadLine(q);
    NextRow(q, rows, width, tail);
    ReadRowAt(r1, rows[0]);
    ValidRowCases(rows[0], []);
    LoopPass(q, width, false, fuel, rows[0], ReadNumbers(r1, width).1);
  }

  /** Without `GetLine`, once a row is read the cursor stays past its end and the row stays valid,
      so the next `GetNumber` moves to the next line itself: each further row is still read, and the
      terminator then makes `GetNumber` throw. */
  lemma {:induction false} StaleLoopCrashes(q: Reader, rows: seq<seq<Decimal>>, width: nat, tail: seq<char>, fuel: nat)
    requires Printable(rows, width) && Terminator(tail)
    requires Valid(q) && Good(q.stream) && ValidRow(q.row) && q.cursor == |q.row| + 1
    requires q.stream.rest == Lines(Texts(rows)) + tail
    requires fuel > |rows|
    ensures var res := RowLoop(q, width, false, fuel); res.0 == Crashed(ParseError) && res.1 == rows
    decreases |rows|, 1
  {
    if rows == [] {
      assert q.stream.rest == tail;
      StaleAtTerminator(q, width, tail, fuel);
    } else {
      StaleRowsCrash(q, rows, width, tail, fuel);
    }
  }

  /** The case of `StaleLoopCrashes` with a row left to read. */
  lemma {:induction false} StaleRowsCrash(q: Reader, rows: seq<seq<Decimal>>, width: nat, tail: seq<char>, fuel: nat)
    requires Printable(rows, width) && Terminator(tail) && |rows| > 0
    requires Valid(q) && Good(q.stream) && ValidRow(q.row) && q.cursor == |q.row| + 1
    requires q.stream.rest == Lines(Texts(rows)) + tail
    requires fuel > |rows|
    ensures var res := RowLoop(q, width, false, fuel); res.0 == Crashed(ParseError) && res.1 == rows
    decreases |rows|, 0
  {
    StaleStep(q, rows, width, tail, fuel);
    var q1 := ReadNumbers(ReadLine(q), width).1;
    StaleLoopCrashes(q1, rows[1..], width, tail, fuel - 1);
    assert [rows[0]] + rows[1..] == rows;
  }

  /** Without `GetLine` the loop still reads every row of the file, but then ends by a `GetNumber`
      that throws on the terminator rather than by its condition. */
  lemma LoopWithoutGetLineCrashes(r: Reader, rows: seq<seq<Decimal>>, width: nat, tail: seq<char>, fuel: nat)
    requires Printable(rows, width) && |rows| > 0 && Terminator(tail)
    requires Valid(r) && Good(r.stream) && r.cursor == 0 && r.row == RowText(rows[0])
    requires r.stream.rest == Lines(Texts(rows[1..])) + tail
    requires fuel > |rows|
    ensures RowLoop(r, width, false, fuel).0 == Crashed(ParseError)
    ensures RowLoop(r, width, false, fuel).1 == rows
  {
    ValidRowCases(rows[0], []);
    ReadRowAt(r, rows[0]);
    StaleLoopCrashes(ReadNumbers(r, width).1, rows[1..], width, tail, fuel - 1);
    assert [rows[0]] + rows[1..] == rows;
  }
}
