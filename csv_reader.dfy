/** `CSVReader`: a tokenizer over the current line (`row`) of an input file, with a cursor into
    the row. Its behaviour is first stated as functions over a `Reader` value, then carried by the
    `CsvReader` class whose methods update the fields in place. */
module CsvReaders {
  import opened Wrappers
  import opened Numerals
  import opened CsvText
  import opened Records
  import opened Streams

  /** The reader's state: the stream, the row buffer, the cursor into it and `*processed`, the
      length `stod` reported for the last number. */
  datatype Reader = Reader(stream: Stream, row: seq<char>, cursor: int, processed: nat)

  /** The cursor stays within the row or one past its end (just after the last delimiter). */
  predicate Valid(r: Reader)
  {
    Coherent(r.stream) && 0 <= r.cursor <= |r.row| + 1
  }

  /** `GetLine`: the next line into the buffer, cursor back to the start of it. */
  function ReadLine(r: Reader): (q: Reader)
    ensures q.cursor == 0 && q.processed == r.processed
    ensures (q.stream, q.row) == Getline(r.stream, r.row)
    ensures Valid(r) ==> Valid(q)
  {
    var (s, row) := Getline(r.stream, r.row);
    r.(stream := s, row := row, cursor := 0)
  }

  /** `IsValidRow`: whether the first character of the row is a decimal digit. An empty row is
      tested through its terminating null character, which is not a digit. */
  predicate ValidRow(row: seq<char>)
  {
    |row| > 0 && IsDigitChar(row[0])
  }

  /** `std::stod(row.substr(cursor), &processed)`: `ScanNumber`, reached through `bound` steps of
      a recursion that changes nothing (`StodIs`). The detour keeps the verifier from unpacking the
      scanner wherever a `GetNumber` step is mentioned; a proof that needs the scanner asks for it
      through `StodIs`. */
  function Stod(s: seq<char>, bound: nat): (r: Option<(Decimal, nat)>)
    ensures r.Some? ==> 0 < r.value.1 <= |s|
    decreases bound
  {
    if bound == 0 then ScanNumber(s) else Stod(s, bound - 1)
  }

  lemma {:induction false} StodIs(s: seq<char>, bound: nat)
    ensures Stod(s, bound) == ScanNumber(s)
    decreases bound
  {
    if bound > 0 {
      StodIs(s, bound - 1);
    }
  }

  /** `GetNumber`: when the cursor stands past the last delimiter the next line is loaded first;
      then `stod` reads the number at the cursor, and the cursor moves past it and one delimiter.
      When no number stands at the cursor `stod` throws and nothing more changes. */
  function ReadNumber(r: Reader): (p: (Result<Decimal>, Reader))
    requires Valid(r)
    ensures Valid(p.1)
    ensures r.cursor != |r.row| + 1 ==> p.1.stream == r.stream && p.1.row == r.row
  {
    var r1 := if r.cursor == |r.row| + 1 then ReadLine(r) else r;
    match Stod(r1.row[r1.cursor..], |r1.row| + 1)
    case None => (Failure(ParseError), r1)
    case Some((d, n)) => (Success(d), r1.(processed := n, cursor := r1.cursor + n + 1))
  }

  /** `ReadNumber`, reached through `bound` steps of a recursion that changes nothing (as `Stod`):
      a run of numbers names each `GetNumber` step without unpacking it; `NumberAtIs` unpacks it. */
  function NumberAt(r: Reader, bound: nat): (p: (Result<Decimal>, Reader))
    requires Valid(r)
    ensures Valid(p.1)
    decreases bound
  {
    if bound == 0 then ReadNumber(r) else NumberAt(r, bound - 1)
  }

  lemma {:induction false} NumberAtIs(r: Reader, bound: nat)
    requires Valid(r)
    ensures NumberAt(r, bound) == ReadNumber(r)
    decreases bound
  {
    if bound > 0 {
      NumberAtIs(r, bound - 1);
    }
  }

  /** `n` successive `GetNumber` calls, stopping at the first failure. */
  function ReadNumbers(r: Reader, n: nat): (p: (Result<seq<Decimal>>, Reader))
    requires Valid(r)
    ensures Valid(p.1)
    ensures p.0.Success? ==> |p.0.value| == n
    decreases n
  {
    if n == 0 then (Success([]), r)
    else
      var (first, r1) := NumberAt(r, |r.row| + 1);
      if first.Failure? then (Failure(first.error), r1)
      else
        var (others, r2) := ReadNumbers(r1, n - 1);
        if others.Failure? then (others, r2) else (Success([first.value] + others.value), r2)
  }

  /** `GetVector`: three `GetNumber` calls, x first; the first failure ends it. */
  function ReadVector(r: Reader): (p: (Result<Vector>, Reader))
    requires Valid(r)
    ensures Valid(p.1)
  {
    var (ns, q) := ReadNumbers(r, 3);
    if ns.Failure? then (Failure(ns.error), q)
    else (Success(Vector(ns.value[0], ns.value[1], ns.value[2])), q)
  }

  /** `GetQuaternion`: four `GetNumber` calls, e0 first; the first failure ends it. */
  function ReadQuaternion(r: Reader): (p: (Result<Quaternion>, Reader))
    requires Valid(r)
    ensures Valid(p.1)
  {
    var (ns, q) := ReadNumbers(r, 4);
    if ns.Failure? then (Failure(ns.error), q)
    else (Success(Quaternion(ns.value[0], ns.value[1], ns.value[2], ns.value[3])), q)
  }

  /** A run whose first `GetNumber` fails fails with it. */
  lemma RunFirstFails(r: Reader, n: nat, e: Error, r1: Reader)
    requires Valid(r) && n > 0 && NumberAt(r, |r.row| + 1) == (Failure(e), r1)
    ensures ReadNumbers(r, n) == (Failure(e), r1)
  {
  }

  /** A run whose first `GetNumber` succeeds is that number before the rest of the run. */
  lemma RunCons(r: Reader, n: nat, d: Decimal, r1: Reader, rest: Result<seq<Decimal>>, q: Reader)
    requires Valid(r) && NumberAt(r, |r.row| + 1) == (Success(d), r1) && Valid(r1)
    requires ReadNumbers(r1, n) == (rest, q)
    ensures ReadNumbers(r, n + 1) == (if rest.Failure? then rest else Success([d] + rest.value), q)
  {
  }

  /** A first number that fails makes the whole run fail. */
  lemma ReadNumbersFails(r: Reader, n: nat)
    requires Valid(r) && n > 0 && ReadNumber(r).0.Failure?
    ensures ReadNumbers(r, n).0 == Failure(ReadNumber(r).0.error)
  {
    NumberAtIs(r, |r.row| + 1);
  }

  /** A run of `n` numbers is its first number followed by a run of `n - 1` from there. */
  lemma ReadNumbersThen(r: Reader, n: nat)
    requires Valid(r) && n > 0 && ReadNumber(r).0.Success?
    ensures var (rest, q) := ReadNumbers(ReadNumber(r).1, n - 1);
      && (ReadNumbers(r, n).0.Success? <==> rest.Success?)
      && (rest.Success? ==> ReadNumbers(r, n) == (Success([ReadNumber(r).0.value] + rest.value), q))
  {
    NumberAtIs(r, |r.row| + 1);
  }

  /** `Close`: only when a file is attached, detach it and reset the cursor and `*processed`. */
  function CloseReader(r: Reader): (q: Reader)
    ensures !q.stream.isOpen
    ensures Valid(r) ==> Valid(q)
  {
    if r.stream.isOpen then r.(stream := CloseStream(r.stream), cursor := 0, processed := 0) else r
  }

  /** `Open`: closes an attached file, then opens `file`; on success loads the first line. */
  function OpenReader(r: Reader, file: Option<seq<char>>): (p: (bool, Reader))
    ensures Valid(r) ==> Valid(p.1)
  {
    var r1 := CloseReader(r);
    var s := OpenStream(r1.stream, file);
    if s.isOpen then (true, ReadLine(r1.(stream := s))) else (false, r1.(stream := s))
  }

  /** A reader before its constructor body runs. The cursor is not initialised by the source when
      the file cannot be opened; the model takes 0. */
  const Blank := Reader(Unopened, [], 0, 0)

  /** The constructor as written: `Open` (which loads the first line), then `*processed := 0`,
      then a further `getline`, so the buffer holds the second line. */
  function Construct(file: Option<seq<char>>): (r: Reader)
    ensures Valid(r)
  {
    var r1 := OpenReader(Blank, file).1.(processed := 0);
    var (s, row) := Getline(r1.stream, r1.row);
    r1.(stream := s, row := row)
  }

  /** The constructor as documented: open the file and load its first line. */
  function ConstructFirst(file: Option<seq<char>>): (r: Reader)
    ensures Valid(r)
  {
    OpenReader(Blank, file).1.(processed := 0)
  }

  /** The text up to the next comma, or to the end of the row. */
  function CellText(s: seq<char>): (c: seq<char>)
    ensures |c| <= |s| && ',' !in c
    ensures c == s[..|c|] && (|c| == |s| || s[|c|] == ',')
  {
    if s == [] || s[0] == ',' then [] else [s[0]] + CellText(s[1..])
  }

  /** The cell before a comma is read as text up to that comma. */
  lemma {:induction false} CellTextOf(c: seq<char>, rest: seq<char>)
    requires ',' !in c
    ensures CellText(c + ([','] + rest)) == c
    decreases |c|
  {
    if c != [] {
      assert (c + ([','] + rest))[1..] == c[1..] + ([','] + rest);
      CellTextOf(c[1..], rest);
    }
  }

  /** `GetString` at the start of a cell followed by a comma returns the cell and leaves the
      cursor at the start of the next cell. */
  lemma ReadStringCell(r: Reader, c: seq<char>, rest: seq<char>)
    requires Valid(r) && r.cursor <= |r.row| && ',' !in c
    requires r.row[r.cursor..] == c + ([','] + rest)
    ensures ReadString(r) == (c, r.(cursor := r.cursor + |c| + 1))
    ensures r.cursor + |c| + 1 <= |r.row| && r.row[r.cursor + |c| + 1..] == rest
  {
    StringAtIs(r, |r.row| + 1);
    CellTextOf(c, rest);
    SuffixAfter(r.row, r.cursor, c + [','], rest);
  }

  /** `GetString` (called by the save-file constructor but declared nowhere): assumed to read the
      cell at the cursor as text, with the same line roll-over and cursor step as `GetNumber`.
      It is reached through `StringAt` for the same reason `ReadNumber` is reached through
      `NumberAt`. */
  function ReadString(r: Reader): (p: (seq<char>, Reader))
    requires Valid(r)
    ensures Valid(p.1)
  {
    StringAt(r, |r.row| + 1)
  }

  function StringAt(r: Reader, bound: nat): (p: (seq<char>, Reader))
    requires Valid(r)
    ensures Valid(p.1)
    decreases bound
  {
    if bound == 0 then
      var r1 := if r.cursor == |r.row| + 1 then ReadLine(r) else r;
      var c := CellText(r1.row[r1.cursor..]);
      (c, r1.(cursor := r1.cursor + |c| + 1))
    else StringAt(r, bound - 1)
  }

  lemma {:induction false} StringAtIs(r: Reader, bound: nat)
    requires Valid(r)
    ensures StringAt(r, bound) == StringAt(r, 0)
    decreases bound
  {
    if bound > 0 {
      StringAtIs(r, bound - 1);
    }
  }

  // ---------------------------------------------------------------------------------------------
  // What reading yields

  /** `stod` reads cell text `c` as the number `d`, consuming all of it, whenever a delimiter or
      the end of the row follows (whatever the bound of `Stod`, see `StodIs`). */
  ghost predicate Reads(c: seq<char>, d: Decimal)
  {
    forall rest: seq<char>, bound: nat {:trigger Stod(c + rest, bound)} ::
      (rest == [] || rest[0] == ',') ==> Stod(c + rest, bound) == Some((d, |c|))
  }

  /** Every cell reads as the number at the same position. */
  ghost predicate CellsRead(cells: seq<seq<char>>, ds: seq<Decimal>)
  {
    |cells| == |ds| && forall i :: 0 <= i < |cells| ==> Reads(cells[i], ds[i])
  }

  /** What the writer prints for a number reads back as that number. */
  lemma FormatReads(d: Decimal)
    requires WellFormed(d)
    ensures Reads(Format(d), d)
  {
    forall rest: seq<char>, bound: nat | rest == [] || rest[0] == ','
      ensures Stod(Format(d) + rest, bound) == Some((d, |Format(d)|))
    {
      ScanFormat(d, rest);
      StodIs(Format(d) + rest, bound);
    }
  }

  lemma FormattedCellsRead(ds: seq<Decimal>)
    requires AllWellFormed(ds)
    ensures CellsRead(Cells(ds), ds)
  {
    forall i | 0 <= i < |ds|
      ensures Reads(Cells(ds)[i], ds[i])
    {
      FormatReads(ds[i]);
    }
  }

  /** `GetNumber` on a cell that reads as `d`, followed by a delimiter or the end of the row,
      returns `d` and leaves the cursor just past the delimiter. */
  lemma ReadCell(r: Reader, c: seq<char>, d: Decimal, rest: seq<char>)
    requires Valid(r) && r.cursor <= |r.row| && Reads(c, d)
    requires r.row[r.cursor..] == c + rest && (rest == [] || rest[0] == ',')
    ensures ReadNumber(r) == (Success(d), r.(processed := |c|, cursor := r.cursor + |c| + 1))
  {
    assert Stod(c + rest, |r.row| + 1) == Some((d, |c|));
  }

  lemma JoinFirst(ds: seq<Decimal>)
    requires |ds| > 1
    ensures Join(Cells(ds)) == Format(ds[0]) + ([','] + Join(Cells(ds[1..])))
  {
    assert Cells(ds)[1..] == Cells(ds[1..]);
  }

  lemma SingletonAppendEmpty<T>(x: T)
    ensures [x] + [] == [x]
  {
  }

  lemma HeadTail<T>(s: seq<T>)
    requires |s| > 0
    ensures [s[0]] + s[1..] == s
  {
  }

  /** What follows a known prefix of a row's remainder. */
  lemma SuffixAfter(row: seq<char>, c: nat, a: seq<char>, b: seq<char>)
    requires c <= |row| && row[c..] == a + b
    ensures c + |a| <= |row| && row[c + |a|..] == b
  {
    assert row[c..][|a|..] == b;
  }

  /** A run of no numbers reads nothing. */
  lemma ReadNoNumbers(r: Reader)
    requires Valid(r)
    ensures ReadNumbers(r, 0) == (Success([]), r)
  {
  }

  /** A run of numbers is its first number followed by the run after it. */
  lemma ReadNumbersCons(r: Reader, m: nat, d: Decimal, r1: Reader, ds: seq<Decimal>, q: Reader)
    requires Valid(r) && ReadNumber(r) == (Success(d), r1)
    requires ReadNumbers(r1, m) == (Success(ds), q)
    ensures ReadNumbers(r, m + 1) == (Success([d] + ds), q)
  {
    ReadNumbersThen(r, m + 1);
  }

  lemma CellsReadTail(cells: seq<seq<char>>, ds: seq<Decimal>)
    requires |cells| > 1 && CellsRead(cells, ds)
    ensures CellsRead(cells[1..], ds[1..]) && Reads(cells[0], ds[0])
    ensures cells[1..][|cells| - 2] == cells[|cells| - 1]
  {
    assert forall i :: 0 <= i < |cells| - 1 ==> cells[1..][i] == cells[i + 1] && ds[1..][i] == ds[i + 1];
  }

  lemma JoinFirstCell(row: seq<char>, c: nat, cells: seq<seq<char>>)
    requires c <= |row| && |cells| > 1 && row[c..] == Join(cells)
    ensures row[c..] == cells[0] + ([','] + Join(cells[1..]))
    ensures c + |cells[0]| + 1 <= |row| && row[c + |cells[0]| + 1..] == Join(cells[1..])
  {
    SuffixAfter(row, c, cells[0] + [','], Join(cells[1..]));
  }

  /** Reading a row of cells: from a cursor at the start of a run of joined cells, as many
      `GetNumber` calls as there are cells return exactly the numbers the cells read as, in order,
      and the cursor ends one past the end of the row. */
  lemma {:induction false} ReadCells(r: Reader, cells: seq<seq<char>>, ds: seq<Decimal>)
    requires Valid(r) && r.cursor <= |r.row| && |cells| > 0 && CellsRead(cells, ds)
    requires r.row[r.cursor..] == Join(cells)
    ensures ReadNumbers(r, |ds|)
         == (Success(ds), r.(processed := |cells[|cells| - 1]|, cursor := |r.row| + 1))
    decreases |cells|
  {
    if |cells| == 1 {
      assert r.row[r.cursor..] == cells[0] + [];
      ReadCell(r, cells[0], ds[0], []);
      var q := r.(processed := |cells[0]|, cursor := r.cursor + |cells[0]| + 1);
      ReadNoNumbers(q);
      ReadNumbersCons(r, 0, ds[0], q, [], q);
      SingletonAppendEmpty(ds[0]);
      assert ds == [ds[0]];
    } else {
      JoinFirstCell(r.row, r.cursor, cells);
      CellsReadTail(cells, ds);
      ReadCell(r, cells[0], ds[0], [','] + Join(cells[1..]));
      var r1 := r.(processed := |cells[0]|, cursor := r.cursor + |cells[0]| + 1);
      ReadCells(r1, cells[1..], ds[1..]);
      var q := r.(processed := |cells[|cells| - 1]|, cursor := |r.row| + 1);
      assert |ds[1..]| == |ds| - 1 && |cells[1..]| - 1 == |cells| - 2;
      assert r1.(processed := |cells[1..][|cells[1..]| - 1]|, cursor := |r1.row| + 1) == q;
      ReadNumbersCons(r, |ds| - 1, ds[0], r1, ds[1..], q);
      HeadTail(ds);
    }
  }

  /** Reading a row the writer printed: as many `GetNumber` calls as there are numbers return
      exactly those numbers in order, and the cursor ends one past the end of the row. */
  lemma ReadJoined(r: Reader, ds: seq<Decimal>)
    requires Valid(r) && r.cursor <= |r.row| && |ds| > 0 && AllWellFormed(ds)
    requires r.row[r.cursor..] == Join(Cells(ds))
    ensures ReadNumbers(r, |ds|).0 == Success(ds)
    ensures ReadNumbers(r, |ds|).1.cursor == |r.row| + 1
    ensures ReadNumbers(r, |ds|).1.row == r.row && ReadNumbers(r, |ds|).1.stream == r.stream
  {
    FormattedCellsRead(ds);
    ReadCells(r, Cells(ds), ds);
  }

  /** When the cursor stands one past the end of the row, `GetNumber` reads from the start of the
      next line: a number is never taken across two lines. */
  lemma RollOver(r: Reader)
    requires Valid(r) && r.cursor == |r.row| + 1
    ensures ReadNumber(r) == ReadNumber(ReadLine(r))
  {
  }

  /** A file of lines: each line followed by a newline, none holding a newline itself. */
  predicate PlainLines(lines: seq<seq<char>>)
  {
    forall i :: 0 <= i < |lines| ==> '\n' !in lines[i]
  }

  /** Two `GetLine` calls move past one line of data entirely and load the line after it. */
  lemma GetLineTwice(r: Reader, first: seq<char>, second: seq<char>, after: seq<char>)
    requires Good(r.stream) && '\n' !in first && '\n' !in second
    requires r.stream.rest == first + ['\n'] + (second + ['\n'] + after)
    ensures ReadLine(r).row == first
    ensures ReadLine(ReadLine(r)) == r.(stream := r.stream.(rest := after), row := second, cursor := 0)
  {
    GetlineLine(r.stream, r.row, first, second + ['\n'] + after);
    GetlineLine(r.stream.(rest := second + ['\n'] + after), first, second, after);
  }

  /** `Open` reports success exactly when the file exists. It then holds the first line with the
      cursor at its start; otherwise the buffer is untouched and the stream has failed. */
  lemma OpenLoadsFirstLine(r: Reader, file: Option<seq<char>>, first: seq<char>, after: seq<char>)
    requires Valid(r)
    ensures OpenReader(r, file).0 <==> file.Some?
    ensures file.None? ==> OpenReader(r, file).1.row == r.row && OpenReader(r, file).1.stream.fail
    ensures file == Some(first + ['\n'] + after) && '\n' !in first ==>
      OpenReader(r, file).1 == Reader(Stream(true, after, false, false), first, 0, CloseReader(r).processed)
  {
    if file == Some(first + ['\n'] + after) && '\n' !in first {
      GetlineLine(Stream(true, file.value, false, false), CloseReader(r).row, first, after);
    }
  }

  /** `Close` resets the cursor and the count only when a file was attached. */
  lemma CloseResets(r: Reader)
    ensures r.stream.isOpen ==> CloseReader(r).cursor == 0 && CloseReader(r).processed == 0
    ensures !r.stream.isOpen ==> CloseReader(r) == r
    ensures CloseReader(r).row == r.row
  {
  }

  /** The constructor as written leaves the second line of the file in the buffer, not the first
      its documentation promises; the documented constructor leaves the first. */
  lemma ConstructorSkipsFirstLine(first: seq<char>, second: seq<char>, after: seq<char>)
    requires '\n' !in first && '\n' !in second
    ensures Construct(Some(first + ['\n'] + (second + ['\n'] + after)))
         == Reader(Stream(true, after, false, false), second, 0, 0)
    ensures ConstructFirst(Some(first + ['\n'] + (second + ['\n'] + after)))
         == Reader(Stream(true, second + ['\n'] + after, false, false), first, 0, 0)
  {
    var text := first + ['\n'] + (second + ['\n'] + after);
    GetlineLine(Stream(true, text, false, false), [], first, second + ['\n'] + after);
    GetlineLine(Stream(true, second + ['\n'] + after, false, false), first, second, after);
  }

  /** `IsValidRow` accepts a row exactly when it starts with a digit: the terminator `EOF`, an
      empty row and a row whose first number is negative are all rejected; a row of printed
      numbers is accepted exactly when its first number is not negative. */
  lemma ValidRowCases(ds: seq<Decimal>, tail: seq<char>)
    requires |ds| > 0 && WellFormed(ds[0])
    ensures !ValidRow("EOF" + tail) && !ValidRow([]) && !ValidRow(['-'] + tail)
    ensures ValidRow(Join(Cells(ds))) <==> !ds[0].negative
  {
    FormatShape(ds[0]);
    if |ds| > 1 {
      JoinFirst(ds);
    }
  }

  /** Neither the terminator `EOF` nor an empty remainder holds a number: `GetNumber` fails there. */
  lemma NoNumber(r: Reader, tail: seq<char>)
    requires Valid(r) && r.cursor <= |r.row|
    requires r.row[r.cursor..] == [] || r.row[r.cursor..] == "EOF" + tail
    ensures ReadNumber(r).0 == Failure(ParseError)
  {
    StodIs(r.row[r.cursor..], |r.row| + 1);
    NoNumeral(r.row[r.cursor..]);
  }

  // ---------------------------------------------------------------------------------------------
  // The reader object

  class CsvReader {
    var stream: Stream
    var row: seq<char>
    var cursor: int
    var processed: nat

    function State(): Reader
      reads this
    {
      Reader(stream, row, cursor, processed)
    }

    /** `CSVReader(filename)` as written: reads two lines (see `Construct`). */
    constructor (file: Option<seq<char>>)
      ensures State() == Construct(file)
    {
      stream := Unopened;
      row := [];
      cursor := 0;
      processed := 0;
      new;
      var ok := Open(file);
      processed := 0;
      var (s, line) := Getline(stream, row);
      stream, row := s, line;
    }

    /** The constructor as its documentation states it: only the first line is loaded. */
    constructor First(file: Option<seq<char>>)
      ensures State() == ConstructFirst(file)
    {
      stream := Unopened;
      row := [];
      cursor := 0;
      processed := 0;
      new;
      var ok := Open(file);
      processed := 0;
    }

    /** `GetLine`. */
    method GetLine()
      modifies this
      ensures State() == ReadLine(old(State()))
    {
      var (s, line) := Getline(stream, row);
      stream, row := s, line;
      cursor := 0;
    }

    /** `IsValidRow`. */
    function IsValidRow(): (valid: bool)
      reads this
      ensures valid <==> ValidRow(row)
    {
      |row| > 0 && IsDigitChar(row[0])
    }

    /** `GetNumber`. */
    method GetNumber() returns (number: Result<Decimal>)
      requires Valid(State())
      modifies this
      ensures (number, State()) == ReadNumber(old(State()))
    {
      if cursor == |row| + 1 {
        GetLine();
      }
      match Stod(row[cursor..], |row| + 1)
      case None =>
        number := Failure(ParseError);
      case Some((d, n)) =>
        processed := n;
        cursor := cursor + n + 1;
        number := Success(d);
    }

    /** `GetVector`: three numbers, in x, y, z order. */
    method GetVector() returns (v: Result<Vector>)
      requires Valid(State())
      modifies this
      ensures (v, State()) == ReadVector(old(State()))
    {
      ghost var r0 := State();
      NumberAtIs(r0, |row| + 1);
      var x := GetNumber();
      ghost var r1 := State();
      if x.Failure? {
        RunFirstFails(r0, 3, x.error, r1);
        return Failure(x.error);
      }
      NumberAtIs(r1, |row| + 1);
      var y := GetNumber();
      ghost var r2 := State();
      if y.Failure? {
        RunFirstFails(r1, 2, y.error, r2);
        RunCons(r0, 2, x.value, r1, Failure(y.error), r2);
        return Failure(y.error);
      }
      NumberAtIs(r2, |row| + 1);
      var z := GetNumber();
      ghost var r3 := State();
      if z.Failure? {
        RunFirstFails(r2, 1, z.error, r3);
        RunCons(r1, 1, y.value, r2, Failure(z.error), r3);
        RunCons(r0, 2, x.value, r1, Failure(z.error), r3);
        return Failure(z.error);
      }
      RunCons(r2, 0, z.value, r3, Success([]), r3);
      assert [z.value] + [] == [z.value];
      RunCons(r1, 1, y.value, r2, Success([z.value]), r3);
      assert [y.value] + [z.value] == [y.value, z.value];
      RunCons(r0, 2, x.value, r1, Success([y.value, z.value]), r3);
      assert [x.value] + [y.value, z.value] == [x.value, y.value, z.value];
      v := Success(Vector(x.value, y.value, z.value));
    }

    /** `GetQuaternion` (called by `LoadData` but declared nowhere): assumed to read four numbers,
        e0 first. */
    method GetQuaternion() returns (q: Result<Quaternion>)
      requires Valid(State())
      modifies this
      ensures (q, State()) == ReadQuaternion(old(State()))
    {
      ghost var r0 := State();
      NumberAtIs(r0, |row| + 1);
      var e0 := GetNumber();
      ghost var r1 := State();
      if e0.Failure? {
        RunFirstFails(r0, 4, e0.error, r1);
        return Failure(e0.error);
      }
      NumberAtIs(r1, |row| + 1);
      var e1 := GetNumber();
      ghost var r2 := State();
      if e1.Failure? {
        RunFirstFails(r1, 3, e1.error, r2);
        RunCons(r0, 3, e0.value, r1, Failure(e1.error), r2);
        return Failure(e1.error);
      }
      NumberAtIs(r2, |row| + 1);
      var e2 := GetNumber();
      ghost var r3 := State();
      if e2.Failure? {
        RunFirstFails(r2, 2, e2.error, r3);
        RunCons(r1, 2, e1.value, r2, Failure(e2.error), r3);
        RunCons(r0, 3, e0.value, r1, Failure(e2.error), r3);
        return Failure(e2.error);
      }
      NumberAtIs(r3, |row| + 1);
      var e3 := GetNumber();
      ghost var r4 := State();
      if e3.Failure? {
        RunFirstFails(r3, 1, e3.error, r4);
        RunCons(r2, 1, e2.value, r3, Failure(e3.error), r4);
        RunCons(r1, 2, e1.value, r2, Failure(e3.error), r4);
        RunCons(r0, 3, e0.value, r1, Failure(e3.error), r4);
        return Failure(e3.error);
      }
      RunCons(r3, 0, e3.value, r4, Success([]), r4);
      assert [e3.value] + [] == [e3.value];
      RunCons(r2, 1, e2.value, r3, Success([e3.value]), r4);
      assert [e2.value] + [e3.value] == [e2.value, e3.value];
      RunCons(r1, 2, e1.value, r2, Success([e2.value, e3.value]), r4);
      assert [e1.value] + [e2.value, e3.value] == [e1.value, e2.value, e3.value];
      RunCons(r0, 3, e0.value, r1, Success([e1.value, e2.value, e3.value]), r4);
      assert [e0.value] + [e1.value, e2.value, e3.value] == [e0.value, e1.value, e2.value, e3.value];
      q := Success(Quaternion(e0.value, e1.value, e2.value, e3.value));
    }

    /** `GetString` (see `ReadString`). */
    method GetString() returns (cell: seq<char>)
      requires Valid(State())
      modifies this
      ensures (cell, State()) == ReadString(old(State()))
    {
      StringAtIs(State(), |row| + 1);
      if cursor == |row| + 1 {
        GetLine();
      }
      cell := CellText(row[cursor..]);
      cursor := cursor + |cell| + 1;
    }

    /** `Open`. */
    method Open(file: Option<seq<char>>) returns (ok: bool)
      modifies this
      ensures (ok, State()) == OpenReader(old(State()), file)
    {
      if stream.isOpen {
        Close();
      }
      stream := OpenStream(stream, file);
      if stream.isOpen {
        GetLine();
        return true;
      }
      return false;
    }

    /** `Close`. */
    method Close()
      modifies this
      ensures State() == CloseReader(old(State()))
    {
      if stream.isOpen {
        stream := CloseStream(stream);
        cursor := 0;
        processed := 0;
      }
    }

    /** `GetRow`: the buffer, with no change to the reader. */
    method GetRow() returns (r: seq<char>)
      ensures r == row
    {
      r := row;
    }
  }
}
