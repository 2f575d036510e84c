/** The text layout shared by every CSV file of the coupling: cells joined by single commas with no
    trailing comma, rows terminated by a newline, no quoting. */
module CsvText {
  import opened Numerals

  /** Cells separated by single commas, no comma after the last cell. */
  function Join(cells: seq<seq<char>>): seq<char>
  {
    if |cells| == 0 then []
    else if |cells| == 1 then cells[0]
    else cells[0] + ([','] + Join(cells[1..]))
  }

  /** Every line followed by a newline. */
  function Lines(lines: seq<seq<char>>): seq<char>
  {
    if lines == [] then [] else lines[0] + (['\n'] + Lines(lines[1..]))
  }

  /** The cells `<<` prints for a list of numbers. */
  function Cells(ds: seq<Decimal>): (r: seq<seq<char>>)
    ensures |r| == |ds| && forall i :: 0 <= i < |ds| ==> r[i] == Format(ds[i])
  {
    seq(|ds|, i requires 0 <= i < |ds| => Format(ds[i]))
  }

  predicate CommaFree(s: seq<char>)
  {
    ',' !in s
  }

  /** A cell that can sit in a row without changing its shape. */
  predicate PlainCell(s: seq<char>)
  {
    ',' !in s && '\n' !in s
  }

  predicate PlainCells(cells: seq<seq<char>>)
  {
    forall i :: 0 <= i < |cells| ==> PlainCell(cells[i])
  }

  /** Splitting a row at every comma: the reading counterpart of `Join`. */
  function SplitCells(s: seq<char>): (r: seq<seq<char>>)
    ensures |r| >= 1
    decreases |s|
  {
    if s == [] then [[]]
    else if s[0] == ',' then [[]] + SplitCells(s[1..])
    else
      var r := SplitCells(s[1..]);
      [[s[0]] + r[0]] + r[1..]
  }

  // ---------------------------------------------------------------------------------------------
  // Lemmas

  lemma {:induction false} JoinSnoc(cells: seq<seq<char>>, c: seq<char>)
    requires |cells| > 0
    ensures Join(cells + [c]) == Join(cells) + ([','] + c)
    decreases |cells|
  {
    if |cells| == 1 {
      assert (cells + [c])[1..] == [c];
    } else {
      assert (cells + [c])[1..] == cells[1..] + [c];
      JoinSnoc(cells[1..], c);
    }
  }

  lemma {:induction false} JoinAppend(a: seq<seq<char>>, b: seq<seq<char>>)
    requires |a| > 0 && |b| > 0
    ensures Join(a + b) == Join(a) + ([','] + Join(b))
    decreases |a|
  {
    if |a| == 1 {
      assert (a + b)[1..] == b;
    } else {
      assert (a + b)[1..] == a[1..] + b;
      JoinAppend(a[1..], b);
    }
  }

  lemma {:induction false} LinesAppend(a: seq<seq<char>>, b: seq<seq<char>>)
    ensures Lines(a + b) == Lines(a) + Lines(b)
    decreases |a|
  {
    if a == [] {
      assert a + b == b;
    } else {
      assert (a + b)[1..] == a[1..] + b;
      LinesAppend(a[1..], b);
    }
  }

  lemma {:induction false} SplitPlain(c: seq<char>)
    requires CommaFree(c)
    ensures SplitCells(c) == [c]
    decreases |c|
  {
    if c != [] {
      SplitPlain(c[1..]);
      assert [c[0]] + c[1..] == c;
    }
  }

  lemma {:induction false} SplitFirst(c: seq<char>, rest: seq<char>)
    requires CommaFree(c)
    ensures SplitCells(c + ([','] + rest)) == [c] + SplitCells(rest)
    decreases |c|
  {
    if c == [] {
      assert c + ([','] + rest) == [','] + rest;
      assert ([','] + rest)[1..] == rest;
    } else {
      assert (c + ([','] + rest))[1..] == c[1..] + ([','] + rest);
      SplitFirst(c[1..], rest);
      assert [c[0]] + c[1..] == c;
    }
  }

  /** Splitting a joined row gives back its cells: one comma between neighbours, none after the
      last cell. */
  lemma {:induction false} SplitJoin(cells: seq<seq<char>>)
    requires |cells| > 0
    requires forall i :: 0 <= i < |cells| ==> CommaFree(cells[i])
    ensures SplitCells(Join(cells)) == cells
    decreases |cells|
  {
    if |cells| == 1 {
      SplitPlain(cells[0]);
    } else {
      SplitFirst(cells[0], Join(cells[1..]));
      SplitJoin(cells[1..]);
    }
  }

  /** Number of commas in a text. */
  function CommaCount(s: seq<char>): nat
  {
    if s == [] then 0 else (if s[0] == ',' then 1 else 0) + CommaCount(s[1..])
  }

  lemma {:induction false} CommaCountAppend(a: seq<char>, b: seq<char>)
    ensures CommaCount(a + b) == CommaCount(a) + CommaCount(b)
    decreases |a|
  {
    if a == [] {
      assert a + b == b;
    } else {
      assert (a + b)[1..] == a[1..] + b;
      CommaCountAppend(a[1..], b);
    }
  }

  lemma {:induction false} CommaCountFree(c: seq<char>)
    requires CommaFree(c)
    ensures CommaCount(c) == 0
    decreases |c|
  {
    if c != [] {
      CommaCountFree(c[1..]);
    }
  }

  /** A joined row of n comma-free cells holds exactly n - 1 commas. */
  lemma {:induction false} JoinCommas(cells: seq<seq<char>>)
    requires |cells| > 0
    requires forall i :: 0 <= i < |cells| ==> CommaFree(cells[i])
    ensures CommaCount(Join(cells)) == |cells| - 1
    decreases |cells|
  {
    CommaCountFree(cells[0]);
    if |cells| > 1 {
      JoinCommas(cells[1..]);
      CommaCountAppend([','], Join(cells[1..]));
      CommaCountAppend(cells[0], [','] + Join(cells[1..]));
    }
  }

  /** Printed numbers never hold a comma or a newline. */
  lemma FormattedCellsPlain(ds: seq<Decimal>)
    requires forall i :: 0 <= i < |ds| ==> WellFormed(ds[i])
    ensures PlainCells(Cells(ds))
  {
    forall i | 0 <= i < |ds|
      ensures PlainCell(Cells(ds)[i])
    {
      FormatShape(ds[i]);
    }
  }

  lemma CellsAppend(a: seq<Decimal>, b: seq<Decimal>)
    ensures Cells(a + b) == Cells(a) + Cells(b)
  {
  }
}
