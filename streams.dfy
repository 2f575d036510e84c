/** The input file stream under `CSVReader`: the unread text of the file and the `eofbit` /
    `failbit` state flags, with `std::getline`, `open` and `close` as the C++11 library defines
    them. The file system is not modelled: opening takes the file's text when it exists (`Some`)
    and `None` when it does not. */
module Streams {
  import opened Wrappers

  /** `isOpen`: a file is attached. `rest`: what is still unread (empty when no file is attached).
      `eof`/`fail`: the stream state flags (`badbit` never arises here). */
  datatype Stream = Stream(isOpen: bool, rest: seq<char>, eof: bool, fail: bool)

  /** A default-constructed `std::ifstream`: no file, every flag clear. */
  const Unopened := Stream(false, [], false, false)

  /** `good()`: neither flag set. */
  predicate Good(s: Stream)
  {
    !s.eof && !s.fail
  }

  /** A stream with no file attached has nothing to read. */
  predicate Coherent(s: Stream)
  {
    !s.isOpen ==> s.rest == []
  }

  /** `open(filename, ios::in)`: fails (sets `failbit`) when a file is already attached or the
      file cannot be opened; on success the flags are cleared and the whole file is unread. */
  function OpenStream(s: Stream, file: Option<seq<char>>): (r: Stream)
    ensures !s.isOpen && file.Some? ==> r == Stream(true, file.value, false, false)
    ensures s.isOpen || file.None? ==> r == s.(fail := true)
    ensures Coherent(s) ==> Coherent(r)
  {
    if s.isOpen || file.None? then s.(fail := true) else Stream(true, file.value, false, false)
  }

  /** `close()`: detaches the file; fails (sets `failbit`) when none was attached. The flags are
      otherwise kept: C++11 `close` does not clear them. */
  function CloseStream(s: Stream): (r: Stream)
    ensures !r.isOpen && (Coherent(s) ==> Coherent(r))
    ensures r.eof == s.eof && (r.fail <==> s.fail || !s.isOpen)
  {
    if s.isOpen then Stream(false, [], s.eof, s.fail) else s.(fail := true)
  }

  /** The text before the first newline, the text after it, and whether there was one. */
  function SplitLine(s: seq<char>): (r: (seq<char>, seq<char>, bool))
    ensures '\n' !in r.0
    ensures r.2 ==> s == r.0 + ['\n'] + r.1
    ensures !r.2 ==> s == r.0 && r.1 == []
  {
    if s == [] then ([], [], false)
    else if s[0] == '\n' then ([], s[1..], true)
    else
      var (line, after, found) := SplitLine(s[1..]);
      ([s[0]] + line, after, found)
  }

  /** `std::getline(stream, row)`.
      - A stream that is not `good()` only gains `failbit`; `row` keeps its old text.
      - Otherwise `row` is erased and receives the characters up to the next newline, which is
        consumed and not stored.
      - Reaching the end of the text sets `eofbit`; extracting nothing at all sets `failbit` too. */
  function Getline(s: Stream, row: seq<char>): (r: (Stream, seq<char>))
    ensures '\n' !in r.1 || r.1 == row
    ensures !Good(s) ==> r == (s.(fail := true), row)
    ensures r.0.isOpen == s.isOpen && |r.0.rest| <= |s.rest|
    ensures Coherent(s) ==> Coherent(r.0)
  {
    if !Good(s) then (s.(fail := true), row)
    else
      var (line, after, found) := SplitLine(s.rest);
      if found then (s.(rest := after), line)
      else (s.(rest := [], eof := true, fail := line == []), line)
  }

  // ---------------------------------------------------------------------------------------------
  // Lemmas

  /** Splitting a line that ends in a newline gives the line and what follows. */
  lemma {:induction false} SplitLineOf(line: seq<char>, after: seq<char>)
    requires '\n' !in line
    ensures SplitLine(line + ['\n'] + after) == (line, after, true)
    decreases |line|
  {
    if line == [] {
      assert line + ['\n'] + after == ['\n'] + after;
    } else {
      assert (line + ['\n'] + after)[1..] == line[1..] + ['\n'] + after;
      SplitLineOf(line[1..], after);
      assert [line[0]] + line[1..] == line;
    }
  }

  /** A text without a newline is one unterminated line. */
  lemma {:induction false} SplitLineLast(line: seq<char>)
    requires '\n' !in line
    ensures SplitLine(line) == (line, [], false)
    decreases |line|
  {
    if line != [] {
      SplitLineLast(line[1..]);
      assert [line[0]] + line[1..] == line;
    }
  }

  /** A good stream positioned before `line` and a newline delivers exactly `line` and stays
      good, positioned after the newline. */
  lemma GetlineLine(s: Stream, row: seq<char>, line: seq<char>, after: seq<char>)
    requires Good(s) && s.rest == line + ['\n'] + after && '\n' !in line
    ensures Getline(s, row) == (s.(rest := after), line)
  {
    SplitLineOf(line, after);
  }

  /** A good stream with nothing left delivers the empty row and sets both flags. */
  lemma GetlineAtEnd(s: Stream, row: seq<char>)
    requires Good(s) && s.rest == []
    ensures Getline(s, row) == (s.(eof := true, fail := true), [])
  {
  }

  /** A last line with no newline after it is delivered, and the stream is left at its end with
      `eofbit` set, no longer good. */
  lemma GetlineUnterminated(s: Stream, row: seq<char>, line: seq<char>)
    requires Good(s) && s.rest == line && line != [] && '\n' !in line
    ensures Getline(s, row) == (s.(rest := [], eof := true), line)
  {
    SplitLineLast(line);
  }
}
