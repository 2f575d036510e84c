/** `CSVMaker`: an output file stream that cells, commas and newlines are appended to.
    `CSVWriter` is the same class under another name and is modelled by this one. */
module CsvMakers {
  import opened Numerals
  import opened CsvText
  import opened Records

  /** The text the first `k` of `cells` leave behind when each cell but the last is followed by a
      comma. */
  function CommaPrefix(cells: seq<seq<char>>, k: nat): seq<char>
    requires k <= |cells|
  {
    if k == 0 then []
    else if k == |cells| then Join(cells)
    else Join(cells[..k]) + [',']
  }

  lemma CommaPrefixStep(cells: seq<seq<char>>, k: nat)
    requires k < |cells|
    ensures CommaPrefix(cells, k + 1)
         == CommaPrefix(cells, k) + cells[k] + (if k + 1 < |cells| then [','] else [])
  {
    if k > 0 {
      JoinSnoc(cells[..k], cells[k]);
      assert cells[..k + 1] == cells[..k] + [cells[k]];
    } else {
      assert cells[..1] == [cells[0]];
    }
    if k + 1 == |cells| {
      assert cells[..k + 1] == cells;
    }
  }

  lemma Join3(a: seq<char>, b: seq<char>, c: seq<char>)
    ensures Join([a, b, c]) == a + ([','] + (b + ([','] + c)))
  {
    assert [b, c][1..] == [c];
    assert Join([b, c]) == b + ([','] + c);
    assert [a, b, c][1..] == [b, c];
  }

  lemma Join4(a: seq<char>, b: seq<char>, c: seq<char>, d: seq<char>)
    ensures Join([a, b, c, d]) == a + ([','] + (b + ([','] + (c + ([','] + d)))))
  {
    assert [a, b, c, d][1..] == [b, c, d];
    Join3(b, c, d);
  }

  lemma MatrixCell(m: Matrix33, row: nat, col: nat)
    requires row < 3 && col < 3
    ensures |Cells(MatrixValues(m))| == 9
    ensures Cells(MatrixValues(m))[3 * row + col] == Format(Entry(m, row, col))
  {
  }

  lemma JoinOne(d: Decimal)
    ensures Join(Cells([d])) == Format(d)
  {
  }

  class CsvMaker {
    /** The path the stream was opened on. */
    const fileName: seq<char>
    /** What the file holds. */
    var content: seq<char>
    /** Whether the stream is attached to the file; a write to a closed stream is dropped. */
    var isOpen: bool
    /** Whether the path can be opened for writing (its directory exists). */
    const writable: bool
    /** Whether the file is present on disk. */
    var present: bool

    /** What a write of `s` adds to the file in the current state. */
    function Emit(s: seq<char>): seq<char>
      reads this
    {
      if isOpen then s else []
    }

    /** Opens `fileName` in append mode. When the path is `writable`, text already in the file
        stays and the file is created when it did not exist (`existing` is then empty). Otherwise
        the open fails: there is no file and every later write is dropped. */
    constructor (fileName: seq<char>, writable: bool, existing: seq<char>)
      ensures this.fileName == fileName && this.writable == writable
      ensures isOpen == writable && present == writable
      ensures content == if writable then existing else []
    {
      this.fileName := fileName;
      this.writable := writable;
      content := if writable then existing else [];
      isOpen := writable;
      present := writable;
    }

    /** `NewLine`: exactly one newline character. */
    method NewLine()
      modifies this
      ensures present == old(present)
      ensures isOpen == old(isOpen)
      ensures content == old(content) + Emit("\n")
    {
      content := content + Emit("\n");
    }

    /** `AddComma`: exactly one comma. */
    method AddComma()
      modifies this
      ensures present == old(present)
      ensures isOpen == old(isOpen)
      ensures content == old(content) + Emit(",")
    {
      content := content + Emit(",");
    }

    /** `Add`: the printed value and nothing else (no comma). */
    method Add(word: seq<char>)
      modifies this
      ensures present == old(present)
      ensures isOpen == old(isOpen)
      ensures content == old(content) + Emit(word)
    {
      content := content + Emit(word);
    }

    /** `Close`: detaches the stream; the file keeps its text. */
    method Close()
      modifies this
      ensures present == old(present)
      ensures !isOpen && content == old(content)
    {
      isOpen := false;
    }

    /** The destructor closes the stream only when it is still open. */
    method Destroy()
      modifies this
      ensures present == old(present)
      ensures !isOpen && content == old(content)
    {
      if isOpen {
        Close();
      }
    }

    /** `Clear`: returns the status of `remove`, which is 0 when the file was there and -1 when it
        was not; then closes the stream and reopens the path, which creates an empty file exactly
        when the path is writable. */
    method Clear() returns (status: int)
      modifies this
      ensures status == (if old(present) then 0 else -1)
      ensures content == [] && isOpen == writable && present == writable
    {
      status := if present then 0 else -1;
      present := false;
      content := [];
      isOpen := false;
      isOpen := writable;
      present := writable;
    }

    /** Three cells written one after the other with a comma between neighbours. */
    lemma WritesJoin3(c0: seq<char>, a: seq<char>, b: seq<char>, c: seq<char>)
      ensures c0 + Emit(a) + Emit(",") + Emit(b) + Emit(",") + Emit(c) == c0 + Emit(Join([a, b, c]))
    {
      Join3(a, b, c);
    }

    /** Four cells written one after the other with a comma between neighbours. */
    lemma WritesJoin4(c0: seq<char>, a: seq<char>, b: seq<char>, c: seq<char>, d: seq<char>)
      ensures c0 + Emit(a) + Emit(",") + Emit(b) + Emit(",") + Emit(c) + Emit(",") + Emit(d)
           == c0 + Emit(Join([a, b, c, d]))
    {
      Join4(a, b, c, d);
    }

    /** `AddVector`: the three components x, y, z with a comma between neighbours and none after z. */
    method AddVector(v: Vector)
      modifies this
      ensures present == old(present)
      ensures isOpen == old(isOpen)
      ensures content == old(content) + Emit(Join(Cells(VectorValues(v))))
    {
      var x, y, z := Format(v.x), Format(v.y), Format(v.z);
      Add(x);
      AddComma();
      Add(y);
      AddComma();
      Add(z);
      assert Cells(VectorValues(v)) == [x, y, z];
      WritesJoin3(old(content), x, y, z);
    }

    /** `AddQuaternion`: e0, e1, e2, e3, scalar part first, no comma after e3. */
    method AddQuaternion(q: Quaternion)
      modifies this
      ensures present == old(present)
      ensures isOpen == old(isOpen)
      ensures content == old(content) + Emit(Join(Cells(QuaternionValues(q))))
    {
      var e0, e1, e2, e3 := Format(q.e0), Format(q.e1), Format(q.e2), Format(q.e3);
      Add(e0);
      AddComma();
      Add(e1);
      AddComma();
      Add(e2);
      AddComma();
      Add(e3);
      assert Cells(QuaternionValues(q)) == [e0, e1, e2, e3];
      WritesJoin4(old(content), e0, e1, e2, e3);
    }

    /** Writing cell `k`, then a comma unless it is the last cell, extends the comma-separated
        prefix by one cell. */
    lemma WriteCellStep(c0: seq<char>, cells: seq<seq<char>>, k: nat)
      requires k < |cells|
      ensures k + 1 < |cells| ==>
        c0 + Emit(CommaPrefix(cells, k)) + Emit(cells[k]) + Emit(",") == c0 + Emit(CommaPrefix(cells, k + 1))
      ensures k + 1 == |cells| ==>
        c0 + Emit(CommaPrefix(cells, k)) + Emit(cells[k]) == c0 + Emit(CommaPrefix(cells, k + 1))
    {
      CommaPrefixStep(cells, k);
      var p := CommaPrefix(cells, k);
      if !isOpen {
        assert c0 + [] + [] + [] == c0 + [] + [] == c0 + [];
      } else if k + 1 < |cells| {
        assert c0 + p + cells[k] + [','] == c0 + (p + cells[k] + [',']);
      } else {
        assert c0 + p + cells[k] == c0 + (p + cells[k] + []);
      }
    }

    /** `AddMatrix`: the nine entries row by row, a comma after every entry except (2,2). */
    method AddMatrix(m: Matrix33)
      modifies this
      ensures present == old(present)
      ensures isOpen == old(isOpen)
      ensures content == old(content) + Emit(Join(Cells(MatrixValues(m))))
    {
      ghost var cells := Cells(MatrixValues(m));
      var row := 0;
      while row < 3
        invariant present == old(present)
        invariant 0 <= row <= 3
        invariant isOpen == old(isOpen)
        invariant content == old(content) + Emit(CommaPrefix(cells, 3 * row))
      {
        var col := 0;
        while col < 3
          invariant present == old(present)
          invariant 0 <= col <= 3
          invariant isOpen == old(isOpen)
          invariant content == old(content) + Emit(CommaPrefix(cells, 3 * row + col))
        {
          ghost var k := 3 * row + col;
          var cell := Format(Entry(m, row, col));
          MatrixCell(m, row, col);
          WriteCellStep(old(content), cells, k);
          Add(cell);
          if row != 2 || col != 2 {
            AddComma();
          }
          col := col + 1;
        }
        row := row + 1;
      }
    }

    /** Appending a comma and a further run of numbers to a run already written gives the run of
        all the numbers. */
    lemma WriteMore(c0: seq<char>, done: seq<Decimal>, more: seq<Decimal>)
      requires |done| > 0 && |more| > 0
      ensures c0 + Emit(Join(Cells(done))) + Emit(",") + Emit(Join(Cells(more)))
           == c0 + Emit(Join(Cells(done + more)))
    {
      CellsAppend(done, more);
      JoinAppend(Cells(done), Cells(more));
    }

    /** `BodyToCSV`: one light row without its newline: general id, instance id, position and
        rotation matrix. */
    method BodyToCSV(genId: int, specId: int, s: BodyState)
      modifies this
      ensures present == old(present)
      ensures isOpen == old(isOpen)
      ensures content == old(content) + Emit(Join(Cells(LightValues(genId, specId, s))))
    {
      ghost var c0 := content;
      var g, i := FromInt(genId), FromInt(specId);
      Add(Format(g));
      JoinOne(g);
      AddComma();
      Add(Format(i));
      JoinOne(i);
      WriteMore(c0, [g], [i]);
      assert [g] + [i] == [g, i];
      AddComma();
      AddVector(s.pos);
      WriteMore(c0, [g, i], VectorValues(s.pos));
      AddComma();
      AddMatrix(s.rotMatrix);
      WriteMore(c0, [g, i] + VectorValues(s.pos), MatrixValues(s.rotMatrix));
    }

    /** `SaveBodyData`: one full row without its newline: ids, position, orientation, their first
        and second derivatives, accumulated force and torque. */
    method SaveBodyData(genId: int, specId: int, s: BodyState)
      modifies this
      ensures present == old(present)
      ensures isOpen == old(isOpen)
      ensures content == old(content) + Emit(Join(Cells(FullValues(genId, specId, s))))
    {
      ghost var c0 := content;
      var g, i := FromInt(genId), FromInt(specId);
      Add(Format(g));
      JoinOne(g);
      AddComma();
      Add(Format(i));
      JoinOne(i);
      WriteMore(c0, [g], [i]);
      assert [g] + [i] == [g, i];
      ghost var done: seq<Decimal> := [g, i];
      AddComma();
      AddVector(s.pos);
      WriteMore(c0, done, VectorValues(s.pos));
      done := done + VectorValues(s.pos);
      AddComma();
      AddQuaternion(s.rot);
      WriteMore(c0, done, QuaternionValues(s.rot));
      done := done + QuaternionValues(s.rot);
      AddComma();
      AddVector(s.vel);
      WriteMore(c0, done, VectorValues(s.vel));
      done := done + VectorValues(s.vel);
      AddComma();
      AddQuaternion(s.rotDt);
      WriteMore(c0, done, QuaternionValues(s.rotDt));
      done := done + QuaternionValues(s.rotDt);
      AddComma();
      AddVector(s.acc);
      WriteMore(c0, done, VectorValues(s.acc));
      done := done + VectorValues(s.acc);
      AddComma();
      AddQuaternion(s.rotDtDt);
      WriteMore(c0, done, QuaternionValues(s.rotDtDt));
      done := done + QuaternionValues(s.rotDtDt);
      AddComma();
      AddVector(s.force);
      WriteMore(c0, done, VectorValues(s.force));
      done := done + VectorValues(s.force);
      AddComma();
      AddVector(s.torque);
      WriteMore(c0, done, VectorValues(s.torque));
      done := done + VectorValues(s.torque);
      assert done == FullValues(genId, specId, s);
    }
  }
}
