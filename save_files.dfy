/** The writers of the save and export files, as the creator and the simulator run them on a
    `CSVMaker`: the header row, the body rows kind by kind, the label row of an export file and
    its light rows. Each method states the text it appends in terms of the file layouts. */
module SaveFiles {
  import opened Numerals
  import opened CsvText
  import opened Records
  import opened Parts
  import opened Timing
  import opened RowLoops
  import opened CsvMakers
  import opened Checkpoint

  // ---------------------------------------------------------------------------------------------
  // Text lemmas

  /** A run of printed numbers and one more number. */
  lemma JoinCellsSnoc(ds: seq<Decimal>, d: Decimal)
    requires |ds| > 0
    ensures Join(Cells(ds + [d])) == Join(Cells(ds)) + ([','] + Format(d))
  {
    CellsAppend(ds, [d]);
    assert Cells([d]) == [Format(d)];
    JoinSnoc(Cells(ds), Format(d));
  }

  /** A run of printed numbers and a further run. */
  lemma JoinCellsAppend(ds: seq<Decimal>, more: seq<Decimal>)
    requires |ds| > 0 && |more| > 0
    ensures Join(Cells(ds + more)) == Join(Cells(ds)) + ([','] + Join(Cells(more)))
  {
    CellsAppend(ds, more);
    JoinAppend(Cells(ds), Cells(more));
  }

  /** The header row cut at its three text cells. */
  lemma HeaderRowText(h: Header)
    ensures HeaderRow(h) == h.master + ([','] + (h.powertrain + ([','] + (MethodText(h.contact) + ([','] + Join(Cells(HeaderNumbers(h))))))))
  {
    ThreeThenNumbers(h.master, h.powertrain, MethodText(h.contact), HeaderNumbers(h));
  }

  /** The numbers of a header are its time, six flags, position, orientation and speed. */
  lemma HeaderNumbersSplit(h: Header)
    requires |h.dof| == 6
    ensures var ns := HeaderNumbers(h);
      && ns[..7] == [TimeNumeral(h.time)] + FlagValues(h.dof)
      && ns[..7] + VectorValues(h.pos) == ns[..10]
      && ns[..10] + QuaternionValues(h.rot) == ns[..14]
      && ns[..14] + [h.speed] == ns
  {
    HeaderNumbersAt(h);
  }

  /** The text of the rows of some bodies and one body more. */
  lemma BodyRowsSnoc(bs: seq<BodyId>, b: BodyId, bodies: BodyId -> BodyState)
    ensures Lines(Texts(BodyRows(bs + [b], bodies)))
         == Lines(Texts(BodyRows(bs, bodies))) + (RowText(FullValues(PartToId(b.part), b.index, bodies(b))) + ['\n'])
  {
    var row := FullValues(PartToId(b.part), b.index, bodies(b));
    BodyRowsAppend(bs, [b], bodies);
    assert Lines(Texts(BodyRows([b], bodies))) == RowText(row) + ['\n'] by {
      assert Texts(BodyRows([b], bodies)) == [RowText(row)];
      assert [RowText(row)][1..] == [];
    }
  }

  /** The text of the rows of two runs of bodies. */
  lemma BodyRowsAppend(a: seq<BodyId>, b: seq<BodyId>, bodies: BodyId -> BodyState)
    ensures Lines(Texts(BodyRows(a + b, bodies))) == Lines(Texts(BodyRows(a, bodies))) + Lines(Texts(BodyRows(b, bodies)))
  {
    assert Texts(BodyRows(a + b, bodies)) == Texts(BodyRows(a, bodies)) + Texts(BodyRows(b, bodies));
    LinesAppend(Texts(BodyRows(a, bodies)), Texts(BodyRows(b, bodies)));
  }

  /** The same two lemmas for light rows. */
  lemma LightRowsSnoc(bs: seq<BodyId>, b: BodyId, bodies: BodyId -> BodyState)
    ensures Lines(Texts(LightRows(bs + [b], bodies)))
         == Lines(Texts(LightRows(bs, bodies))) + (RowText(LightValues(PartToId(b.part), b.index, bodies(b))) + ['\n'])
  {
    var row := LightValues(PartToId(b.part), b.index, bodies(b));
    LightRowsAppend(bs, [b], bodies);
    assert Lines(Texts(LightRows([b], bodies))) == RowText(row) + ['\n'] by {
      assert Texts(LightRows([b], bodies)) == [RowText(row)];
      assert [RowText(row)][1..] == [];
    }
  }

  lemma LightRowsAppend(a: seq<BodyId>, b: seq<BodyId>, bodies: BodyId -> BodyState)
    ensures Lines(Texts(LightRows(a + b, bodies))) == Lines(Texts(LightRows(a, bodies))) + Lines(Texts(LightRows(b, bodies)))
  {
    assert Texts(LightRows(a + b, bodies)) == Texts(LightRows(a, bodies)) + Texts(LightRows(b, bodies));
    LinesAppend(Texts(LightRows(a, bodies)), Texts(LightRows(b, bodies)));
  }

  /** Listing one kind more lists its instances after the others. */
  lemma {:induction false} BodiesOfSnoc(info: VehicleInfo, parts: seq<Part>, p: Part)
    ensures BodiesOf(info, parts + [p]) == BodiesOf(info, parts) + Instances(info, p)
    decreases |parts|
  {
    if parts == [] {
      assert ([p])[1..] == [];
    } else {
      assert (parts + [p])[1..] == parts[1..] + [p];
      BodiesOfSnoc(info, parts[1..], p);
    }
  }

  // ---------------------------------------------------------------------------------------------
  // Writers

  /** Text written after text already written. */
  lemma Appended(t: seq<char>, a: seq<char>, b: seq<char>, c: seq<char>)
    ensures t + a + b + c == t + (a + (b + c))
  {
  }

  /** The three text cells of the header row, each followed by its comma. */
  method WriteNames(csv: CsvMaker, h: Header)
    requires csv.isOpen
    modifies csv
    ensures csv.present == old(csv.present)
    ensures csv.isOpen
    ensures csv.content == old(csv.content) + (h.master + ([','] + (h.powertrain + ([','] + (MethodText(h.contact) + [','])))))
  {
    ghost var c0 := csv.content;
    csv.Add(h.master);
    csv.AddComma();
    csv.Add(h.powertrain);
    csv.AddComma();
    csv.Add(MethodText(h.contact));
    csv.AddComma();
  }

  /** The flags of a first `d + 1` entries are those of the first `d` and one more. */
  lemma FlagStep(flags: seq<bool>, d: nat)
    requires d < |flags|
    ensures FlagValues(flags[..d + 1]) == FlagValues(flags[..d]) + [FromBool(flags[d])]
  {
  }

  /** A printed run of numbers, a comma, a further number and a comma. */
  lemma NumberStep(c0: seq<char>, done: seq<Decimal>, d: Decimal)
    requires |done| > 0
    ensures c0 + Join(Cells(done)) + [','] + Format(d) + [','] == c0 + Join(Cells(done + [d])) + [',']
  {
    JoinCellsSnoc(done, d);
    CellThenComma(c0, Join(Cells(done)), Format(d));
  }

  /** Text, a comma, a cell and a comma. */
  lemma CellThenComma(c0: seq<char>, j: seq<char>, f: seq<char>)
    ensures c0 + j + [','] + f + [','] == c0 + (j + ([','] + f)) + [',']
  {
  }

  /** The time and the six flags of the header row, each followed by its comma. */
  method WriteTimeAndFlags(csv: CsvMaker, h: Header)
    requires csv.isOpen && |h.dof| == 6
    modifies csv
    ensures csv.present == old(csv.present)
    ensures csv.isOpen && csv.content == old(csv.content) + Join(Cells([TimeNumeral(h.time)] + FlagValues(h.dof))) + [',']
  {
    ghost var c0 := csv.content;
    var t := TimeNumeral(h.time);
    csv.Add(Format(t));
    csv.AddComma();
    assert [t] + FlagValues(h.dof[..0]) == [t];
    JoinOne(t);
    var degree := 0;
    while degree < 6
      invariant csv.present == old(csv.present)
      invariant 0 <= degree <= 6 && csv.isOpen
      invariant csv.content == c0 + Join(Cells([t] + FlagValues(h.dof[..degree]))) + [',']
    {
      var flag := FromBool(h.dof[degree]);
      NumberStep(c0, [t] + FlagValues(h.dof[..degree]), flag);
      csv.Add(Format(flag));
      csv.AddComma();
      FlagStep(h.dof, degree);
      assert [t] + FlagValues(h.dof[..degree + 1]) == ([t] + FlagValues(h.dof[..degree])) + [flag];
      degree := degree + 1;
    }
    assert h.dof[..6] == h.dof;
  }

  /** The numbers of the header row: time and flags, position, orientation, speed. */
  method WriteHeaderNumbers(csv: CsvMaker, h: Header)
    requires csv.isOpen && |h.dof| == 6
    modifies csv
    ensures csv.present == old(csv.present)
    ensures csv.isOpen && csv.content == old(csv.content) + Join(Cells(HeaderNumbers(h)))
  {
    ghost var c0 := csv.content;
    ghost var ns := HeaderNumbers(h);
    HeaderNumbersSplit(h);
    WriteTimeAndFlags(csv, h);
    csv.AddVector(h.pos);
    JoinCellsAppend(ns[..7], VectorValues(h.pos));
    Appended(c0, Join(Cells(ns[..7])), [','], Join(Cells(VectorValues(h.pos))));
    csv.AddComma();
    csv.AddQuaternion(h.rot);
    JoinCellsAppend(ns[..10], QuaternionValues(h.rot));
    Appended(c0, Join(Cells(ns[..10])), [','], Join(Cells(QuaternionValues(h.rot))));
    csv.AddComma();
    csv.Add(Format(h.speed));
    JoinCellsSnoc(ns[..14], h.speed);
    Appended(c0, Join(Cells(ns[..14])), [','], Format(h.speed));
  }

  /** The header row of a save file and its newline: the two file names, the contact method, the
      time, the six flags (written as 1 or 0, each followed by a comma), the position, the
      orientation and the chassis speed. */
  method WriteHeader(csv: CsvMaker, h: Header)
    requires csv.isOpen && |h.dof| == 6
    modifies csv
    ensures csv.present == old(csv.present)
    ensures csv.isOpen && csv.content == old(csv.content) + HeaderRow(h) + ['\n']
  {
    ghost var c0 := csv.content;
    WriteNames(csv, h);
    WriteHeaderNumbers(csv, h);
    csv.NewLine();
    HeaderRowText(h);
    NamesThen(c0, h.master, h.powertrain, MethodText(h.contact), Join(Cells(HeaderNumbers(h))));
  }

  /** The three text cells with their commas, then the numbers, then a newline. */
  lemma NamesThen(c0: seq<char>, a: seq<char>, b: seq<char>, c: seq<char>, j: seq<char>)
    ensures c0 + (a + ([','] + (b + ([','] + (c + [',']))))) + j + ['\n']
         == c0 + (a + ([','] + (b + ([','] + (c + ([','] + j)))))) + ['\n']
  {
  }

  /** Text, a further line and its newline. */
  lemma LineThen(c0: seq<char>, l: seq<char>, line: seq<char>)
    ensures c0 + l + line == c0 + (l + line)
  {
  }

  /** One body's row and its newline, as each instance of a `SaveData` block writes it. */
  method WriteBodyRow(csv: CsvMaker, b: BodyId, bodies: BodyId -> BodyState)
    requires csv.isOpen
    modifies csv
    ensures csv.present == old(csv.present)
    ensures csv.isOpen
    ensures csv.content == old(csv.content) + (RowText(FullValues(PartToId(b.part), b.index, bodies(b))) + ['\n'])
  {
    csv.SaveBodyData(PartToId(b.part), b.index, bodies(b));
    csv.NewLine();
  }

  /** The rows of a one-body kind are the row of its instance 0. */
  lemma SingletonRows(info: VehicleInfo, p: Part, bodies: BodyId -> BodyState)
    requires IsSingleton(p)
    ensures Lines(Texts(BodyRows(Instances(info, p), bodies)))
         == RowText(FullValues(PartToId(p), 0, bodies(BodyId(p, 0)))) + ['\n']
  {
    assert Instances(info, p) == [] + [BodyId(p, 0)];
    BodyRowsSnoc([], BodyId(p, 0), bodies);
  }

  /** The rows of one more instance. */
  lemma InstanceStep(c0: seq<char>, info: VehicleInfo, p: Part, k: nat, bodies: BodyId -> BodyState)
    requires k < Count(info, p)
    ensures c0 + Lines(Texts(BodyRows(Instances(info, p)[..k], bodies)))
              + (RowText(FullValues(PartToId(p), k, bodies(BodyId(p, k)))) + ['\n'])
         == c0 + Lines(Texts(BodyRows(Instances(info, p)[..k + 1], bodies)))
  {
    var all := Instances(info, p);
    assert all[..k + 1] == all[..k] + [BodyId(p, k)];
    BodyRowsSnoc(all[..k], BodyId(p, k), bodies);
    LineThen(c0, Lines(Texts(BodyRows(all[..k], bodies))), RowText(FullValues(PartToId(p), k, bodies(BodyId(p, k)))) + ['\n']);
  }

  /** The rows of one kind, as one block of `SaveData` writes them: a one-body kind its one body
      as instance 0, the other kinds every instance from 0 up to the count; each row is followed
      by its newline. */
  method WriteKindRows(csv: CsvMaker, info: VehicleInfo, p: Part, bodies: BodyId -> BodyState)
    requires csv.isOpen
    modifies csv
    ensures csv.present == old(csv.present)
    ensures csv.isOpen && csv.content == old(csv.content) + Lines(Texts(BodyRows(Instances(info, p), bodies)))
  {
    ghost var c0 := csv.content;
    if IsSingleton(p) {
      WriteBodyRow(csv, BodyId(p, 0), bodies);
      SingletonRows(info, p, bodies);
    } else {
      var specId := 0;
      assert Instances(info, p)[..0] == [];
      while specId < Count(info, p)
        invariant csv.present == old(csv.present)
        invariant 0 <= specId <= Count(info, p) && csv.isOpen
        invariant csv.content == c0 + Lines(Texts(BodyRows(Instances(info, p)[..specId], bodies)))
      {
        WriteBodyRow(csv, BodyId(p, specId), bodies);
        InstanceStep(c0, info, p, specId, bodies);
        specId := specId + 1;
      }
      assert Instances(info, p)[..Count(info, p)] == Instances(info, p);
    }
  }

  /** The rows of the bodies of the first `k` kinds. */
  ghost function KindsWritten(info: VehicleInfo, bodies: BodyId -> BodyState, k: nat): seq<char>
    requires k <= |AllParts|
  {
    Lines(Texts(BodyRows(BodiesOf(info, AllParts[..k]), bodies)))
  }

  /** The rows of one kind more. */
  lemma KindStep(info: VehicleInfo, bodies: BodyId -> BodyState, k: nat)
    requires k < |AllParts|
    ensures KindsWritten(info, bodies, k + 1)
         == KindsWritten(info, bodies, k) + Lines(Texts(BodyRows(Instances(info, AllParts[k]), bodies)))
  {
    assert AllParts[..k + 1] == AllParts[..k] + [AllParts[k]];
    BodiesOfSnoc(info, AllParts[..k], AllParts[k]);
    BodyRowsAppend(BodiesOf(info, AllParts[..k]), Instances(info, AllParts[k]), bodies);
  }

  /** The body rows of a save file, in topology order: the chassis; the left then the right track
      shoes; the left then the right sprocket; the left then the right idler; the left then the
      right rollers; the left then the right road wheels. The source spells out one block per kind
      in this order; here one loop walks the kinds. */
  method WriteBodies(csv: CsvMaker, info: VehicleInfo, bodies: BodyId -> BodyState)
    requires csv.isOpen
    modifies csv
    ensures csv.present == old(csv.present)
    ensures csv.isOpen && csv.content == old(csv.content) + Lines(Texts(BodyRows(Topology(info), bodies)))
  {
    ghost var c0 := csv.content;
    assert AllParts[..0] == [];
    var k := 0;
    while k < |AllParts|
      invariant csv.present == old(csv.present)
      invariant 0 <= k <= |AllParts| && csv.isOpen
      invariant csv.content == c0 + KindsWritten(info, bodies, k)
    {
      ghost var before := KindsWritten(info, bodies, k);
      WriteKindRows(csv, info, AllParts[k], bodies);
      KindStep(info, bodies, k);
      LineThen(c0, before, Lines(Texts(BodyRows(Instances(info, AllParts[k]), bodies))));
      k := k + 1;
    }
    assert AllParts[..|AllParts|] == AllParts;
  }

  /** The label row of an export file without its newline: the fourteen labels, each but the last
      carrying its own comma. The source spells out one `Add` per label; here one loop walks them. */
  method WriteLabels(csv: CsvMaker)
    requires csv.isOpen
    modifies csv
    ensures csv.present == old(csv.present)
    ensures csv.isOpen && csv.content == old(csv.content) + ExportHeader()
  {
    ghost var c0 := csv.content;
    assert ExportLabels[..0] == [];
    var k := 0;
    while k < |ExportLabels|
      invariant csv.present == old(csv.present)
      invariant 0 <= k <= |ExportLabels| && csv.isOpen
      invariant csv.content == c0 + Concat(ExportLabels[..k])
    {
      csv.Add(ExportLabels[k]);
      assert ExportLabels[..k + 1][..k] == ExportLabels[..k];
      LineThen(c0, Concat(ExportLabels[..k]), ExportLabels[k]);
      k := k + 1;
    }
    assert ExportLabels[..|ExportLabels|] == ExportLabels;
  }

  /** One body's light row and its newline, as each instance of an `ExportData` case writes it. */
  method WriteLightRow(csv: CsvMaker, b: BodyId, bodies: BodyId -> BodyState)
    requires csv.isOpen
    modifies csv
    ensures csv.present == old(csv.present)
    ensures csv.isOpen
    ensures csv.content == old(csv.content) + (RowText(LightValues(PartToId(b.part), b.index, bodies(b))) + ['\n'])
  {
    csv.BodyToCSV(PartToId(b.part), b.index, bodies(b));
    csv.NewLine();
  }

  /** The light rows of one more instance. */
  lemma LightInstanceStep(c0: seq<char>, info: VehicleInfo, p: Part, k: nat, bodies: BodyId -> BodyState)
    requires k < Count(info, p)
    ensures c0 + Lines(Texts(LightRows(Instances(info, p)[..k], bodies)))
              + (RowText(LightValues(PartToId(p), k, bodies(BodyId(p, k)))) + ['\n'])
         == c0 + Lines(Texts(LightRows(Instances(info, p)[..k + 1], bodies)))
  {
    var all := Instances(info, p);
    assert all[..k + 1] == all[..k] + [BodyId(p, k)];
    LightRowsSnoc(all[..k], BodyId(p, k), bodies);
    LineThen(c0, Lines(Texts(LightRows(all[..k], bodies))), RowText(LightValues(PartToId(p), k, bodies(BodyId(p, k)))) + ['\n']);
  }

  /** The light rows of one kind, as one case of `ExportData` writes them: a one-body kind its one
      body as instance 0, the other kinds every instance from 0 up to the count. */
  method WriteKindLightRows(csv: CsvMaker, info: VehicleInfo, p: Part, bodies: BodyId -> BodyState)
    requires csv.isOpen
    modifies csv
    ensures csv.present == old(csv.present)
    ensures csv.isOpen && csv.content == old(csv.content) + Lines(Texts(LightRows(Instances(info, p), bodies)))
  {
    ghost var c0 := csv.content;
    var specId := 0;
    var count := if IsSingleton(p) then 1 else Count(info, p);
    assert Instances(info, p)[..0] == [];
    while specId < count
      invariant csv.present == old(csv.present)
      invariant count == Count(info, p)
      invariant 0 <= specId <= count && csv.isOpen
      invariant csv.content == c0 + Lines(Texts(LightRows(Instances(info, p)[..specId], bodies)))
    {
      WriteLightRow(csv, BodyId(p, specId), bodies);
      LightInstanceStep(c0, info, p, specId, bodies);
      specId := specId + 1;
    }
    assert Instances(info, p)[..count] == Instances(info, p);
  }

  /** The light rows of one listed kind more. */
  lemma LightKindStep(info: VehicleInfo, parts: seq<Part>, k: nat, bodies: BodyId -> BodyState)
    requires k < |parts|
    ensures Lines(Texts(LightRows(BodiesOf(info, parts[..k + 1]), bodies)))
         == Lines(Texts(LightRows(BodiesOf(info, parts[..k]), bodies))) + Lines(Texts(LightRows(Instances(info, parts[k]), bodies)))
  {
    assert parts[..k + 1] == parts[..k] + [parts[k]];
    BodiesOfSnoc(info, parts[..k], parts[k]);
    LightRowsAppend(BodiesOf(info, parts[..k]), Instances(info, parts[k]), bodies);
  }

  /** The light rows of the kinds of a part list, kind after kind in list order (a kind listed twice
      is written twice). */
  method WriteLightBodies(csv: CsvMaker, info: VehicleInfo, parts: seq<Part>, bodies: BodyId -> BodyState)
    requires csv.isOpen
    modifies csv
    ensures csv.present == old(csv.present)
    ensures csv.isOpen && csv.content == old(csv.content) + Lines(Texts(LightRows(BodiesOf(info, parts), bodies)))
  {
    ghost var c0 := csv.content;
    assert parts[..0] == [];
    var k := 0;
    while k < |parts|
      invariant csv.present == old(csv.present)
      invariant 0 <= k <= |parts| && csv.isOpen
      invariant csv.content == c0 + Lines(Texts(LightRows(BodiesOf(info, parts[..k]), bodies)))
    {
      ghost var before := Lines(Texts(LightRows(BodiesOf(info, parts[..k]), bodies)));
      WriteKindLightRows(csv, info, parts[k], bodies);
      LightKindStep(info, parts, k, bodies);
      LineThen(c0, before, Lines(Texts(LightRows(Instances(info, parts[k]), bodies))));
      k := k + 1;
    }
    assert parts[..|parts|] == parts;
  }
}
