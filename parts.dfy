/** Part addressing: the `Parts` enumeration, its wire ids (`Part_to_ID` / `ID_To_Part`), the per-kind
    instance counts of `VehicleInfo`, and the fixed topology order in which bodies are listed. */
module Parts {
  import opened Wrappers
  import opened Numerals

  /** The eleven body kinds, in declaration order. */
  datatype Part =
    | Chassis
    | TrackShoeLeft | TrackShoeRight
    | SprocketLeft | SprocketRight
    | IdlerLeft | IdlerRight
    | RollerLeft | RollerRight
    | RoadWheelLeft | RoadWheelRight

  /** The enumerators in declaration order. */
  const AllParts: seq<Part> := [Chassis, TrackShoeLeft, TrackShoeRight, SprocketLeft, SprocketRight,
                                IdlerLeft, IdlerRight, RollerLeft, RollerRight, RoadWheelLeft, RoadWheelRight]

  /** The underlying value of an enumerator (its declaration position). */
  function Ordinal(p: Part): nat
  {
    match p
    case Chassis => 0
    case TrackShoeLeft => 1
    case TrackShoeRight => 2
    case SprocketLeft => 3
    case SprocketRight => 4
    case IdlerLeft => 5
    case IdlerRight => 6
    case RollerLeft => 7
    case RollerRight => 8
    case RoadWheelLeft => 9
    case RoadWheelRight => 10
  }

  /** The value `static_cast<Parts>(code)` produces, when it is one of the named enumerators. A
      `Parts` value in the program is modelled by its underlying `int` code; codes outside 0..10 are
      the unnamed values that reach the `default:` branches. */
  function FromCode(code: int): (r: Option<Part>)
    ensures r.Some? <==> 0 <= code <= 10
    ensures r.Some? ==> Ordinal(r.value) == code
  {
    if code == 0 then Some(Chassis)
    else if code == 1 then Some(TrackShoeLeft)
    else if code == 2 then Some(TrackShoeRight)
    else if code == 3 then Some(SprocketLeft)
    else if code == 4 then Some(SprocketRight)
    else if code == 5 then Some(IdlerLeft)
    else if code == 6 then Some(IdlerRight)
    else if code == 7 then Some(RollerLeft)
    else if code == 8 then Some(RollerRight)
    else if code == 9 then Some(RoadWheelLeft)
    else if code == 10 then Some(RoadWheelRight)
    else None
  }

  /** `Part_to_ID` on a named enumerator: the general id written in the first cell of every row. */
  function PartToId(p: Part): int
  {
    match p
    case Chassis => 0
    case TrackShoeLeft => 1
    case TrackShoeRight => 2
    case SprocketLeft => 3
    case SprocketRight => 4
    case IdlerLeft => 5
    case IdlerRight => 6
    case RollerLeft => 7
    case RollerRight => 8
    case RoadWheelLeft => 9
    case RoadWheelRight => 10
  }

  /** `Part_to_ID` on any `Parts` value: an unnamed value falls to `default:` and yields -1. */
  function PartIdOfCode(code: int): (id: int)
    ensures -1 <= id <= 10
  {
    match FromCode(code)
    case Some(p) => PartToId(p)
    case None => -1
  }

  /** `ID_To_Part`: truncate the parsed cell to `int` and cast; the result is a `Parts` code. */
  function IdToPart(id: Decimal): int
  {
    Truncate(id)
  }

  /** The general ids are exactly the enumerator values, and distinct parts get distinct ids. */
  lemma PartIdIsOrdinal(p: Part, q: Part)
    ensures PartToId(p) == Ordinal(p) && 0 <= PartToId(p) <= 10
    ensures PartToId(p) == PartToId(q) <==> p == q
  {
  }

  /** `ID_To_Part(Part_to_ID(p)) == p`, through the text the writer prints for the id. */
  lemma {:induction false} IdRoundTrip(p: Part)
    ensures FromCode(IdToPart(FromInt(PartToId(p)))) == Some(p)
    ensures PartIdOfCode(IdToPart(FromInt(PartToId(p)))) == PartToId(p)
  {
    PartIdIsOrdinal(p, p);
    var i := PartToId(p);
    assert IdToPart(FromInt(i)) == i;
    match p
    case Chassis =>
    case TrackShoeLeft =>
    case TrackShoeRight =>
    case SprocketLeft =>
    case SprocketRight =>
    case IdlerLeft =>
    case IdlerRight =>
    case RollerLeft =>
    case RollerRight =>
    case RoadWheelLeft =>
    case RoadWheelRight =>
  }

  /** A code names a part exactly when it is that part's general id. */
  lemma CodeNamesPart(code: int, p: Part)
    ensures FromCode(code) == Some(p) <==> code == PartToId(p)
  {
    PartIdIsOrdinal(p, p);
    if code == PartToId(p) {
      match p
      case Chassis =>
      case TrackShoeLeft =>
      case TrackShoeRight =>
      case SprocketLeft =>
      case SprocketRight =>
      case IdlerLeft =>
      case IdlerRight =>
      case RollerLeft =>
      case RollerRight =>
      case RoadWheelLeft =>
      case RoadWheelRight =>
    }
  }

  // ---------------------------------------------------------------------------------------------
  // Instances

  /** The per-kind instance counts the creator reads from the vehicle, plus its mass. */
  datatype VehicleInfo = VehicleInfo(
    leftShoes: nat, rightShoes: nat,
    leftRollers: nat, rightRollers: nat,
    leftRoadWheels: nat, rightRoadWheels: nat,
    mass: real)

  /** Kinds with exactly one body, which ignore the instance id. */
  predicate IsSingleton(p: Part)
  {
    p.Chassis? || p.SprocketLeft? || p.SprocketRight? || p.IdlerLeft? || p.IdlerRight?
  }

  /** Number of bodies of a kind. */
  function Count(info: VehicleInfo, p: Part): (n: nat)
    ensures IsSingleton(p) ==> n == 1
  {
    match p
    case TrackShoeLeft => info.leftShoes
    case TrackShoeRight => info.rightShoes
    case RollerLeft => info.leftRollers
    case RollerRight => info.rightRollers
    case RoadWheelLeft => info.leftRoadWheels
    case RoadWheelRight => info.rightRoadWheels
    case _ => 1
  }

  /** A body: its kind and its instance index within the kind. */
  datatype BodyId = BodyId(part: Part, index: int)

  /** The body exists on a vehicle with these counts. */
  predicate Exists(info: VehicleInfo, b: BodyId)
  {
    0 <= b.index < Count(info, b.part)
  }

  /** The bodies of one kind, instance 0 first. */
  function Instances(info: VehicleInfo, p: Part): (r: seq<BodyId>)
    ensures |r| == Count(info, p)
    ensures forall i :: 0 <= i < |r| ==> r[i] == BodyId(p, i)
  {
    seq(Count(info, p), i => BodyId(p, i))
  }

  /** The bodies of the given kinds, kind by kind. */
  function BodiesOf(info: VehicleInfo, parts: seq<Part>): seq<BodyId>
  {
    if parts == [] then [] else Instances(info, parts[0]) + BodiesOf(info, parts[1..])
  }

  /** Every body of the vehicle in topology order: chassis; left then right track shoes; left then
      right sprocket; left then right idler; left then right rollers; left then right road wheels. */
  function Topology(info: VehicleInfo): seq<BodyId>
  {
    BodiesOf(info, AllParts)
  }

  /** Row order: kinds in enumeration order, then instance indices increasing. */
  predicate Precedes(a: BodyId, b: BodyId)
  {
    Ordinal(a.part) < Ordinal(b.part) || (a.part == b.part && a.index < b.index)
  }

  predicate Ordered(bs: seq<BodyId>)
  {
    forall i, j :: 0 <= i < j < |bs| ==> Precedes(bs[i], bs[j])
  }

  predicate KindsAscending(parts: seq<Part>)
  {
    forall i, j :: 0 <= i < j < |parts| ==> Ordinal(parts[i]) < Ordinal(parts[j])
  }

  lemma {:induction false} BodiesOfMembers(info: VehicleInfo, parts: seq<Part>, b: BodyId)
    ensures b in BodiesOf(info, parts) <==> b.part in parts && Exists(info, b)
    decreases |parts|
  {
    if parts != [] {
      BodiesOfMembers(info, parts[1..], b);
      assert parts == [parts[0]] + parts[1..];
      if b.part == parts[0] && Exists(info, b) {
        assert Instances(info, parts[0])[b.index] == b;
      }
    }
  }

  lemma {:induction false} BodiesOfOrdered(info: VehicleInfo, parts: seq<Part>)
    requires KindsAscending(parts)
    ensures Ordered(BodiesOf(info, parts))
    ensures forall k :: 0 <= k < |BodiesOf(info, parts)| ==> BodiesOf(info, parts)[k].part in parts
    decreases |parts|
  {
    if parts != [] {
      var head := Instances(info, parts[0]);
      var tail := BodiesOf(info, parts[1..]);
      BodiesOfOrdered(info, parts[1..]);
      assert BodiesOf(info, parts) == head + tail;
      forall k | 0 <= k < |tail|
        ensures Ordinal(parts[0]) < Ordinal(tail[k].part)
      {
        var j :| 0 <= j < |parts[1..]| && parts[1..][j] == tail[k].part;
        assert parts[1..][j] == parts[j + 1];
      }
    }
  }

  lemma BodiesOfLength(info: VehicleInfo, parts: seq<Part>)
    ensures |BodiesOf(info, parts)| == CountSum(info, parts)
  {
  }

  function CountSum(info: VehicleInfo, parts: seq<Part>): nat
  {
    if parts == [] then 0 else Count(info, parts[0]) + CountSum(info, parts[1..])
  }

  /** The instance count over the last five kinds. */
  lemma CountSumTail(info: VehicleInfo)
    ensures CountSum(info, AllParts[6..]) == 1 + info.leftRollers + info.rightRollers
                                             + info.leftRoadWheels + info.rightRoadWheels
  {
    assert AllParts[11..] == [];
    assert AllParts[10..][1..] == AllParts[11..];
    assert CountSum(info, AllParts[10..]) == Count(info, RoadWheelRight) + CountSum(info, AllParts[11..]);
    assert AllParts[9..][1..] == AllParts[10..];
    assert CountSum(info, AllParts[9..]) == Count(info, RoadWheelLeft) + CountSum(info, AllParts[10..]);
    assert AllParts[8..][1..] == AllParts[9..];
    assert CountSum(info, AllParts[8..]) == Count(info, RollerRight) + CountSum(info, AllParts[9..]);
    assert AllParts[7..][1..] == AllParts[8..];
    assert CountSum(info, AllParts[7..]) == Count(info, RollerLeft) + CountSum(info, AllParts[8..]);
    assert AllParts[6..][1..] == AllParts[7..];
    assert CountSum(info, AllParts[6..]) == Count(info, IdlerRight) + CountSum(info, AllParts[7..]);
  }

  /** The topology has the 5 singletons plus the six counted kinds. */
  lemma TopologyLength(info: VehicleInfo)
    ensures |Topology(info)| == 5 + info.leftShoes + info.rightShoes + info.leftRollers
                                  + info.rightRollers + info.leftRoadWheels + info.rightRoadWheels
  {
    BodiesOfLength(info, AllParts);
    CountSumTail(info);
    assert AllParts[5..][1..] == AllParts[6..];
    assert CountSum(info, AllParts[5..]) == Count(info, IdlerLeft) + CountSum(info, AllParts[6..]);
    assert AllParts[4..][1..] == AllParts[5..];
    assert CountSum(info, AllParts[4..]) == Count(info, SprocketRight) + CountSum(info, AllParts[5..]);
    assert AllParts[3..][1..] == AllParts[4..];
    assert CountSum(info, AllParts[3..]) == Count(info, SprocketLeft) + CountSum(info, AllParts[4..]);
    assert AllParts[2..][1..] == AllParts[3..];
    assert CountSum(info, AllParts[2..]) == Count(info, TrackShoeRight) + CountSum(info, AllParts[3..]);
    assert AllParts[1..][1..] == AllParts[2..];
    assert CountSum(info, AllParts[1..]) == Count(info, TrackShoeLeft) + CountSum(info, AllParts[2..]);
    assert AllParts[0..][1..] == AllParts[1..];
    assert CountSum(info, AllParts[0..]) == Count(info, Chassis) + CountSum(info, AllParts[1..]);
    assert AllParts[0..] == AllParts;
  }

  /** Every kind is listed, at the position of its ordinal. */
  lemma AllPartsListed()
    ensures forall p :: p in AllParts
    ensures forall i :: 0 <= i < |AllParts| ==> Ordinal(AllParts[i]) == i
  {
    forall p
      ensures p in AllParts
    {
      assert AllParts[Ordinal(p)] == p;
    }
  }

  lemma AllPartsAscending()
    ensures KindsAscending(AllParts)
  {
    AllPartsListed();
  }

  /** The topology lists exactly the bodies that exist, each once, in row order. */
  lemma {:induction false} TopologyShape(info: VehicleInfo)
    ensures forall b :: b in Topology(info) <==> Exists(info, b)
    ensures Ordered(Topology(info))
  {
    AllPartsListed();
    forall b
      ensures b in Topology(info) <==> Exists(info, b)
    {
      BodiesOfMembers(info, AllParts, b);
    }
    AllPartsAscending();
    BodiesOfOrdered(info, AllParts);
  }
}
