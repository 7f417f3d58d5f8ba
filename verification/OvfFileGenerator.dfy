/** The test file generator: a contour and hatches of a square on every layer. */
module OvfFileGenerator {
  import opened Wrappers
  import opened OvfModel
  import opened GeometryCompiler

  const SQUARE_SIZE := 20.0
  const HATCH_SPACING := 1.0

  datatype Square = Square(centerX: real, centerY: real, size: real) {
    function XMin(): real { centerX - size / 2.0 }
    function XMax(): real { centerX + size / 2.0 }
    function YMin(): real { centerY - size / 2.0 }
    function YMax(): real { centerY + size / 2.0 }
  }

  /** A square is as wide and as high as its size, around its centre. */
  lemma SquareBounds(sq: Square)
    ensures sq.XMin() + sq.XMax() == 2.0 * sq.centerX && sq.XMax() - sq.XMin() == sq.size
    ensures sq.YMin() + sq.YMax() == 2.0 * sq.centerY && sq.YMax() - sq.YMin() == sq.size
  {
  }

  /** A block as the generator makes it: parameter key 0 and no metadata. */
  function PlainBlock(geometry: Geometry): VectorBlock { VectorBlock(geometry, 0, None) }

  /** How many hatch lines fit. */
  function LineCount(size: real, spacing: real): nat
    requires spacing > 0.0
  {
    if size < 0.0 then 0 else NonNegative((size / spacing).Floor) + 1
  }

  function NonNegative(n: int): nat { if n < 0 then 0 else n }

  /** The height of the i-th hatch line. */
  function LineY(sq: Square, spacing: real, i: nat): real { sq.YMin() + i as real * spacing }

  function HatchLine(sq: Square, spacing: real, i: nat): seq<real> {
    [sq.XMin(), LineY(sq, spacing, i), sq.XMax(), LineY(sq, spacing, i)]
  }

  function HatchPoints(sq: Square, spacing: real, n: nat): (pts: seq<real>)
    ensures |pts| == 4 * n
    ensures forall i :: 0 <= i < n ==> pts[4 * i] == sq.XMin() && pts[4 * i + 1] == LineY(sq, spacing, i)
    ensures forall i :: 0 <= i < n ==> pts[4 * i + 2] == sq.XMax() && pts[4 * i + 3] == LineY(sq, spacing, i)
  {
    if n == 0 then [] else HatchPoints(sq, spacing, n - 1) + HatchLine(sq, spacing, n - 1)
  }

  /** The loop condition, in terms of the line number. */
  lemma LineFits(sq: Square, spacing: real, i: nat)
    requires spacing > 0.0
    ensures LineY(sq, spacing, i) <= sq.YMax() <==> i < LineCount(sq.size, spacing)
  {
    var q := sq.size / spacing;
    assert q * spacing == sq.size;
    assert sq.YMax() - sq.YMin() == sq.size;
    if i as real <= q {
      assert i as real * spacing <= q * spacing;
    } else {
      assert i as real * spacing > q * spacing;
    }
    if sq.size >= 0.0 { assert q >= 0.0; } else { assert q < 0.0; }
  }

  /** Coverage: the lines start at the lower edge, stay inside the square, are one spacing apart, and leave less
      than one spacing to the upper edge. */
  lemma HatchCoverage(sq: Square, spacing: real, i: nat)
    requires spacing > 0.0 && sq.size >= 0.0 && i < LineCount(sq.size, spacing)
    ensures LineY(sq, spacing, 0) == sq.YMin()
    ensures sq.YMin() <= LineY(sq, spacing, i) <= sq.YMax()
    ensures LineY(sq, spacing, i + 1) - LineY(sq, spacing, i) == spacing
    ensures sq.YMax() - LineY(sq, spacing, LineCount(sq.size, spacing) - 1) < spacing
  {
    LineFits(sq, spacing, i);
    LineFits(sq, spacing, LineCount(sq.size, spacing));
    var last := LineCount(sq.size, spacing) - 1;
    assert (last + 1) as real * spacing == last as real * spacing + spacing;
    assert (i + 1) as real * spacing == i as real * spacing + spacing;
    assert i as real * spacing >= 0.0;
  }

  function ContourPoints(sq: Square): seq<real> {
    [sq.XMin(), sq.YMin(), sq.XMax(), sq.YMin(), sq.XMax(), sq.YMax(), sq.XMin(), sq.YMax(), sq.XMin(), sq.YMin()]
  }

  function SquareBlocks(sq: Square, spacing: real): seq<VectorBlock>
    requires spacing > 0.0
  {
    [PlainBlock(LineSequence(ContourPoints(sq))),
     PlainBlock(Hatches(HatchPoints(sq, spacing, LineCount(sq.size, spacing))))]
  }

  const DEFAULT_SETS := [ParamSet(0, MarkingParams(0.0, 100.0, 0.0))]

  function GeneratedPlane(i: nat): WorkPlane {
    WorkPlane(i, i as real * 0.1, SquareBlocks(Square(0.0, 0.0, SQUARE_SIZE), HATCH_SPACING))
  }

  function GeneratedJob(layers: int): Job {
    Job(Some("Hatched Square Job"), DEFAULT_SETS,
        seq(NonNegative(layers), i requires 0 <= i < NonNegative(layers) => GeneratedPlane(i)))
  }

  /** The numbers of a generated job: one parameter set, under key 0, with the laser off at 100 mm/s; planes numbered
      from 0 and 0.1 mm apart; on each the contour and then the hatches of a square of 20 mm around the origin, with 1
      mm between the lines, under key 0. */
  lemma GeneratedJobLaw(layers: int, i: nat)
    ensures var job := GeneratedJob(layers);
            && job.name.Some? && job.sets == [ParamSet(0, MarkingParams(0.0, 100.0, 0.0))]
            && |job.planes| == (if layers < 0 then 0 else layers)
            && (i < |job.planes| ==>
                  && job.planes[i].number == i && job.planes[i].zPos == i as real * 0.1
                  && |job.planes[i].blocks| == 2
                  && job.planes[i].blocks[0].geometry == LineSequence(ContourPoints(Square(0.0, 0.0, 20.0)))
                  && job.planes[i].blocks[1].geometry == Hatches(HatchPoints(Square(0.0, 0.0, 20.0), 1.0, 21))
                  && job.planes[i].blocks[0].paramsKey == job.planes[i].blocks[1].paramsKey == 0
                  && job.planes[i].blocks[0].partArea == job.planes[i].blocks[1].partArea == None)
  {
    hide HatchPoints, ContourPoints;
    assert LineCount(20.0, 1.0) == 21;
  }

  method CreateContourBlock(sq: Square) returns (block: VectorBlock)
    ensures block == PlainBlock(LineSequence(ContourPoints(sq)))
  {
    var points := [];
    points := points + [sq.XMin()] + [sq.YMin()];
    points := points + [sq.XMax()] + [sq.YMin()];
    points := points + [sq.XMax()] + [sq.YMax()];
    points := points + [sq.XMin()] + [sq.YMax()];
    points := points + [sq.XMin()] + [sq.YMin()];
    assert points == ContourPoints(sq);
    block := PlainBlock(LineSequence(points));
  }

  /** The loop ends for every size, with the lines counted above. */
  method CreateHatchBlock(sq: Square, spacing: real) returns (block: VectorBlock)
    requires spacing > 0.0
    ensures block == PlainBlock(Hatches(HatchPoints(sq, spacing, LineCount(sq.size, spacing))))
  {
    var points, y := [], sq.YMin();
    ghost var i := 0;
    LineFits(sq, spacing, 0);
    while y <= sq.YMax()
      invariant i <= LineCount(sq.size, spacing) && y == LineY(sq, spacing, i)
      invariant points == HatchPoints(sq, spacing, i)
      decreases LineCount(sq.size, spacing) - i
    {
      LineFits(sq, spacing, i);
      points := points + [sq.XMin(), y, sq.XMax(), y];
      y := y + spacing;
      assert (i + 1) as real * spacing == i as real * spacing + spacing;
      i := i + 1;
    }
    LineFits(sq, spacing, i);
    block := PlainBlock(Hatches(points));
  }

  method CreateWorkPlaneForLayer(i: nat) returns (plane: WorkPlane)
    ensures plane == GeneratedPlane(i)
  {
    var sq := Square(0.0, 0.0, SQUARE_SIZE);
    var contour := CreateContourBlock(sq);
    var hatches := CreateHatchBlock(sq, HATCH_SPACING);
    plane := WorkPlane(i, i as real * 0.1, [contour, hatches]);
  }

  /** The job handed to the file writer, layer by layer. */
  method Generate(numberOfLayers: int) returns (job: Job)
    ensures job == GeneratedJob(numberOfLayers)
  {
    hide GeneratedPlane;
    job := Job(Some("Hatched Square Job"), DEFAULT_SETS, []);
    assert GeneratedJob(0).planes == [];
    var i := 0;
    while i < numberOfLayers
      invariant 0 <= i <= NonNegative(numberOfLayers)
      invariant job == GeneratedJob(i)
    {
      var plane := CreateWorkPlaneForLayer(i);
      assert GeneratedJob(i + 1).planes == GeneratedJob(i).planes + [plane];
      job := job.(planes := job.planes + [plane]);
      i := i + 1;
    }
  }

  // ---------------------------------------------------------------------------------------------
  // What the compiler makes of a generated layer
  // ---------------------------------------------------------------------------------------------

  /** The coordinate lies on the square's edge or inside, and so does its value on the scanner grid. */
  ghost predicate Inside(c: real, half: real) {
    -half <= c <= half && -MmToBits(half) <= MmToBits(c) <= MmToBits(half) && FitsInt(c)
  }

  ghost predicate InSquare(p: Point, half: real) {
    -MmToBits(half) <= p.x <= MmToBits(half) && -MmToBits(half) <= p.y <= MmToBits(half)
  }

  lemma CoordinateInside(c: real, half: real)
    requires -half <= c <= half && FitsInt(half)
    ensures Inside(c, half)
  {
    MmToBitsShape(c, half, 0);
    MmToBitsShape(-half, c, 0);
    MmToBitsShape(half, 0.0, 0);
  }

  lemma ContourInside(size: real, k: nat)
    requires 0.0 <= size && FitsInt(size / 2.0) && k < 10
    ensures Inside(ContourPoints(Square(0.0, 0.0, size))[k], size / 2.0)
  {
    hide Inside;
    CoordinateInside(-size / 2.0, size / 2.0);
    CoordinateInside(size / 2.0, size / 2.0);
  }

  lemma HatchInside(size: real, spacing: real, k: nat)
    requires 0.0 <= size && FitsInt(size / 2.0) && spacing > 0.0 && k < 4 * LineCount(size, spacing)
    ensures Inside(HatchPoints(Square(0.0, 0.0, size), spacing, LineCount(size, spacing))[k], size / 2.0)
  {
    hide Inside;
    var sq, i := Square(0.0, 0.0, size), k / 4;
    HatchCoverage(sq, spacing, i);
    CoordinateInside(-size / 2.0, size / 2.0);
    CoordinateInside(size / 2.0, size / 2.0);
    CoordinateInside(LineY(sq, spacing, i), size / 2.0);
    assert k == 4 * i || k == 4 * i + 1 || k == 4 * i + 2 || k == 4 * i + 3;
  }

  lemma GeneratedPrintable(size: real, spacing: real)
    requires 0.0 <= size && FitsInt(size / 2.0) && spacing > 0.0
    ensures Printable(SquareBlocks(Square(0.0, 0.0, size), spacing), DEFAULT_SETS)
    ensures BlocksResolve(SquareBlocks(Square(0.0, 0.0, size), spacing), DEFAULT_SETS)
  {
    hide MmToBits, HatchPoints, ContourPoints, LineCount;
    var sq := Square(0.0, 0.0, size);
    var blocks := SquareBlocks(sq, spacing);
    var contour, hatches := ContourPoints(sq), HatchPoints(sq, spacing, LineCount(size, spacing));
    assert |contour| == 10 by { ContourLength(sq); }
    forall k | 0 <= k < 10 ensures FitsInt(contour[k]) { ContourInside(size, k); }
    forall k | 0 <= k < |hatches| ensures FitsInt(hatches[k]) { HatchInside(size, spacing, k); }
    ZeroFits();
    assert DEFAULT_SETS[0].key == 0;
  }

  lemma ContourLength(sq: Square)
    ensures |ContourPoints(sq)| == 10
  {
  }

  lemma ZeroFits()
    ensures MmToBits(0.0) == 0
  {
  }

  /** The generated layer's exposures are the contour's followed by the hatches'. */
  lemma GeneratedExposures(sq: Square, spacing: real)
    requires spacing > 0.0 && Printable(SquareBlocks(sq, spacing), DEFAULT_SETS)
    ensures var blocks, p := SquareBlocks(sq, spacing), DEFAULT_SETS[0].params;
            LayerExposures(blocks, DEFAULT_SETS) == BlockExposures(blocks[0], p) + BlockExposures(blocks[1], p)
  {
    hide BlockExposures, WellFormed, FitsInt, ContourPoints, HatchPoints, LineCount;
    var blocks, p := SquareBlocks(sq, spacing), DEFAULT_SETS[0].params;
    assert Find(DEFAULT_SETS, 0) == Some(p);
    var contour, hatches := BlockExposures(blocks[0], p), BlockExposures(blocks[1], p);
    assert LayerExposuresFrom(blocks, DEFAULT_SETS, 2) == [];
    assert LayerExposuresFrom(blocks, DEFAULT_SETS, 1) == hatches + [];
    assert LayerExposures(blocks, DEFAULT_SETS) == contour + (hatches + []);
    assert hatches + [] == hatches;
  }

  /** What block b of a generated layer asks for, and what it compiles to. */
  ghost function SquareExposures(size: real, spacing: real, b: nat): seq<Exposure>
    requires 0.0 <= size && FitsInt(size / 2.0) && spacing > 0.0 && b < 2
  {
    GeneratedPrintable(size, spacing);
    BlockExposures(SquareBlocks(Square(0.0, 0.0, size), spacing)[b], DEFAULT_SETS[0].params)
  }

  ghost function SquareCommands(size: real, spacing: real, b: nat): seq<Command>
    requires 0.0 <= size && FitsInt(size / 2.0) && spacing > 0.0 && b < 2
  {
    GeneratedPrintable(size, spacing);
    CompileBlock(SquareBlocks(Square(0.0, 0.0, size), spacing)[b], DEFAULT_SETS[0].params)
  }

  lemma SquareCompiles(size: real, spacing: real, b: nat, h: Head)
    requires 0.0 <= size && FitsInt(size / 2.0) && spacing > 0.0 && b < 2
    ensures Expose(SquareCommands(size, spacing, b), h) == SquareExposures(size, spacing, b)
  {
    GeneratedPrintable(size, spacing);
    hide Expose, CompileBlock, BlockExposures, SquareBlocks, FitsInt;
    BlockMeaning(SquareBlocks(Square(0.0, 0.0, size), spacing)[b], DEFAULT_SETS[0].params, h);
  }

  /** The four sides of the square with half size h, once around from the lower left corner and back to it. */
  predicate Outline(es: seq<Exposure>, h: int) {
    && |es| >= 4
    && es[0].start == Point(-h, -h) && es[0].end == Point(h, -h)
    && es[1].start == Point(h, -h) && es[1].end == Point(h, h)
    && es[2].start == Point(h, h) && es[2].end == Point(-h, h)
    && es[3].start == Point(-h, h) && es[3].end == Point(-h, -h)
  }

  lemma ContourShape(size: real, spacing: real)
    requires 0.0 <= size && FitsInt(size / 2.0) && spacing > 0.0
    ensures var es := SquareExposures(size, spacing, 0);
            && |es| == 4 && Outline(es, MmToBits(size / 2.0))
            && forall j :: 0 <= j < 4 ==> InSquare(es[j].start, size / 2.0) && InSquare(es[j].end, size / 2.0)
  {
    hide MmToBits;
    MmToBitsShape(size / 2.0, 0.0, 0);
    assert -(size / 2.0) == Square(0.0, 0.0, size).XMin();
    forall k: nat | k < 10
      ensures Inside(ContourPoints(Square(0.0, 0.0, size))[k], size / 2.0)
    {
      ContourInside(size, k);
    }
  }

  lemma {:induction false} HatchesShape(size: real, spacing: real)
    requires 0.0 <= size && FitsInt(size / 2.0) && spacing > 0.0
    ensures var sq, es := Square(0.0, 0.0, size), SquareExposures(size, spacing, 1);
            && |es| == LineCount(size, spacing)
            && forall j :: 0 <= j < |es| ==>
                 && es[j].start == Point(-MmToBits(size / 2.0), MmToBits(LineY(sq, spacing, j)))
                 && es[j].end == Point(MmToBits(size / 2.0), MmToBits(LineY(sq, spacing, j)))
                 && InSquare(es[j].start, size / 2.0) && InSquare(es[j].end, size / 2.0)
  {
    hide MmToBits, LineCount, LineY;
    var sq := Square(0.0, 0.0, size);
    var n, pts := LineCount(size, spacing), HatchPoints(sq, spacing, LineCount(size, spacing));
    var es := SquareExposures(size, spacing, 1);
    MmToBitsShape(size / 2.0, 0.0, 0);
    assert -(size / 2.0) == sq.XMin() && size / 2.0 == sq.XMax();
    forall j: nat | j < n
      ensures es[j].start == Point(-MmToBits(size / 2.0), MmToBits(LineY(sq, spacing, j)))
      ensures es[j].end == Point(MmToBits(size / 2.0), MmToBits(LineY(sq, spacing, j)))
      ensures InSquare(es[j].start, size / 2.0) && InSquare(es[j].end, size / 2.0)
    {
      assert pts[4 * j] == sq.XMin() && pts[4 * j + 1] == LineY(sq, spacing, j);
      assert pts[4 * j + 2] == sq.XMax() && pts[4 * j + 3] == LineY(sq, spacing, j);
      HatchInside(size, spacing, 4 * j);
      HatchInside(size, spacing, 4 * j + 1);
      HatchInside(size, spacing, 4 * j + 2);
    }
  }

  /** The contour compiles, for any state of the head, to exactly the four sides, closed, inside the square. */
  lemma {:induction false} ContourExposed(size: real, spacing: real, h: Head)
    requires 0.0 <= size && FitsInt(size / 2.0) && spacing > 0.0
    ensures var es := Expose(SquareCommands(size, spacing, 0), h);
            && |es| == 4 && Outline(es, MmToBits(size / 2.0))
            && forall j :: 0 <= j < 4 ==> InSquare(es[j].start, size / 2.0) && InSquare(es[j].end, size / 2.0)
  {
    hide SquareCommands, SquareExposures, Expose, MmToBits, Outline, InSquare;
    SquareCompiles(size, spacing, 0, h);
    ContourShape(size, spacing);
  }

  /** The hatches compile, for any state of the head, to one line each, line j from the left edge to the right edge at
      the j-th height. */
  lemma {:induction false} HatchesExposed(size: real, spacing: real, h: Head)
    requires 0.0 <= size && FitsInt(size / 2.0) && spacing > 0.0
    ensures var sq, es := Square(0.0, 0.0, size), Expose(SquareCommands(size, spacing, 1), h);
            && |es| == LineCount(size, spacing)
            && forall j :: 0 <= j < |es| ==>
                 && es[j].start == Point(-MmToBits(size / 2.0), MmToBits(LineY(sq, spacing, j)))
                 && es[j].end == Point(MmToBits(size / 2.0), MmToBits(LineY(sq, spacing, j)))
                 && InSquare(es[j].start, size / 2.0) && InSquare(es[j].end, size / 2.0)
  {
    hide SquareCommands, SquareExposures, Expose, MmToBits, InSquare, LineCount, LineY;
    SquareCompiles(size, spacing, 1, h);
    HatchesShape(size, spacing);
  }

  lemma {:induction false} LayerShape(size: real, spacing: real)
    requires 0.0 <= size && FitsInt(size / 2.0) && spacing > 0.0
    ensures var sq := Square(0.0, 0.0, size);
            && Printable(SquareBlocks(sq, spacing), DEFAULT_SETS)
            && LayerOutline(LayerExposures(SquareBlocks(sq, spacing), DEFAULT_SETS), size, spacing)
  {
    hide MmToBits, LineCount, LineY, BlockExposures, LayerExposures, HatchPoints, ContourPoints, InSquare, FitsInt;
    GeneratedPrintable(size, spacing);
    GeneratedExposures(Square(0.0, 0.0, size), spacing);
    ContourShape(size, spacing);
    HatchesShape(size, spacing);
  }

  /** The four sides of the square, then one horizontal line per hatch from edge to edge, all inside the square. */
  ghost predicate LayerOutline(es: seq<Exposure>, size: real, spacing: real)
    requires spacing > 0.0
  {
    var sq := Square(0.0, 0.0, size);
    && |es| == 4 + LineCount(size, spacing) && Outline(es, MmToBits(size / 2.0))
    && (forall j :: 0 <= j < LineCount(size, spacing) ==>
          && es[4 + j].start == Point(-MmToBits(size / 2.0), MmToBits(LineY(sq, spacing, j)))
          && es[4 + j].end == Point(MmToBits(size / 2.0), MmToBits(LineY(sq, spacing, j))))
    && (forall j :: 0 <= j < |es| ==> InSquare(es[j].start, size / 2.0) && InSquare(es[j].end, size / 2.0))
  }

  /** End of the chain: a generated layer, of any size whose half the controller's int can hold, with any spacing,
      compiles; for any state of the head its commands expose the four sides of the scaled square and one horizontal
      line per hatch, from edge to edge, all inside the square. */
  lemma {:induction false} GeneratedLayer(size: real, spacing: real, h: Head)
    requires 0.0 <= size && FitsInt(size / 2.0) && spacing > 0.0
    ensures var blocks := SquareBlocks(Square(0.0, 0.0, size), spacing);
            && Printable(blocks, DEFAULT_SETS) && BlocksResolve(blocks, DEFAULT_SETS)
            && Expose(LayerCommands(blocks, DEFAULT_SETS), h) == LayerExposures(blocks, DEFAULT_SETS)
            && LayerOutline(Expose(LayerCommands(blocks, DEFAULT_SETS), h), size, spacing)
  {
    hide MmToBits, LayerExposuresFrom, LayerCommandsFrom, FitsInt, Expose, LayerOutline, Printable, BlocksResolve,
         SquareBlocks;
    GeneratedPrintable(size, spacing);
    LayerShape(size, spacing);
    LayerMeaning(SquareBlocks(Square(0.0, 0.0, size), spacing), DEFAULT_SETS, 0, h);
  }
}
