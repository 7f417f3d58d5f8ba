/** GeometryHandler::processVectorBlock as a function from blocks to list commands, the meaning of
    list commands on the scan head, and the proof that the translation keeps the meaning. */
module GeometryCompiler {
  import opened OvfModel

  const MM_TO_BITS := 4000.0      // MachineConfig::MM_TO_BITS_CONVERSION_FACTOR
  const MAX_LASER_POWER_W := 400.0
  const SPEED_BITS_PER_MM := 1000.0 // ListHandler::addSetMarkSpeed has a factor of its own

  datatype Command =
    | SetMarkSpeed(bitsPerMs: real)
    | SetFocusOffset(bits: int)
    | SetLaserPower(port: nat, dac: nat)
    | JumpAbs(x: int, y: int)
    | MarkAbs(x: int, y: int)

  // ---------------------------------------------------------------------------------------------
  // Unit conversions
  // ---------------------------------------------------------------------------------------------

  /** std::round: to the nearest integer, halves away from zero. */
  function Round(x: real): int {
    if x >= 0.0 then (x + 0.5).Floor else -((0.5 - x).Floor)
  }

  function MmToBits(mm: real): int { Round(mm * MM_TO_BITS) }

  /** The value fits the int the cast in mmToBits produces. */
  predicate FitsInt(mm: real) { -0x8000_0000 <= MmToBits(mm) < 0x8000_0000 }

  function PowerToDac(percent: real): int {
    var clamped := if percent < 0.0 then 0.0 else if percent > 100.0 then 100.0 else percent;
    (clamped / 100.0 * 4095.0).Floor
  }

  function WattsToDac(watts: real): int { PowerToDac(watts / MAX_LASER_POWER_W * 100.0) }

  function SpeedBits(mmPerS: real): real { mmPerS * SPEED_BITS_PER_MM / 1000.0 }

  /** The cast holds exactly the values whose rounding is a 32-bit integer. */
  lemma FitsIntExactly(mm: real)
    ensures FitsInt(mm) <==> -2147483648.5 < 4000.0 * mm < 2147483647.5
  {
    var x := mm * MM_TO_BITS;
    assert x == 4000.0 * mm;
    if x >= 0.0 {
      assert (x + 0.5).Floor as real <= x + 0.5 < (x + 0.5).Floor as real + 1.0;
    } else {
      assert (0.5 - x).Floor as real <= 0.5 - x < (0.5 - x).Floor as real + 1.0;
    }
  }

  lemma MmToBitsHalfBit(mm: real)
    ensures -0.5 <= MmToBits(mm) as real - 4000.0 * mm <= 0.5
  {
    var x := mm * MM_TO_BITS;
    if x >= 0.0 {
      assert (x + 0.5).Floor as real <= x + 0.5 < (x + 0.5).Floor as real + 1.0;
    } else {
      assert (0.5 - x).Floor as real <= 0.5 - x < (0.5 - x).Floor as real + 1.0;
    }
  }

  /** Conversion is odd, monotone, exact on the 1/4000 mm grid, and keeps apart points that are at
      least one grid step apart. */
  lemma MmToBitsShape(a: real, b: real, n: int)
    ensures MmToBits(-a) == -MmToBits(a)
    ensures a <= b ==> MmToBits(a) <= MmToBits(b)
    ensures a == n as real / 4000.0 ==> MmToBits(a) == n
    ensures a + 1.0 / 4000.0 <= b ==> MmToBits(a) < MmToBits(b)
  {
    var x, y := a * MM_TO_BITS, b * MM_TO_BITS;
    assert -a * MM_TO_BITS == -x;
    if a + 1.0 / 4000.0 <= b {
      assert x + 1.0 <= y;
      RoundStep(x, y);
    }
  }

  lemma RoundStep(x: real, y: real)
    requires x + 1.0 <= y
    ensures Round(x) < Round(y)
  {
    if x >= 0.0 {
      assert (x + 1.0 + 0.5).Floor == (x + 0.5).Floor + 1;
    } else if y < 0.0 {
      assert (0.5 - y + 1.0).Floor == (0.5 - y).Floor + 1;
    } else {
      // x < 0 <= y, a full step apart: both halves cannot round to zero
      assert y >= 0.5 || x < -0.5 || x == -0.5;
    }
  }

  /** Watts to DAC for a laser of 400 W and a 12-bit converter: monotone, always in 0..4095, never above the request,
      and less than one DAC step below it for every request the laser can deliver. */
  lemma WattsToDacLaw(v: real, w: real)
    ensures 0 <= WattsToDac(w) <= 4095
    ensures v <= w ==> WattsToDac(v) <= WattsToDac(w)
    ensures w <= 0.0 ==> WattsToDac(w) == 0
    ensures w >= 400.0 ==> WattsToDac(w) == 4095
    ensures w >= 0.0 ==> WattsToDac(w) as real * 400.0 / 4095.0 <= w
    ensures 0.0 <= w <= 400.0 ==> w - WattsToDac(w) as real * 400.0 / 4095.0 < 400.0 / 4095.0
  {
  }

  // ---------------------------------------------------------------------------------------------
  // Translation
  // ---------------------------------------------------------------------------------------------

  /** What processVectorBlock may read: whole points of a line, whole start/end pairs of a hatch, and
      coordinates whose bit value the int cast can hold. Shorter sequences are skipped unread. */
  predicate WellFormed(block: VectorBlock) {
    match block.geometry
    case LineSequence(pts) => |pts| < 4 || (|pts| % 2 == 0 && forall i :: 0 <= i < |pts| ==> FitsInt(pts[i]))
    case Hatches(pts) => |pts| < 4 || (|pts| % 4 == 0 && forall i :: 0 <= i < |pts| ==> FitsInt(pts[i]))
    case Unsupported => true
  }

  function Header(p: MarkingParams): seq<Command> {
    [SetMarkSpeed(SpeedBits(p.speed)),
     SetFocusOffset(MmToBits(p.focus)),
     SetLaserPower(1, WattsToDac(p.power))]
  }

  function MarksFrom(pts: seq<real>, i: nat): seq<Command>
    requires |pts| % 2 == 0 && i % 2 == 0
    decreases |pts| - i
  {
    if i >= |pts| then []
    else [MarkAbs(MmToBits(pts[i]), MmToBits(pts[i + 1]))] + MarksFrom(pts, i + 2)
  }

  function HatchesFrom(pts: seq<real>, i: nat): seq<Command>
    requires |pts| % 4 == 0 && i % 4 == 0
    decreases |pts| - i
  {
    if i >= |pts| then []
    else [JumpAbs(MmToBits(pts[i]), MmToBits(pts[i + 1])), MarkAbs(MmToBits(pts[i + 2]), MmToBits(pts[i + 3]))]
         + HatchesFrom(pts, i + 4)
  }

  function GeometryCommands(block: VectorBlock): seq<Command>
    requires WellFormed(block)
  {
    match block.geometry
    case LineSequence(pts) =>
      if |pts| < 4 then [] else [JumpAbs(MmToBits(pts[0]), MmToBits(pts[1]))] + MarksFrom(pts, 2)
    case Hatches(pts) =>
      if |pts| < 4 then [] else HatchesFrom(pts, 0)
    case Unsupported => []
  }

  function CompileBlock(block: VectorBlock, p: MarkingParams): seq<Command>
    requires WellFormed(block)
  {
    Header(p) + GeometryCommands(block)
  }

  /** The blocks of a layer are well formed, and the focus of every set they find fits the cast. */
  ghost predicate Printable(blocks: seq<VectorBlock>, sets: seq<ParamSet>) {
    && (forall j :: 0 <= j < |blocks| ==> WellFormed(blocks[j]))
    && (forall j :: 0 <= j < |blocks| ==>
          var found := Find(sets, blocks[j].paramsKey); found.Some? ==> FitsInt(found.value.focus))
  }

  /** The commands prepareLayer writes from block j on, up to the first key that does not resolve. */
  ghost function LayerCommandsFrom(blocks: seq<VectorBlock>, sets: seq<ParamSet>, j: nat): seq<Command>
    requires Printable(blocks, sets) && j <= |blocks|
    decreases |blocks| - j
  {
    if j == |blocks| then []
    else match Find(sets, blocks[j].paramsKey)
      case None => []
      case Some(p) => CompileBlock(blocks[j], p) + LayerCommandsFrom(blocks, sets, j + 1)
  }

  ghost function LayerCommands(blocks: seq<VectorBlock>, sets: seq<ParamSet>): seq<Command>
    requires Printable(blocks, sets)
  {
    LayerCommandsFrom(blocks, sets, 0)
  }

  // ---------------------------------------------------------------------------------------------
  // Meaning: what a command list makes the head expose
  // ---------------------------------------------------------------------------------------------

  datatype Point = Point(x: int, y: int)

  /** The head's position and the parameters that hold for the next mark. The laser is connected to port 1. */
  datatype Head = Head(at: Point, speed: real, focus: int, dac: int)

  /** One exposed segment, with the parameters it was exposed under. */
  datatype Exposure = Exposure(start: Point, end: Point, speed: real, focus: int, dac: int)

  function Move(c: Command, h: Head): Head {
    match c
    case SetMarkSpeed(s) => h.(speed := s)
    case SetFocusOffset(f) => h.(focus := f)
    case SetLaserPower(port, d) => if port == 1 then h.(dac := d) else h
    case JumpAbs(x, y) => h.(at := Point(x, y))
    case MarkAbs(x, y) => h.(at := Point(x, y))
  }

  function MoveAll(cmds: seq<Command>, h: Head): Head {
    if cmds == [] then h else MoveAll(cmds[1..], Move(cmds[0], h))
  }

  function Expose(cmds: seq<Command>, h: Head): seq<Exposure> {
    if cmds == [] then []
    else
      (if cmds[0].MarkAbs? then [Exposure(h.at, Point(cmds[0].x, cmds[0].y), h.speed, h.focus, h.dac)] else [])
      + Expose(cmds[1..], Move(cmds[0], h))
  }

  lemma {:induction false} ExposeConcat(a: seq<Command>, b: seq<Command>, h: Head)
    ensures Expose(a + b, h) == Expose(a, h) + Expose(b, MoveAll(a, h))
    ensures MoveAll(a + b, h) == MoveAll(b, MoveAll(a, h))
  {
    if a == [] {
      assert a + b == b;
    } else {
      assert (a + b)[1..] == a[1..] + b;
      ExposeConcat(a[1..], b, Move(a[0], h));
    }
  }

  /** The i-th point of a flat coordinate list, on the scanner grid. */
  function Vertex(pts: seq<real>, i: nat): Point
    requires 2 * i + 1 < |pts|
  {
    Point(MmToBits(pts[2 * i]), MmToBits(pts[2 * i + 1]))
  }

  function Segment(pts: seq<real>, i: nat, j: nat, p: MarkingParams): Exposure
    requires 2 * i + 1 < |pts| && 2 * j + 1 < |pts|
  {
    Exposure(Vertex(pts, i), Vertex(pts, j), SpeedBits(p.speed), MmToBits(p.focus), WattsToDac(p.power))
  }

  /** What a block asks for, read off its points: a line sequence exposes the segments between
      consecutive points, hatches expose independent segments, both under the block's own parameters. */
  function BlockExposures(block: VectorBlock, p: MarkingParams): (es: seq<Exposure>)
    requires WellFormed(block)
  {
    match block.geometry
    case LineSequence(pts) =>
      if |pts| < 4 then []
      else seq(|pts| / 2 - 1, i requires 0 <= i < |pts| / 2 - 1 => Segment(pts, i, i + 1, p))
    case Hatches(pts) =>
      if |pts| < 4 then []
      else seq(|pts| / 4, i requires 0 <= i < |pts| / 4 => Segment(pts, 2 * i, 2 * i + 1, p))
    case Unsupported => []
  }

  ghost function LayerExposuresFrom(blocks: seq<VectorBlock>, sets: seq<ParamSet>, j: nat): seq<Exposure>
    requires Printable(blocks, sets) && j <= |blocks|
    decreases |blocks| - j
  {
    if j == |blocks| then []
    else match Find(sets, blocks[j].paramsKey)
      case None => []
      case Some(p) => BlockExposures(blocks[j], p) + LayerExposuresFrom(blocks, sets, j + 1)
  }

  /** What a layer asks for: its blocks' own exposures, in block order. */
  ghost function LayerExposures(blocks: seq<VectorBlock>, sets: seq<ParamSet>): seq<Exposure>
    requires Printable(blocks, sets)
  {
    LayerExposuresFrom(blocks, sets, 0)
  }

  ghost predicate Under(h: Head, p: MarkingParams) {
    h.speed == SpeedBits(p.speed) && h.focus == MmToBits(p.focus) && h.dac == WattsToDac(p.power)
  }

  lemma {:induction false} MarksExpose(pts: seq<real>, i: nat, h: Head, p: MarkingParams)
    requires |pts| % 2 == 0 && 1 <= i <= |pts| / 2
    requires Under(h, p) && h.at == Vertex(pts, i - 1)
    ensures Expose(MarksFrom(pts, 2 * i), h)
            == seq(|pts| / 2 - i, j requires 0 <= j < |pts| / 2 - i => Segment(pts, i - 1 + j, i + j, p))
    decreases |pts| - i
  {
    if i < |pts| / 2 {
      var c := MarkAbs(MmToBits(pts[2 * i]), MmToBits(pts[2 * i + 1]));
      var rest := MarksFrom(pts, 2 * i + 2);
      assert ([c] + rest)[1..] == rest;
      assert MarksFrom(pts, 2 * i) == [c] + rest;
      MarksExpose(pts, i + 1, Move(c, h), p);
      assert Expose([c] + rest, h) == [Segment(pts, i - 1, i, p)] + Expose(rest, Move(c, h));
    }
  }

  lemma {:induction false} HatchesExpose(pts: seq<real>, i: nat, h: Head, p: MarkingParams)
    requires |pts| % 4 == 0 && i <= |pts| / 4
    requires Under(h, p)
    ensures Expose(HatchesFrom(pts, 4 * i), h)
            == seq(|pts| / 4 - i, j requires 0 <= j < |pts| / 4 - i => Segment(pts, 2 * (i + j), 2 * (i + j) + 1, p))
    decreases |pts| - i
  {
    hide MmToBits, SpeedBits, WattsToDac;
    if i < |pts| / 4 {
      var c := JumpAbs(MmToBits(pts[4 * i]), MmToBits(pts[4 * i + 1]));
      var d := MarkAbs(MmToBits(pts[4 * i + 2]), MmToBits(pts[4 * i + 3]));
      var rest := HatchesFrom(pts, 4 * i + 4);
      var all := [c, d] + rest;
      assert HatchesFrom(pts, 4 * i) == all;
      assert all[1..] == [d] + rest && all[1..][1..] == rest;
      HatchesExpose(pts, i + 1, Move(d, Move(c, h)), p);
      assert Expose(all, h) == Expose(all[1..], Move(c, h));
      assert Expose(all[1..], Move(c, h)) == [Segment(pts, 2 * i, 2 * i + 1, p)] + Expose(rest, Move(d, Move(c, h)));
    }
  }

  lemma HeaderSets(p: MarkingParams, h: Head)
    ensures Expose(Header(p), h) == []
    ensures Under(MoveAll(Header(p), h), p) && MoveAll(Header(p), h).at == h.at
  {
    var c := Header(p);
    assert c[1..] == [c[1], c[2]] && c[1..][1..] == [c[2]] && c[1..][1..][1..] == [];
    assert MoveAll(c[1..], Move(c[0], h)) == MoveAll(c[1..][1..], Move(c[1], Move(c[0], h)));
    assert Expose(c[1..], Move(c[0], h)) == Expose(c[1..][1..], Move(c[1], Move(c[0], h)));
  }

  /** Compiler correctness for one block: whatever the head was doing, the commands expose the block's
      segments, in order, under the block's own parameters, and nothing else. */
  lemma BlockMeaning(block: VectorBlock, p: MarkingParams, h: Head)
    requires WellFormed(block)
    ensures Expose(CompileBlock(block, p), h) == BlockExposures(block, p)
  {
    HeaderSets(p, h);
    ExposeConcat(Header(p), GeometryCommands(block), h);
    var h1 := MoveAll(Header(p), h);
    match block.geometry
    case LineSequence(pts) =>
      if |pts| >= 4 {
        var c := JumpAbs(MmToBits(pts[0]), MmToBits(pts[1]));
        assert ([c] + MarksFrom(pts, 2))[1..] == MarksFrom(pts, 2);
        MarksExpose(pts, 1, Move(c, h1), p);
      }
    case Hatches(pts) => if |pts| >= 4 { HatchesExpose(pts, 0, h1, p); }
    case Unsupported =>
  }

  lemma {:induction false} MarksAt(pts: seq<real>, i: nat, k: nat)
    requires |pts| % 2 == 0 && i <= |pts| / 2
    ensures |MarksFrom(pts, 2 * i)| == |pts| / 2 - i
    ensures k < |pts| / 2 - i ==>
              MarksFrom(pts, 2 * i)[k] == MarkAbs(MmToBits(pts[2 * (i + k)]), MmToBits(pts[2 * (i + k) + 1]))
    decreases |pts| - i
  {
    hide MmToBits;
    if i < |pts| / 2 { MarksAt(pts, i + 1, if k > 0 then k - 1 else 0); }
  }

  lemma HatchesUnfold(pts: seq<real>, i: nat)
    requires |pts| % 4 == 0 && i < |pts| / 4
    ensures HatchesFrom(pts, 4 * i)
            == [JumpAbs(MmToBits(pts[4 * i]), MmToBits(pts[4 * i + 1])),
                MarkAbs(MmToBits(pts[4 * i + 2]), MmToBits(pts[4 * i + 3]))] + HatchesFrom(pts, 4 * (i + 1))
  {
  }

  lemma {:induction false} HatchesAt(pts: seq<real>, i: nat, k: nat)
    requires |pts| % 4 == 0 && i <= |pts| / 4
    ensures |HatchesFrom(pts, 4 * i)| == 2 * (|pts| / 4 - i)
    ensures k < |pts| / 4 - i ==>
              var n := 4 * (i + k);
              && HatchesFrom(pts, 4 * i)[2 * k] == JumpAbs(MmToBits(pts[n]), MmToBits(pts[n + 1]))
              && HatchesFrom(pts, 4 * i)[2 * k + 1] == MarkAbs(MmToBits(pts[n + 2]), MmToBits(pts[n + 3]))
    decreases |pts| - i
  {
    if i < |pts| / 4 {
      hide MmToBits, HatchesFrom;
      HatchesUnfold(pts, i);
      HatchesAt(pts, i + 1, if k > 0 then k - 1 else 0);
    }
  }

  /** The command list of a path, command by command: speed, focus and power in this order, a jump to the first point
      and one mark per further point, and nothing else. */
  lemma LineCommands(block: VectorBlock, p: MarkingParams, k: nat)
    requires WellFormed(block) && block.geometry.LineSequence? && 4 <= |block.geometry.points|
    requires 0 < k < |block.geometry.points| / 2
    ensures var pts, cmds := block.geometry.points, CompileBlock(block, p);
            && |cmds| == 3 + |pts| / 2
            && cmds[0].SetMarkSpeed? && cmds[1].SetFocusOffset? && cmds[2].SetLaserPower?
            && cmds[3] == JumpAbs(MmToBits(pts[0]), MmToBits(pts[1]))
            && cmds[3 + k] == MarkAbs(MmToBits(pts[2 * k]), MmToBits(pts[2 * k + 1]))
  {
    hide MmToBits, FitsInt, WattsToDac, MarksFrom;
    MarksAt(block.geometry.points, 1, k - 1);
  }

  /** The command list of hatches: the parameters, then a jump to the start and a mark to the end of each hatch. */
  lemma HatchCommands(block: VectorBlock, p: MarkingParams, k: nat)
    requires WellFormed(block) && block.geometry.Hatches? && 4 <= |block.geometry.points|
    requires k < |block.geometry.points| / 4
    ensures var pts, cmds := block.geometry.points, CompileBlock(block, p);
            && |cmds| == 3 + 2 * (|pts| / 4)
            && cmds[0].SetMarkSpeed? && cmds[1].SetFocusOffset? && cmds[2].SetLaserPower?
            && cmds[3 + 2 * k] == JumpAbs(MmToBits(pts[4 * k]), MmToBits(pts[4 * k + 1]))
            && cmds[4 + 2 * k] == MarkAbs(MmToBits(pts[4 * k + 2]), MmToBits(pts[4 * k + 3]))
  {
    hide MmToBits, FitsInt, WattsToDac, HatchesFrom;
    HatchesAt(block.geometry.points, 0, k);
  }

  /** Fewer than two points, and every other kind of geometry, are skipped: only the parameters are written. */
  lemma SkippedCommands(block: VectorBlock, p: MarkingParams)
    requires block.geometry.Unsupported? || |block.geometry.points| < 4
    ensures |CompileBlock(block, p)| == 3 && forall c :: c in CompileBlock(block, p) ==> !c.JumpAbs? && !c.MarkAbs?
  {
  }

  /** A DAC value that stands for the requested watts on a 400 W laser: the largest of the 4096 that does not exceed the
      request, or the nearest end of the range. */
  ghost predicate StandsFor(dac: int, watts: real) {
    && 0 <= dac <= 4095
    && (watts <= 0.0 ==> dac == 0)
    && (watts >= 400.0 ==> dac == 4095)
    && (0.0 <= watts <= 400.0 ==> dac as real * 400.0 / 4095.0 <= watts < (dac + 1) as real * 400.0 / 4095.0)
  }

  /** The numbers behind a block's parameters: whatever the head did before, every segment is exposed at the block's
      speed, mm/s becoming bits per ms at 1000 bits per mm, with its focus within half a bit of 4000 bits per mm, and
      with the power its watts stand for, sent to port 1. */
  lemma {:induction false} BlockParameters(block: VectorBlock, p: MarkingParams, h: Head, k: nat)
    requires WellFormed(block) && k < |Expose(CompileBlock(block, p), h)|
    ensures var e := Expose(CompileBlock(block, p), h)[k];
            && e.speed == p.speed
            && -0.5 <= e.focus as real - 4000.0 * p.focus <= 0.5
            && StandsFor(e.dac, p.power)
    ensures forall c :: c in CompileBlock(block, p) && c.SetLaserPower? ==> c.port == 1
  {
    PowerGoesToPort1(block, p);
    hide Expose, MoveAll, CompileBlock, MmToBits, WattsToDac;
    BlockMeaning(block, p, h);
    MmToBitsHalfBit(p.focus);
    WattsStandFor(p.power);
  }

  lemma WattsStandFor(watts: real)
    ensures StandsFor(WattsToDac(watts), watts)
  {
    WattsToDacLaw(watts, watts);
    hide WattsToDac;
    var d := WattsToDac(watts) as real;
    assert (d + 1.0) * 400.0 / 4095.0 == d * 400.0 / 4095.0 + 400.0 / 4095.0;
  }

  lemma {:induction false} NoPowerInMarks(pts: seq<real>, i: nat)
    requires |pts| % 2 == 0 && i % 2 == 0
    ensures forall c :: c in MarksFrom(pts, i) ==> !c.SetLaserPower?
    decreases |pts| - i
  {
    if i < |pts| { NoPowerInMarks(pts, i + 2); }
  }

  lemma {:induction false} NoPowerInHatches(pts: seq<real>, i: nat)
    requires |pts| % 4 == 0 && i % 4 == 0
    ensures forall c :: c in HatchesFrom(pts, i) ==> !c.SetLaserPower?
    decreases |pts| - i
  {
    if i < |pts| { NoPowerInHatches(pts, i + 4); }
  }

  lemma PowerGoesToPort1(block: VectorBlock, p: MarkingParams)
    requires WellFormed(block)
    ensures forall c :: c in CompileBlock(block, p) && c.SetLaserPower? ==> c.port == 1
  {
    hide MmToBits, WattsToDac, FitsInt;
    match block.geometry
    case LineSequence(pts) => if |pts| >= 4 { NoPowerInMarks(pts, 2); }
    case Hatches(pts) => if |pts| >= 4 { NoPowerInHatches(pts, 0); }
    case Unsupported =>
  }

  /** A layer exposes the concatenation of its blocks' own segments: no block inherits a parameter or a
      position from the block before it. */
  lemma {:induction false} LayerMeaning(blocks: seq<VectorBlock>, sets: seq<ParamSet>, j: nat, h: Head)
    requires Printable(blocks, sets) && j <= |blocks|
    ensures Expose(LayerCommandsFrom(blocks, sets, j), h) == LayerExposuresFrom(blocks, sets, j)
    decreases |blocks| - j
  {
    if j < |blocks| && Find(sets, blocks[j].paramsKey).Some? {
      var p := Find(sets, blocks[j].paramsKey).value;
      BlockMeaning(blocks[j], p, h);
      ExposeConcat(CompileBlock(blocks[j], p), LayerCommandsFrom(blocks, sets, j + 1), h);
      LayerMeaning(blocks, sets, j + 1, MoveAll(CompileBlock(blocks[j], p), h));
    }
  }

  ghost predicate HalfBit(v: Point, x: real, y: real) {
    -0.5 <= v.x as real - 4000.0 * x <= 0.5 && -0.5 <= v.y as real - 4000.0 * y <= 0.5
  }

  /** Quantisation along a path of any length: the k-th segment the head exposes starts and ends within
      half a bit of the k-th and (k+1)-th points of the path; errors do not add up. */
  lemma PathWithinHalfBit(block: VectorBlock, p: MarkingParams, h: Head, k: nat)
    requires WellFormed(block) && block.geometry.LineSequence? && 4 <= |block.geometry.points|
    requires k < |block.geometry.points| / 2 - 1
    ensures var pts, es := block.geometry.points, Expose(CompileBlock(block, p), h);
            && |es| == |pts| / 2 - 1
            && HalfBit(es[k].start, pts[2 * k], pts[2 * k + 1])
            && HalfBit(es[k].end, pts[2 * k + 2], pts[2 * k + 3])
            && (k > 0 ==> es[k].start == es[k - 1].end)
  {
    hide Expose, MoveAll, GeometryCommands, Header;
    BlockMeaning(block, p, h);
    var pts := block.geometry.points;
    forall i | 2 * k <= i <= 2 * k + 3
      ensures -0.5 <= MmToBits(pts[i]) as real - 4000.0 * pts[i] <= 0.5
    {
      MmToBitsHalfBit(pts[i]);
    }
  }

  /** The same for hatches: the k-th segment the head exposes starts and ends within half a bit of the k-th hatch's own
      start and end, however many hatches come before it. */
  lemma HatchesWithinHalfBit(block: VectorBlock, p: MarkingParams, h: Head, k: nat)
    requires WellFormed(block) && block.geometry.Hatches? && 4 <= |block.geometry.points|
    requires k < |block.geometry.points| / 4
    ensures var pts, es := block.geometry.points, Expose(CompileBlock(block, p), h);
            && |es| == |pts| / 4
            && HalfBit(es[k].start, pts[4 * k], pts[4 * k + 1])
            && HalfBit(es[k].end, pts[4 * k + 2], pts[4 * k + 3])
  {
    hide Expose, MoveAll, GeometryCommands, Header;
    BlockMeaning(block, p, h);
    var pts := block.geometry.points;
    forall i | 4 * k <= i <= 4 * k + 3
      ensures -0.5 <= MmToBits(pts[i]) as real - 4000.0 * pts[i] <= 0.5
    {
      MmToBitsHalfBit(pts[i]);
    }
  }
}
