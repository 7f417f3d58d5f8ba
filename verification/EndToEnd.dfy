/** The chain from a stored, edited or generated job to the marks on the powder: the theorems that span the
    container reader, the compiler, the print protocol, the editor and the generator. */
module EndToEnd {
  import opened Wrappers
  import opened OvfModel
  import opened GeometryCompiler
  import opened Rtc6Board
  import opened PrintProtocol
  import opened WireFormat
  import opened LutCodec
  import opened OvfContainer
  import opened PrintController
  import JobEditor
  import Editor = ParameterEditorApp
  import Generator = OvfFileGenerator

  // ---------------------------------------------------------------------------------------------
  // What a job asks for
  // ---------------------------------------------------------------------------------------------

  /** Every block is well formed and the focus of every parameter set fits the controller's int. */
  ghost predicate PrintableJob(job: Job) {
    && (forall i, j :: 0 <= i < |job.planes| && 0 <= j < |job.planes[i].blocks| ==> WellFormed(job.planes[i].blocks[j]))
    && (forall k :: 0 <= k < |job.sets| ==> FitsInt(job.sets[k].params.focus))
  }

  lemma PlanePrintable(job: Job, i: nat)
    requires PrintableJob(job) && i < |job.planes|
    ensures Printable(job.planes[i].blocks, job.sets)
  {
    hide WellFormed, FitsInt;
    var blocks := job.planes[i].blocks;
    forall j | 0 <= j < |blocks|
      ensures var found := Find(job.sets, blocks[j].paramsKey); found.Some? ==> FitsInt(found.value.focus)
    {
      FindHasKey(job.sets, blocks[j].paramsKey);
    }
  }

  /** The commands of the job's layers. */
  ghost function LayersOf(job: Job): (layers: Layers)
    requires PrintableJob(job)
    ensures |layers| == |job.planes|
  {
    seq(|job.planes|, i requires 0 <= i < |job.planes| =>
      PlanePrintable(job, i); LayerCommands(job.planes[i].blocks, job.sets))
  }

  /** The exposures the first n layers ask for, read off the job's points and parameters. */
  ghost function ExposuresOf(job: Job, n: nat): seq<Exposure>
    requires PrintableJob(job) && n <= |job.planes|
  {
    if n == 0 then []
    else
      PlanePrintable(job, n - 1);
      ExposuresOf(job, n - 1) + LayerExposures(job.planes[n - 1].blocks, job.sets)
  }

  ghost function JobExposures(job: Job): seq<Exposure>
    requires PrintableJob(job)
  {
    ExposuresOf(job, |job.planes|)
  }

  lemma {:induction false} ConcatExposes(job: Job, n: nat, head: Head)
    requires PrintableJob(job) && n <= |job.planes|
    ensures Expose(Concat(LayersOf(job)[..n]), head) == ExposuresOf(job, n)
  {
    hide Printable, PrintableJob, Expose, MoveAll, LayerCommandsFrom, LayerExposuresFrom;
    var layers := LayersOf(job);
    if n == 0 {
      NothingExposes(head);
    } else {
      PlanePrintable(job, n - 1);
      ConcatExposes(job, n - 1, head);
      var before, last := Concat(layers[..n - 1]), layers[n - 1];
      assert layers[..n][..n - 1] == layers[..n - 1];
      ExposeConcat(before, last, head);
      LayerMeaning(job.planes[n - 1].blocks, job.sets, 0, MoveAll(before, head));
    }
  }

  lemma NothingExposes(head: Head)
    ensures Expose([], head) == []
  {
  }

  lemma {:induction false} ConcatPrefix(layers: Layers, n: nat)
    requires n <= |layers|
    ensures Concat(layers[..n]) <= Concat(layers)
    decreases |layers|
  {
    var k := |layers| - 1;
    if n == |layers| {
      assert layers[..n] == layers;
    } else {
      assert layers[..k][..n] == layers[..n];
      ConcatPrefix(layers[..k], n);
    }
  }

  lemma PrefixExposes(a: seq<Command>, b: seq<Command>, head: Head)
    requires a <= b
    ensures Expose(a, head) <= Expose(b, head)
  {
    hide Expose, MoveAll;
    ExposeConcat(a, b[|a|..], head);
    assert b == a + b[|a|..];
  }

  lemma {:induction false} ExecutedPrefix(first: ListId, layers: Layers, b0: Board, h: seq<Event>)
    requires JobRun(first, layers, b0, h)
    ensures Replay(b0, h).executed <= Concat(layers)
  {
    hide Replay, JobCalls, Accept, ValidRun, StartsIdle, Concat;
    AbortPrefix(first, layers, b0, h);
    ConcatPrefix(layers, Accept(first, layers, JobCalls(h)).value.layer);
  }

  /** The controller has made all its calls for the job. */
  ghost predicate FinishedRun(first: ListId, layers: Layers, b0: Board, h: seq<Event>) {
    JobRun(first, layers, b0, h) && Accept(first, layers, JobCalls(h)).value.stage.Done?
  }

  /** At every moment of every run, aborted ones included and whatever the head did before, what has been exposed is
      a beginning of what the job asks for: nothing is exposed twice, out of order, with another block's parameters,
      or in excess. When the run is done, everything has been exposed; when the board has come to rest with the
      controller at layer i, exactly what the layers before i ask for. */
  lemma {:induction false} EveryRunPrints(job: Job, first: ListId, b0: Board, h: seq<Event>, head: Head)
    requires PrintableJob(job) && JobRun(first, LayersOf(job), b0, h)
    ensures Expose(Replay(b0, h).executed, head) <= JobExposures(job)
    ensures FinishedRun(first, LayersOf(job), b0, h) ==> Expose(Replay(b0, h).executed, head) == JobExposures(job)
    ensures var i := Accept(first, LayersOf(job), JobCalls(h)).value.layer;
            && i <= |job.planes|
            && (Replay(b0, h).Idle() ==> Expose(Replay(b0, h).executed, head) == ExposuresOf(job, i))
  {
    hide Replay, JobCalls, Accept, ValidRun, StartsIdle, Expose, MoveAll, PrintableJob, LayersOf, Concat;
    var layers := LayersOf(job);
    ConcatExposes(job, |layers|, head);
    assert layers[..|layers|] == layers;
    ExecutedPrefix(first, layers, b0, h);
    PrefixExposes(Replay(b0, h).executed, Concat(layers), head);
    if FinishedRun(first, layers, b0, h) { Refinement(first, layers, b0, h); }
    AbortPrefix(first, layers, b0, h);
    ConcatExposes(job, Accept(first, layers, JobCalls(h)).value.layer, head);
  }

  /** Whatever the list it starts on, the board's past, the interleaving and the state of the head: a finished run of
      these layers sends the laser along this path; exposes exactly this. */
  ghost predicate AlwaysFollows(layers: Layers, path: seq<(Point, Point)>) {
    forall first, b0, h, head | FinishedRun(first, layers, b0, h) :: Path(Expose(Replay(b0, h).executed, head)) == path
  }

  ghost predicate AlwaysExposes(layers: Layers, es: seq<Exposure>) {
    forall first, b0, h, head | FinishedRun(first, layers, b0, h) :: Expose(Replay(b0, h).executed, head) == es
  }

  lemma {:induction false} FinishedRunsPrint(job: Job)
    requires PrintableJob(job)
    ensures AlwaysExposes(LayersOf(job), JobExposures(job))
    ensures AlwaysFollows(LayersOf(job), Path(JobExposures(job)))
  {
    hide PrintableJob, LayersOf, Accept, JobCalls, Replay, Expose, ValidRun, StartsIdle;
    forall first, b0, h, head | FinishedRun(first, LayersOf(job), b0, h)
      ensures Expose(Replay(b0, h).executed, head) == JobExposures(job)
    {
      EveryRunPrints(job, first, b0, h, head);
    }
  }

  /** Where the laser goes, without the parameters it goes with. */
  function Path(es: seq<Exposure>): (path: seq<(Point, Point)>)
    ensures |path| == |es|
  {
    seq(|es|, k requires 0 <= k < |es| => (es[k].start, es[k].end))
  }

  // ---------------------------------------------------------------------------------------------
  // Stored jobs
  // ---------------------------------------------------------------------------------------------

  /** The job a container stores: its shell with, for every plane, the plane's shell and blocks. */
  function StoredJob(shell: Job, images: seq<PlaneImage>): Job {
    shell.(planes := seq(|images|, i requires 0 <= i < |images| =>
      images[i].shell.(blocks := images[i].shell.blocks + images[i].blocks)))
  }

  lemma {:induction false} FetchedLayers(job: Job, f: Fetched)
    requires PrintableJob(job) && |f| == |job.planes|
    requires forall i :: 0 <= i < |f| ==> f[i] == Success(job.planes[i])
    ensures AllPrintable(f, job.sets) && Planned(f, job.sets) == LayersOf(job)
    ensures Expected(f, job.sets, 0).Completed? <==> Resolves(job)
  {
    hide PrintableJob, Printable, LayerCommands, BlocksResolve;
    forall i: nat | i < |f| ensures Printable(f[i].value.blocks, job.sets) { PlanePrintable(job, i); }
    ExpectedIsFirst(f, job.sets, 0);
    assert forall i :: 0 <= i < |f| ==> f[i].value == job.planes[i];
  }

  /** From the bytes of a container to the marks: a printable job, stored in any physical order, is printed to the end
      if and only if all its keys resolve, and every finished run of the layers planned from the bytes exposes exactly
      what the stored job asks for. */
  lemma {:induction false} StoredJobPrints(
      codecs: Codecs, bytes: seq<byte>, jobLutPos: int64, jobLut: Lut, jobBytes: seq<byte>,
      shell: Job, images: seq<PlaneImage>)
    requires Layout(codecs, bytes, jobLutPos, jobLut, jobBytes, shell, images)
    requires PrintableJob(StoredJob(shell, images))
    ensures FilePrintable(codecs, bytes)
    ensures var (contents, luts) := Contents(codecs, bytes);
            && contents == Success(Container(shell, luts))
            && var f := Fetch(codecs, bytes, luts);
               && AllPrintable(f, shell.sets)
               && (Expected(f, shell.sets, 0).Completed? <==> Resolves(StoredJob(shell, images)))
               && Planned(f, shell.sets) == LayersOf(StoredJob(shell, images))
               && AlwaysExposes(Planned(f, shell.sets), JobExposures(StoredJob(shell, images)))
  {
    hide Layout, Contents, PlaneAt, PrintableJob, AllPrintable, Planned, Expected, Resolves, LayersOf,
         AlwaysExposes, AlwaysFollows;
    LayoutReads(codecs, bytes, jobLutPos, jobLut, jobBytes, shell, images);
    var luts := Contents(codecs, bytes).1;
    var job, f := StoredJob(shell, images), Fetch(codecs, bytes, luts);
    FetchedLayers(job, f);
    FinishedRunsPrint(job);
  }

  // ---------------------------------------------------------------------------------------------
  // Edited jobs
  // ---------------------------------------------------------------------------------------------

  lemma PathConcat(a: seq<Exposure>, b: seq<Exposure>)
    ensures Path(a + b) == Path(a) + Path(b)
  {
  }

  lemma SameGeometrySamePath(a: VectorBlock, b: VectorBlock, p: MarkingParams, q: MarkingParams)
    requires WellFormed(a) && a.geometry == b.geometry
    ensures WellFormed(b) && Path(BlockExposures(a, p)) == Path(BlockExposures(b, q))
  {
    hide Vertex, FitsInt;
  }

  lemma {:induction false} SameLayerPath(p: WorkPlane, q: WorkPlane, sets: seq<ParamSet>, sets': seq<ParamSet>, j: nat)
    requires JobEditor.SamePlaneUpToKeys(p, q) && j <= |p.blocks|
    requires Printable(p.blocks, sets) && Printable(q.blocks, sets')
    requires BlocksResolve(p.blocks, sets) && BlocksResolve(q.blocks, sets')
    ensures Path(LayerExposuresFrom(p.blocks, sets, j)) == Path(LayerExposuresFrom(q.blocks, sets', j))
    decreases |p.blocks| - j
  {
    hide WellFormed, FitsInt, BlockExposures, Find;
    if j < |p.blocks| {
      var a, b := p.blocks[j], q.blocks[j];
      FindHasKey(sets, a.paramsKey);
      FindHasKey(sets', b.paramsKey);
      SameLayerPath(p, q, sets, sets', j + 1);
      var u, v := Find(sets, a.paramsKey).value, Find(sets', b.paramsKey).value;
      SameGeometrySamePath(a, b, u, v);
      PathConcat(BlockExposures(a, u), LayerExposuresFrom(p.blocks, sets, j + 1));
      PathConcat(BlockExposures(b, v), LayerExposuresFrom(q.blocks, sets', j + 1));
    }
  }

  lemma {:induction false} SameRequestedPath(a: Job, b: Job, n: nat)
    requires PrintableJob(a) && PrintableJob(b) && Resolves(a) && Resolves(b)
    requires JobEditor.SameUpToKeys(a.planes, b.planes) && n <= |a.planes|
    ensures Path(ExposuresOf(a, n)) == Path(ExposuresOf(b, n))
  {
    hide PrintableJob, Printable, BlocksResolve, LayerExposuresFrom, JobEditor.SamePlaneUpToKeys;
    if n > 0 {
      PlanePrintable(a, n - 1);
      PlanePrintable(b, n - 1);
      SameRequestedPath(a, b, n - 1);
      var p, q := a.planes[n - 1], b.planes[n - 1];
      SameLayerPath(p, q, a.sets, b.sets, 0);
      PathConcat(ExposuresOf(a, n - 1), LayerExposures(p.blocks, a.sets));
      PathConcat(ExposuresOf(b, n - 1), LayerExposures(q.blocks, b.sets));
    }
  }

  /** Jobs that differ in block keys and parameter sets only: the commands of their first n layers send the laser along
      the same path, whatever the two heads did before. */
  lemma {:induction false} SameJobPath(a: Job, b: Job, n: nat, headA: Head, headB: Head)
    requires PrintableJob(a) && PrintableJob(b) && Resolves(a) && Resolves(b)
    requires JobEditor.SameUpToKeys(a.planes, b.planes) && n <= |a.planes|
    ensures Path(Expose(Concat(LayersOf(a)[..n]), headA)) == Path(Expose(Concat(LayersOf(b)[..n]), headB))
  {
    hide PrintableJob, Resolves, Expose, Concat, LayersOf;
    ConcatExposes(a, n, headA);
    ConcatExposes(b, n, headB);
    SameRequestedPath(a, b, n);
  }

  lemma EditedPrintable(file: Job, job: Job)
    requires PrintableJob(file) && Editor.Extends(file, job)
    ensures PrintableJob(job)
  {
    hide FitsInt, Resolves, UniqueKeys;
    ZeroFocusFits();
    forall k | 0 <= k < |job.sets| ensures FitsInt(job.sets[k].params.focus) {
      if k < |file.sets| { assert job.sets[k] == file.sets[k]; }
    }
    forall i, j | 0 <= i < |job.planes| && 0 <= j < |job.planes[i].blocks|
      ensures WellFormed(job.planes[i].blocks[j])
    {
      assert JobEditor.SamePlaneUpToKeys(file.planes[i], job.planes[i]);
      assert WellFormed(file.planes[i].blocks[j]);
    }
  }

  lemma ZeroFocusFits()
    ensures FitsInt(0.0)
  {
  }

  /** From the editor to the marks: whatever a user does in the editor, the job saved from a printable file whose keys
      resolve is printable, prints to the end without a configuration error, and every finished run of it sends the
      laser along exactly the path every finished run of the original does; only speed, focus and power may differ. */
  lemma {:induction false} EditedJobPrints(file: Job, actions: seq<Editor.Action>)
    requires PrintableJob(file) && Resolves(file)
    requires Editor.Run(file, Editor.Loaded(file), actions).saved.Some?
    ensures var saved := Editor.Run(file, Editor.Loaded(file), actions).saved.value;
            && PrintableJob(saved) && Resolves(saved)
            && AlwaysFollows(LayersOf(file), Path(JobExposures(file)))
            && AlwaysFollows(LayersOf(saved), Path(JobExposures(file)))
            && forall f :: |f| == |saved.planes| && (forall i :: 0 <= i < |f| ==> f[i] == Success(saved.planes[i])) ==>
                 Expected(f, saved.sets, 0) == Completed
  {
    hide PrintableJob, Resolves, Editor.Run, Expected, LayersOf, AlwaysFollows, AlwaysExposes;
    Editor.RunExtends(file, actions);
    var saved := Editor.Run(file, Editor.Loaded(file), actions).saved.value;
    EditedPrintable(file, saved);
    SameRequestedPath(file, saved, |file.planes|);
    FinishedRunsPrint(file);
    FinishedRunsPrint(saved);
    forall f: Fetched | |f| == |saved.planes| && (forall i :: 0 <= i < |f| ==> f[i] == Success(saved.planes[i]))
      ensures Expected(f, saved.sets, 0) == Completed
    {
      FetchedLayers(saved, f);
    }
  }

  // ---------------------------------------------------------------------------------------------
  // Generated jobs
  // ---------------------------------------------------------------------------------------------

  lemma HalfSquareFits()
    ensures FitsInt(Generator.SQUARE_SIZE / 2.0)
  {
    assert 10.0 * MM_TO_BITS == 40000.0;
  }

  lemma GeneratedJobPrintable(layers: int)
    ensures PrintableJob(Generator.GeneratedJob(layers)) && Resolves(Generator.GeneratedJob(layers))
  {
    hide WellFormed, BlocksResolve, Generator.SquareBlocks;
    HalfSquareFits();
    hide FitsInt;
    Generator.GeneratedPrintable(Generator.SQUARE_SIZE, Generator.HATCH_SPACING);
    ZeroFocusFits();
    var job := Generator.GeneratedJob(layers);
    var blocks := Generator.SquareBlocks(Generator.Square(0.0, 0.0, Generator.SQUARE_SIZE), Generator.HATCH_SPACING);
    assert forall i :: 0 <= i < |job.planes| ==> job.planes[i].blocks == blocks;
  }

  /** The exposures of one generated layer. */
  ghost function SquareExposures(): seq<Exposure> {
    HalfSquareFits();
    Generator.GeneratedPrintable(Generator.SQUARE_SIZE, Generator.HATCH_SPACING);
    LayerExposures(Generator.SquareBlocks(Generator.Square(0.0, 0.0, Generator.SQUARE_SIZE), Generator.HATCH_SPACING),
                   Generator.DEFAULT_SETS)
  }

  /** The commands of a generated job. */
  ghost function GeneratedLayers(layers: nat): Layers {
    GeneratedJobPrintable(layers);
    LayersOf(Generator.GeneratedJob(layers))
  }

  ghost function Repeated<T>(s: seq<T>, n: nat): seq<T> {
    if n == 0 then [] else Repeated(s, n - 1) + s
  }

  lemma {:induction false} GeneratedExposures(layers: nat, n: nat)
    requires n <= layers && PrintableJob(Generator.GeneratedJob(layers))
    ensures ExposuresOf(Generator.GeneratedJob(layers), n) == Repeated(SquareExposures(), n)
  {
    hide PrintableJob, Generator.SquareBlocks, LayerExposuresFrom;
    if n > 0 { GeneratedExposures(layers, n - 1); }
  }

  lemma GeneratedLine(j: nat)
    ensures MmToBits(Generator.LineY(Generator.Square(0.0, 0.0, Generator.SQUARE_SIZE), Generator.HATCH_SPACING, j))
            == 4000 * j - 40000
  {
    hide MmToBits;
    MmToBitsShape(j as real - 10.0, 0.0, 4000 * j - 40000);
  }

  lemma GeneratedLineCount()
    ensures Generator.LineCount(Generator.SQUARE_SIZE, Generator.HATCH_SPACING) == 21
    ensures MmToBits(Generator.SQUARE_SIZE / 2.0) == 40000
  {
    hide MmToBits;
    MmToBitsShape(10.0, 0.0, 40000);
  }

  /** The parameters a block is exposed under are its own. */
  lemma {:induction false} BlockExposedUnder(block: VectorBlock, p: MarkingParams, k: nat)
    requires WellFormed(block) && k < |BlockExposures(block, p)|
    ensures var e := BlockExposures(block, p)[k];
            e.speed == p.speed && -0.5 <= e.focus as real - 4000.0 * p.focus <= 0.5 && StandsFor(e.dac, p.power)
  {
    hide BlockExposures, CompileBlock, Expose, StandsFor;
    var h := Head(Point(0, 0), 0.0, 0, 0);
    BlockMeaning(block, p, h);
    BlockParameters(block, p, h, k);
  }

  /** One generated layer: the four sides of the square, and 21 hatches from its left to its right edge, 4000 bits
      apart. */
  lemma {:induction false} SquareExposed()
    ensures var es := SquareExposures();
            && |es| == 25 && Generator.Outline(es, 40000)
            && forall j :: 0 <= j < 21 ==>
                 && es[4 + j].start == Point(-40000, 4000 * j - 40000)
                 && es[4 + j].end == Point(40000, 4000 * j - 40000)
  {
    hide MmToBits, FitsInt, LayerExposures, Generator.SquareBlocks, Generator.Outline, Generator.InSquare, Printable,
         BlocksResolve, Generator.LineCount, Generator.LineY;
    HalfSquareFits();
    GeneratedLineCount();
    Generator.LayerShape(Generator.SQUARE_SIZE, Generator.HATCH_SPACING);
    forall j: nat | j < 21
      ensures SquareExposures()[4 + j].start == Point(-40000, 4000 * j - 40000)
      ensures SquareExposures()[4 + j].end == Point(40000, 4000 * j - 40000)
    {
      GeneratedLine(j);
    }
  }

  /** A generated layer is exposed at 100 mm/s, without focus shift and with the laser off. */
  lemma {:induction false} SquareExposedUnder(k: nat)
    requires k < 25
    ensures |SquareExposures()| == 25
    ensures var e := SquareExposures()[k]; e.speed == 100.0 && e.focus == 0 && e.dac == 0
  {
    hide BlockExposures, LayerExposures, FitsInt, WellFormed;
    var sq, spacing := Generator.Square(0.0, 0.0, Generator.SQUARE_SIZE), Generator.HATCH_SPACING;
    var blocks, p := Generator.SquareBlocks(sq, spacing), MarkingParams(0.0, 100.0, 0.0);
    assert |blocks| == 2;
    hide Generator.SquareBlocks, Generator.Outline;
    SquareExposed();
    HalfSquareFits();
    Generator.GeneratedPrintable(Generator.SQUARE_SIZE, spacing);
    Generator.GeneratedExposures(sq, spacing);
    var n := |BlockExposures(blocks[0], p)|;
    if k < n { BlockExposedUnder(blocks[0], p, k); } else { BlockExposedUnder(blocks[1], p, k - n); }
  }

  /** From the generator to the marks: for any number of layers, a finished print of the generated file exposes that
      many times the same square with its hatches, and nothing else. */
  lemma {:induction false} GeneratedJobPrints(layers: nat)
    ensures AlwaysExposes(GeneratedLayers(layers), Repeated(SquareExposures(), layers))
  {
    hide PrintableJob, LayersOf, AlwaysExposes, AlwaysFollows, SquareExposures;
    GeneratedJobPrintable(layers);
    FinishedRunsPrint(Generator.GeneratedJob(layers));
    GeneratedExposures(layers, layers);
  }
}
