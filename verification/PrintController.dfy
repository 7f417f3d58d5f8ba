/** PrintController: the layer loop, and what whole runs of it do to the board. */
module PrintController {
  import opened Wrappers
  import opened OvfModel
  import opened WireFormat
  import opened LutCodec
  import opened OvfContainer
  import opened GeometryCompiler
  import opened Rtc6Board
  import opened PrintProtocol
  import opened Handlers

  /** How processOvfJob ends: normally, or with the exception raised for a layer. */
  datatype Outcome =
    | Completed
    | FileParseError(layer: nat)
    | ConfigurationError(layer: nat)

  /** What a run returns or throws before or during the job. */
  datatype RunResult = SetupFailed | OpenFailed(error: OpenError) | Printed(outcome: Outcome)

  /** The layers of the opened file, each as fetching it turns out. */
  type Fetched = seq<Result<WorkPlane, PlaneError>>

  ghost function Fetch(codecs: Codecs, bytes: seq<byte>, luts: seq<Lut>): (f: Fetched)
    ensures |f| == |luts|
  {
    seq(|luts|, i requires 0 <= i < |luts| => PlaneAt(codecs, bytes, luts, i))
  }

  ghost predicate AllPrintable(f: Fetched, sets: seq<ParamSet>) {
    forall i :: 0 <= i < |f| && f[i].Success? ==> Printable(f[i].value.blocks, sets)
  }

  /** The commands written for each layer if the loop gets that far. */
  ghost function Planned(f: Fetched, sets: seq<ParamSet>): (layers: Layers)
    requires AllPrintable(f, sets)
    ensures |layers| == |f|
  {
    seq(|f|, i requires 0 <= i < |f| => if f[i].Success? then LayerCommands(f[i].value.blocks, sets) else [])
  }

  /** The outcome of the layers from i on: that of the first layer that cannot be fetched or names a parameter
      set that does not exist. */
  ghost function Expected(f: Fetched, sets: seq<ParamSet>, i: nat): Outcome
    requires i <= |f|
    ensures var o := Expected(f, sets, i); !o.Completed? ==> i <= o.layer < |f|
    decreases |f| - i
  {
    if i == |f| then Completed
    else if f[i].Failure? then FileParseError(i)
    else if !BlocksResolve(f[i].value.blocks, sets) then ConfigurationError(i)
    else Expected(f, sets, i + 1)
  }

  /** Which layer stops the job, if any: the first one that cannot be fetched or does not resolve. */
  lemma {:induction false} ExpectedIsFirst(f: Fetched, sets: seq<ParamSet>, i: nat)
    requires i <= |f|
    ensures Expected(f, sets, i).Completed? <==>
              forall k :: i <= k < |f| ==> f[k].Success? && BlocksResolve(f[k].value.blocks, sets)
    ensures var o := Expected(f, sets, i);
            !o.Completed? ==>
              && (forall k :: i <= k < o.layer ==> f[k].Success? && BlocksResolve(f[k].value.blocks, sets))
              && (o.FileParseError? <==> f[o.layer].Failure?)
              && (o.ConfigurationError? ==> !BlocksResolve(f[o.layer].value.blocks, sets))
    decreases |f| - i
  {
    hide BlocksResolve;
    if i < |f| && f[i].Success? && BlocksResolve(f[i].value.blocks, sets) { ExpectedIsFirst(f, sets, i + 1); }
  }

  /** Every plane of the file that can be fetched is well-formed geometry. */
  ghost predicate FilePrintable(codecs: Codecs, bytes: seq<byte>) {
    match Contents(codecs, bytes)
    case (Failure(_), _) => true
    case (Success(c), luts) => AllPrintable(Fetch(codecs, bytes, luts), c.shell.sets)
  }

  /** Where the controller's calls stop for each outcome. */
  ghost function StopsAt(layers: Layers, outcome: Outcome): Pc
    requires outcome.ConfigurationError? ==> outcome.layer < |layers|
  {
    match outcome
    case Completed => Pc(|layers|, Done)
    case FileParseError(i) => Pc(i, Open)
    case ConfigurationError(i) => Pc(i, Fill(|layers[i]|))
  }

  /** Writing commands moves the acceptor along the layer it fills. */
  lemma {:induction false} AcceptAdds(first: ListId, layers: Layers, calls: seq<Event>, i: nat, cmds: seq<Command>)
    requires i < |layers| && cmds <= layers[i]
    requires Accept(first, layers, calls) == Some(Pc(i, Fill(0)))
    ensures Accept(first, layers, calls + Adds(cmds)) == Some(Pc(i, Fill(|cmds|)))
  {
    hide Accept;
    if cmds == [] {
      assert calls + Adds(cmds) == calls;
    } else {
      var k := |cmds| - 1;
      AcceptAdds(first, layers, calls, i, cmds[..k]);
      assert calls + Adds(cmds) == calls + Adds(cmds[..k]) + [AddCommand(cmds[k])];
      AcceptSnoc(first, layers, calls + Adds(cmds[..k]), AddCommand(cmds[k]));
    }
  }

  /** The history h is a run of the job, and the controller is at pc. */
  ghost predicate RunAt(first: ListId, layers: Layers, b0: Board, h: seq<Event>, pc: Pc) {
    JobRun(first, layers, b0, h) && Accept(first, layers, JobCalls(h)) == Some(pc)
  }

  /** The next call of the protocol moves the controller on, whatever the board did meanwhile. */
  lemma MakesCall(first: ListId, layers: Layers, b0: Board, h: seq<Event>, h': seq<Event>, pc: Pc, e: Event)
    requires RunAt(first, layers, b0, h, pc) && h <= h' && ValidRun(b0, h')
    requires JobCalls(h') == JobCalls(h) + [e] && HostStep(first, layers, pc, e).Some?
    ensures RunAt(first, layers, b0, h', HostStep(first, layers, pc, e).value)
  {
    StartsIdleExtends(b0, h, h');
    AcceptSnoc(first, layers, JobCalls(h), e);
  }

  /** Time passing changes nothing for the controller. */
  lemma LetsTimePass(first: ListId, layers: Layers, b0: Board, h: seq<Event>, h': seq<Event>, pc: Pc)
    requires RunAt(first, layers, b0, h, pc) && h <= h' && ValidRun(b0, h') && JobCalls(h') == JobCalls(h)
    ensures RunAt(first, layers, b0, h', pc)
  {
    StartsIdleExtends(b0, h, h');
  }

  lemma MakesAdds(first: ListId, layers: Layers, b0: Board, h: seq<Event>, h': seq<Event>, i: nat)
    requires i < |layers| && RunAt(first, layers, b0, h, Pc(i, Fill(0))) && h <= h' && ValidRun(b0, h')
    requires JobCalls(h') == JobCalls(h) + Adds(layers[i])
    ensures RunAt(first, layers, b0, h', Pc(i, Fill(|layers[i]|)))
  {
    StartsIdleExtends(b0, h, h');
    AcceptAdds(first, layers, JobCalls(h), i, layers[i]);
  }

  class PrintController {
    const communicator: Rtc6Communicator
    const parser: OvfParser
    const listHandler: ListHandler
    const geoHandler: GeometryHandler
    const rtcApi: RtcApi

    constructor (communicator: Rtc6Communicator, parser: OvfParser, listHandler: ListHandler,
                 geoHandler: GeometryHandler)
      ensures this.communicator == communicator && this.parser == parser
      ensures this.listHandler == listHandler && this.geoHandler == geoHandler && rtcApi == listHandler.rtcApi
    {
      this.communicator, this.parser := communicator, parser;
      this.listHandler, this.geoHandler := listHandler, geoHandler;
      rtcApi := listHandler.rtcApi;
    }

    /** The collaborators are wired to each other as main wires them. */
    ghost predicate Wired()
      reads rtcApi
    {
      && listHandler.rtcApi == rtcApi && communicator.rtcApi == rtcApi
      && listHandler.communicator == communicator && geoHandler.listHandler == listHandler
      && rtcApi.Valid()
    }

    ghost function Calls(): seq<Event>
      reads rtcApi
    {
      JobCalls(rtcApi.history)
    }

    /** The job, whose first layer goes to the given list, is at the given point of the protocol. */
    ghost predicate At(first: ListId, layers: Layers, pc: Pc)
      reads this, rtcApi, listHandler, communicator
    {
      && Wired() && communicator.successfullySetup
      && RunAt(first, layers, rtcApi.initial, rtcApi.history, pc)
      && listHandler.currentListIdForFilling == ListOf(first, pc.layer)
      && (pc.layer > 0 ==> listHandler.lastExecutedListId == ListOf(first, pc.layer - 1))
    }

    /** Writes the blocks in order, up to the first key that does not resolve. */
    method ProcessBlocks(blocks: seq<VectorBlock>, sets: seq<ParamSet>) returns (ok: bool)
      requires Wired() && Printable(blocks, sets)
      modifies rtcApi
      ensures Wired() && Grows(old(rtcApi.history), rtcApi.history) && (ok <==> BlocksResolve(blocks, sets))
      ensures Calls() == old(Calls()) + Adds(LayerCommands(blocks, sets))
    {
      hide ValidRun, Replay, JobCalls, Find, CompileBlock, WellFormed, FitsInt;
      ghost var start := Calls();
      ghost var done := [];
      assert start + Adds(done) == start;
      for j := 0 to |blocks|
        invariant Wired() && Grows(old(rtcApi.history), rtcApi.history)
        invariant forall k :: 0 <= k < j ==> HasKey(sets, blocks[k].paramsKey)
        invariant Calls() == start + Adds(done)
        invariant done + LayerCommandsFrom(blocks, sets, j) == LayerCommands(blocks, sets)
      {
        FindHasKey(sets, blocks[j].paramsKey);
        var params := Find(sets, blocks[j].paramsKey);
        if params.None? {
          assert done + [] == done;
          return false;
        }
        AddsConcat(start, done, CompileBlock(blocks[j], params.value));
        geoHandler.ProcessVectorBlock(blocks[j], params.value);
        done := done + CompileBlock(blocks[j], params.value);
      }
      assert done + [] == done;
      ok := true;
    }

    method BeginLayer(ghost first: ListId, ghost layers: Layers, ghost i: nat)
      requires At(first, layers, Pc(i, Open)) && i < |layers|
      modifies rtcApi
      ensures Grows(old(rtcApi.history), rtcApi.history)
      ensures At(first, layers, Pc(i, Fill(0)))
    {
      hide ValidRun, StartsIdle, Replay, JobCalls, Accept;
      var begun := listHandler.BeginListPreparation();
      MakesCall(first, layers, rtcApi.initial, old(rtcApi.history), rtcApi.history, Pc(i, Open),
                SetStartList(ListOf(first, i)));
    }

    method EndLayer(ghost first: ListId, ghost layers: Layers, ghost i: nat)
      requires i < |layers| && At(first, layers, Pc(i, Fill(|layers[i]|)))
      modifies rtcApi
      ensures Grows(old(rtcApi.history), rtcApi.history)
      ensures At(first, layers, Pc(i, if i == 0 then Execute else Wait))
    {
      hide ValidRun, StartsIdle, Replay, JobCalls, Accept;
      listHandler.EndListPreparation();
      MakesCall(first, layers, rtcApi.initial, old(rtcApi.history), rtcApi.history, Pc(i, Fill(|layers[i]|)),
                SetEndOfList);
    }

    /** Opens the layer's list, writes its blocks and ends the list; an unresolved key stops it before the end. */
    method PrepareLayer(workPlane: WorkPlane, jobShell: Job, ghost first: ListId, ghost layers: Layers, ghost i: nat)
      returns (ok: bool)
      requires At(first, layers, Pc(i, Open)) && i < |layers|
      requires Printable(workPlane.blocks, jobShell.sets) && layers[i] == LayerCommands(workPlane.blocks, jobShell.sets)
      modifies rtcApi
      ensures ok <==> BlocksResolve(workPlane.blocks, jobShell.sets)
      ensures Grows(old(rtcApi.history), rtcApi.history)
      ensures At(first, layers, if ok then Pc(i, if i == 0 then Execute else Wait) else Pc(i, Fill(|layers[i]|)))
    {
      hide ValidRun, StartsIdle, Replay, JobCalls, Accept;
      BeginLayer(first, layers, i);
      ghost var h := rtcApi.history;
      ok := ProcessBlocks(workPlane.blocks, jobShell.sets);
      MakesAdds(first, layers, rtcApi.initial, h, rtcApi.history, i);
      if ok { EndLayer(first, layers, i); }
    }

    /** One poll: a busy answer leaves the controller waiting, with the board having less work left. */
    method Poll(listId: nat, ghost first: ListId, ghost layers: Layers, ghost i: nat) returns (busy: bool)
      requires At(first, layers, Pc(i, Wait)) && 0 < i <= |layers| && listId == ListOf(first, i - 1)
      modifies rtcApi
      ensures Grows(old(rtcApi.history), rtcApi.history)
      ensures At(first, layers, Pc(i, if busy then Wait else Recoat))
      ensures busy ==> Work(rtcApi.state) < old(Work(rtcApi.state))
    {
      hide ValidRun, StartsIdle, Replay, JobCalls, Accept;
      ghost var word: bv32;
      busy, word := listHandler.IsListBusy(listId);
      MakesCall(first, layers, rtcApi.initial, old(rtcApi.history), rtcApi.history, Pc(i, Wait), ReadStatus(word));
      if busy {
        NoStall(first, layers, rtcApi.initial, rtcApi.history);
        ghost var h := rtcApi.history;
        rtcApi.ElapsePollDelay();
        LetsTimePass(first, layers, rtcApi.initial, h, rtcApi.history, Pc(i, Wait));
      }
    }

    /** Polls until the list is free, then lets the powder be spread. It ends because the board uses up work
        between two polls, and it only ever asks a ready board about list 1 or 2. */
    method WaitForPreviousLayer(listId: nat, ghost first: ListId, ghost layers: Layers, ghost i: nat)
      requires At(first, layers, Pc(i, if i == 0 then Execute else Wait)) && i <= |layers| && |layers| > 0
      requires listId == if i == 0 then 0 else listHandler.lastExecutedListId
      modifies rtcApi
      ensures Grows(old(rtcApi.history), rtcApi.history)
      ensures At(first, layers, Pc(i, if i < |layers| then Execute else Done))
    {
      hide ValidRun, StartsIdle, Replay, JobCalls, Accept;
      if listId == 0 { return; }
      var busy := true;
      while busy
        invariant Grows(old(rtcApi.history), rtcApi.history)
        invariant At(first, layers, Pc(i, if busy then Wait else Recoat))
        decreases busy, Work(rtcApi.state)
      {
        busy := Poll(listId, first, layers, i);
      }
      ghost var h := rtcApi.history;
      rtcApi.Call(RecoatDelay);
      MakesCall(first, layers, rtcApi.initial, h, rtcApi.history, Pc(i, Recoat), RecoatDelay);
    }

    method ExecuteLayer(ghost first: ListId, ghost layers: Layers, ghost i: nat)
      requires At(first, layers, Pc(i, Execute)) && i < |layers|
      modifies rtcApi, listHandler
      ensures Grows(old(rtcApi.history), rtcApi.history)
      ensures At(first, layers, Pc(i + 1, if i + 1 < |layers| then Open else Wait))
    {
      hide ValidRun, StartsIdle, Replay, JobCalls, Accept;
      var executed := listHandler.ExecuteCurrentListAndCycle();
      MakesCall(first, layers, rtcApi.initial, old(rtcApi.history), rtcApi.history, Pc(i, Execute),
                ExecuteList(ListOf(first, i)));
    }

    /** Layer by layer: fetch, prepare, wait for the layer before, execute. The history this produces is one of
        the protocol's, and it ends where the outcome says. The ghost parameters name what the opened file holds
        and the commands planned from it. */
    method ProcessOvfJob(ghost f: Fetched, ghost first: ListId, ghost layers: Layers) returns (outcome: Outcome)
      requires parser.file.isOpen && f == Fetch(parser.codecs, parser.file.content, parser.planeLuts)
      requires AllPrintable(f, parser.jobShell.sets) && layers == Planned(f, parser.jobShell.sets)
      requires At(first, layers, Start(layers))
      modifies rtcApi, listHandler, parser.file`pos, parser.file`eof, parser.file`fail
      ensures Grows(old(rtcApi.history), rtcApi.history)
      ensures outcome == Expected(f, parser.jobShell.sets, 0) && At(first, layers, StopsAt(layers, outcome))
    {
      hide RunAt, JobCalls, ValidRun, Replay, Printable, PlaneAt, LayerCommands, Find,
           BlocksResolve;
      var numLayers := |parser.planeLuts|;
      if numLayers == 0 { return Completed; }
      var lastListExecuted := 0;
      for i := 0 to numLayers
        invariant Grows(old(rtcApi.history), rtcApi.history)
        invariant At(first, layers, Pc(i, if i < |layers| then Open else Wait))
        invariant lastListExecuted == if i == 0 then 0 else listHandler.lastExecutedListId
        invariant Expected(f, parser.jobShell.sets, 0) == Expected(f, parser.jobShell.sets, i)
      {
        var workPlane := parser.GetWorkPlane(i);
        assert workPlane == f[i];
        if workPlane.Failure? { return FileParseError(i); }
        var prepared := PrepareLayer(workPlane.value, parser.jobShell, first, layers, i);
        if !prepared { return ConfigurationError(i); }
        WaitForPreviousLayer(lastListExecuted, first, layers, i);
        ExecuteLayer(first, layers, i);
        lastListExecuted := listHandler.lastExecutedListId;
      }
      WaitForPreviousLayer(lastListExecuted, first, layers, numLayers);
      outcome := Completed;
    }

    /** One run from start to end, for any answers of the DLL and any files, whatever the controller, the list handler
        and the board did before: no job call unless setup succeeded in full and the file opened; otherwise the layer
        loop's history, on the board, behind the setup calls, starting on the list next to be filled. */
    method Run(files: map<string, seq<byte>>, path: string, answers: DllAnswers) returns (r: RunResult)
      requires Wired()
      requires path in files ==> FilePrintable(parser.codecs, files[path])
      modifies communicator, rtcApi, listHandler, parser, parser.file
      ensures rtcApi.Valid()
      ensures Grows(old(rtcApi.history) + SetupCalls(old(communicator.boardId), answers), rtcApi.history)
      ensures !r.Printed? ==> rtcApi.history == old(rtcApi.history) + SetupCalls(old(communicator.boardId), answers)
      ensures !SetupOk(answers) ==> r == SetupFailed
      ensures SetupOk(answers) && path !in files ==> r == OpenFailed(CannotOpen)
      ensures SetupOk(answers) && path in files ==>
                match Contents(parser.codecs, files[path])
                case (Failure(e), _) => r == OpenFailed(e)
                case (Success(c), luts) =>
                  var f := Fetch(parser.codecs, files[path], luts);
                  var layers := Planned(f, c.shell.sets);
                  var outcome := Expected(f, c.shell.sets, 0);
                  && r == Printed(outcome)
                  && RunAt(old(listHandler.currentListIdForFilling), layers, rtcApi.initial, rtcApi.history,
                           StopsAt(layers, outcome))
                  && rtcApi.state.executed <= Concat(layers[..StopsAt(layers, outcome).layer])
                  && (outcome.Completed? ==> rtcApi.state.Idle() && rtcApi.state.executed == Concat(layers))
    {
      hide ValidRun, Replay, JobCalls, StartsIdle, Contents;
      var connected := communicator.ConnectAndSetupBoard(answers);
      if !connected { return SetupFailed; }
      var opening := parser.OpenFile(files, path);
      if opening.Failure? { return OpenFailed(opening.error); }
      ghost var first := listHandler.currentListIdForFilling;
      ghost var f := Fetch(parser.codecs, parser.file.content, parser.planeLuts);
      ghost var layers := Planned(f, parser.jobShell.sets);
      var outcome := ProcessOvfJob(f, first, layers);
      AbortPrefix(first, layers, rtcApi.initial, rtcApi.history);
      if outcome.Completed? { Refinement(first, layers, rtcApi.initial, rtcApi.history); }
      r := Printed(outcome);
    }
  }
}
