/** The ping-pong print protocol: the calls PrintController::processOvfJob makes, as an acceptor, and the
    theorems about every history in which those calls interleave with the board's own steps. */
module PrintProtocol {
  import opened Wrappers
  import opened GeometryCompiler
  import opened Rtc6Board

  /** The commands written for each layer, in layer order. */
  type Layers = seq<seq<Command>>

  /** The layers go to the two lists by turns, the first one to the list the controller is about to fill: in a program
      that has just started, layer i goes to list 1 + i mod 2. */
  function ListOf(first: ListId, i: nat): (k: ListId)
    ensures first == 1 ==> k == 1 + i % 2
  {
    if i % 2 == 0 then first else 3 - first
  }

  datatype Stage =
    | Open          // about to open the layer's list
    | Fill(n: nat)  // n commands of the layer are written
    | Wait          // polling the previous layer's list
    | Recoat        // the previous layer is done, the powder is not spread yet
    | Execute       // about to start the layer's list
    | Done

  datatype Pc = Pc(layer: nat, stage: Stage)

  function Start(layers: Layers): Pc { Pc(0, if layers == [] then Done else Open) }

  /** Where the controller is after its next call, or None if it would not make that call here. */
  function HostStep(first: ListId, layers: Layers, pc: Pc, e: Event): Option<Pc> {
    var i := pc.layer;
    match pc.stage
    case Open =>
      if i < |layers| && e == SetStartList(ListOf(first, i)) then Some(Pc(i, Fill(0))) else None
    case Fill(n) =>
      if i >= |layers| then None
      else if n < |layers[i]| && e == AddCommand(layers[i][n]) then Some(Pc(i, Fill(n + 1)))
      else if n == |layers[i]| && e == SetEndOfList then Some(Pc(i, if i == 0 then Execute else Wait))
      else None
    case Wait =>
      if i > 0 && e.ReadStatus? then Some(if ShowsBusy(e.word, ListOf(first, i - 1)) then pc else Pc(i, Recoat))
      else None
    case Recoat =>
      if e.RecoatDelay? then Some(Pc(i, if i < |layers| then Execute else Done)) else None
    case Execute =>
      if i < |layers| && e == ExecuteList(ListOf(first, i))
      then Some(Pc(i + 1, if i + 1 < |layers| then Open else Wait))
      else None
    case Done => None
  }

  /** Where the controller is after the given calls, or None if they are not the protocol's. */
  ghost function Accept(first: ListId, layers: Layers, calls: seq<Event>): Option<Pc> {
    if calls == [] then Some(Start(layers))
    else match Accept(first, layers, calls[..|calls| - 1])
      case None => None
      case Some(pc) => HostStep(first, layers, pc, calls[|calls| - 1])
  }

  /** What one list, printed one layer after the other, would execute. */
  ghost function Concat(layers: Layers): seq<Command> {
    if layers == [] then [] else Concat(layers[..|layers| - 1]) + layers[|layers| - 1]
  }

  // ---------------------------------------------------------------------------------------------
  // The invariant of the controller and the board running side by side
  // ---------------------------------------------------------------------------------------------

  /** The first n commands of a layer are in memory. */
  ghost predicate HoldsFirst(memory: seq<Entry>, cmds: seq<Command>, n: nat)
    requires n <= |cmds|
  {
    n <= |memory| && forall j :: 0 <= j < n ==> memory[j] == Cmd(cmds[j])
  }

  /** The whole layer is in memory, ended; what lies behind the end mark is left from earlier layers. */
  ghost predicate Holds(memory: seq<Entry>, cmds: seq<Command>) {
    HoldsFirst(memory, cmds, |cmds|) && |cmds| < |memory| && memory[|cmds|] == EndOfList
  }

  ghost predicate ValidPc(layers: Layers, pc: Pc) {
    && pc.layer <= |layers|
    && match pc.stage
       case Open => pc.layer < |layers|
       case Fill(n) => pc.layer < |layers| && n <= |layers[pc.layer]|
       case Wait => pc.layer > 0
       case Recoat => pc.layer > 0
       case Execute => pc.layer < |layers|
       case Done => pc.layer == |layers|
  }

  /** The last layer started either runs on its list, with everything before it done, or is done too. */
  ghost predicate Progress(first: ListId, layers: Layers, i: nat, b: Board)
    requires i <= |layers|
  {
    if i == 0 then b.Idle() && b.executed == []
    else
      var s := b.At(ListOf(first, i - 1));
      if s.busy then
        && Holds(s.memory, layers[i - 1])
        && s.cursor <= |layers[i - 1]|
        && b.executed == Concat(layers[..i - 1]) + layers[i - 1][..s.cursor]
      else
        b.executed == Concat(layers[..i])
  }

  ghost predicate Inv(first: ListId, layers: Layers, pc: Pc, b: Board) {
    && ValidPc(layers, pc)
    && Progress(first, layers, pc.layer, b)
    && !b.At(ListOf(first, pc.layer)).busy
    && (pc.stage.Recoat? || pc.stage.Execute? || pc.stage.Done? ==> b.Idle())
    && (pc.stage.Fill? ==>
          && b.inputList == ListOf(first, pc.layer) && b.inputPos == pc.stage.n
          && HoldsFirst(b.At(b.inputList).memory, layers[pc.layer], pc.stage.n))
    && ((pc.stage.Wait? || pc.stage.Recoat? || pc.stage.Execute?) && pc.layer < |layers| ==>
          Holds(b.At(ListOf(first, pc.layer)).memory, layers[pc.layer]))
  }

  lemma WriteKeepsInv(first: ListId, layers: Layers, pc: Pc, b: Board, e: Event)
    requires Inv(first, layers, pc, b) && HostStep(first, layers, pc, e).Some?
    requires pc.stage.Open? || pc.stage.Fill?
    ensures Inv(first, layers, HostStep(first, layers, pc, e).value, Apply(b, e))
  {
    hide Concat;
  }

  lemma PollKeepsInv(first: ListId, layers: Layers, pc: Pc, b: Board, e: Event)
    requires Inv(first, layers, pc, b) && Enabled(b, e) && HostStep(first, layers, pc, e).Some?
    requires pc.stage.Wait? || pc.stage.Recoat?
    ensures Inv(first, layers, HostStep(first, layers, pc, e).value, Apply(b, e))
  {
    hide Concat;
  }

  lemma ExecuteKeepsInv(first: ListId, layers: Layers, pc: Pc, b: Board, e: Event)
    requires Inv(first, layers, pc, b) && HostStep(first, layers, pc, e).Some? && pc.stage.Execute?
    ensures Inv(first, layers, HostStep(first, layers, pc, e).value, Apply(b, e))
  {
    var i := pc.layer;
    assert layers[..i + 1][..i] == layers[..i];
    assert layers[i][..0] == [];
    assert b.executed == Concat(layers[..i]);
  }

  lemma HostStepKeepsInv(first: ListId, layers: Layers, pc: Pc, b: Board, e: Event)
    requires Inv(first, layers, pc, b) && Enabled(b, e) && HostStep(first, layers, pc, e).Some?
    ensures Inv(first, layers, HostStep(first, layers, pc, e).value, Apply(b, e))
  {
    hide Inv, Enabled, Apply;
    match pc.stage
    case Open => WriteKeepsInv(first, layers, pc, b, e);
    case Fill(_) => WriteKeepsInv(first, layers, pc, b, e);
    case Wait => PollKeepsInv(first, layers, pc, b, e);
    case Recoat => PollKeepsInv(first, layers, pc, b, e);
    case Execute => ExecuteKeepsInv(first, layers, pc, b, e);
    case Done =>
  }

  lemma BoardStepKeepsInv(first: ListId, layers: Layers, pc: Pc, b: Board, e: Event)
    requires Inv(first, layers, pc, b) && Enabled(b, e) && IsBoardEvent(e)
    ensures Inv(first, layers, pc, Apply(b, e))
  {
    var i, k := pc.layer, ListOf(first, pc.layer - 1);
    assert i > 0 && e.list == k;
    var last, s := layers[i - 1], b.At(k);
    if e.Ran? {
      assert last[..s.cursor] + [e.c] == last[..s.cursor + 1];
    } else {
      assert last[..s.cursor] == last;
      assert layers[..i][..i - 1] == layers[..i - 1];
    }
  }

  lemma AcceptSnoc(first: ListId, layers: Layers, calls: seq<Event>, e: Event)
    ensures Accept(first, layers, calls + [e])
            == match Accept(first, layers, calls) case None => None case Some(pc) => HostStep(first, layers, pc, e)
  {
    assert (calls + [e])[..|calls|] == calls;
  }

  lemma {:induction false} AcceptPrefix(first: ListId, layers: Layers, calls: seq<Event>, p: nat)
    requires p <= |calls| && Accept(first, layers, calls).Some?
    ensures Accept(first, layers, calls[..p]).Some?
  {
    var k := |calls| - 1;
    if p <= k {
      AcceptPrefix(first, layers, calls[..k], p);
      assert calls[..k][..p] == calls[..p];
    } else {
      assert calls[..p] == calls;
    }
  }

  /** A history that ends with one job: legal for the board, with the board idle when the job began, whatever its
      memories held and whatever happened before, and with the controller's calls in protocol order. */
  ghost predicate JobRun(first: ListId, layers: Layers, b0: Board, h: seq<Event>) {
    StartsIdle(b0, h) && ValidRun(b0, h) && Accept(first, layers, JobCalls(h)).Some?
  }

  /** The invariant holds after every such history. */
  lemma {:induction false} RunInvariant(first: ListId, layers: Layers, b0: Board, h: seq<Event>)
    requires JobRun(first, layers, b0, h)
    ensures Inv(first, layers, Accept(first, layers, JobCalls(h)).value, Replay(b0, h))
  {
    if h != [] {
      var k := |h| - 1;
      var b, e := Replay(b0, h[..k]), h[k];
      if IsBoot(e) {
        assert JobCalls(h) == [];
      } else if IsJobCall(e) {
        AcceptSnoc(first, layers, JobCalls(h[..k]), e);
        RunInvariant(first, layers, b0, h[..k]);
        HostStepKeepsInv(first, layers, Accept(first, layers, JobCalls(h[..k])).value, b, e);
      } else {
        assert JobCalls(h) == JobCalls(h[..k]);
        RunInvariant(first, layers, b0, h[..k]);
        if IsBoardEvent(e) {
          BoardStepKeepsInv(first, layers, Accept(first, layers, JobCalls(h[..k])).value, b, e);
        }
      }
    }
  }

  // ---------------------------------------------------------------------------------------------
  // Refinement, safety, abort, termination
  // ---------------------------------------------------------------------------------------------

  /** Refinement: when the controller is done, the board has executed exactly what a printer with a single
      list would have, layer after layer, however its steps interleaved with the controller's calls. */
  lemma Refinement(first: ListId, layers: Layers, b0: Board, h: seq<Event>)
    requires JobRun(first, layers, b0, h)
    requires Accept(first, layers, JobCalls(h)).value.stage.Done?
    ensures Replay(b0, h).executed == Concat(layers)
    ensures Replay(b0, h).Idle()
  {
    RunInvariant(first, layers, b0, h);
    assert layers[..|layers|] == layers;
  }

  /** What must hold of the board when something happens to it. */
  ghost predicate Safe(b: Board, e: Event) {
    match e
    case SetStartList(k) => !b.At(k).busy
    case AddCommand(_) => !b.At(b.inputList).busy
    case SetEndOfList => !b.At(b.inputList).busy
    case ExecuteList(_) => b.Idle()
    case RecoatDelay => b.Idle()
    case _ => true
  }

  lemma InvSafe(first: ListId, layers: Layers, pc: Pc, b: Board, e: Event)
    requires Inv(first, layers, pc, b) && (IsJobCall(e) ==> HostStep(first, layers, pc, e).Some?)
    ensures Safe(b, e) && !(b.list1.busy && b.list2.busy)
  {
  }

  /** Every beginning of a job's history, from the firmware load on, is one, and what comes next is legal for both
      sides. */
  lemma PrefixIsRun(first: ListId, layers: Layers, b0: Board, h: seq<Event>, p: nat)
    requires JobRun(first, layers, b0, h) && p < |h| && NoBoot(h, p)
    ensures JobRun(first, layers, b0, h[..p])
    ensures IsJobCall(h[p]) ==> HostStep(first, layers, Accept(first, layers, JobCalls(h[..p])).value, h[p]).Some?
  {
    hide ValidRun, StartsIdle, Replay, JobCalls, Accept;
    PrefixOfRun(b0, h, p);
    var calls, before := JobCalls(h), JobCalls(h[..p]);
    assert before == calls[..|before|];
    AcceptPrefix(first, layers, calls, |before|);
    if IsJobCall(h[p]) {
      assert before + [h[p]] == calls[..|before| + 1];
      AcceptPrefix(first, layers, calls, |before| + 1);
      AcceptSnoc(first, layers, before, h[p]);
    }
  }

  /** Safety over whole runs: at no point of any job's history is a list opened or written while it executes,
      started while another one executes, or powder spread while the laser is busy; and never do both
      lists execute at once. */
  lemma Safety(first: ListId, layers: Layers, b0: Board, h: seq<Event>, p: nat)
    requires JobRun(first, layers, b0, h) && p < |h| && NoBoot(h, p)
    ensures Safe(Replay(b0, h[..p]), h[p])
    ensures !(Replay(b0, h[..p]).list1.busy && Replay(b0, h[..p]).list2.busy)
  {
    hide ValidRun, Replay, JobCalls, Accept, Inv, Safe;
    PrefixIsRun(first, layers, b0, h, p);
    RunInvariant(first, layers, b0, h[..p]);
    InvSafe(first, layers, Accept(first, layers, JobCalls(h[..p])).value, Replay(b0, h[..p]), h[p]);
  }

  /** Abort: if the controller stops while layer i is being fetched or prepared, layers 0..i-2 have been
      executed in full, layer i-1 up to wherever the board is, and nothing written for layer i ever is, however
      long the board runs on; once it rests, exactly the layers before i have been executed. */
  lemma {:induction false} AbortPrefix(first: ListId, layers: Layers, b0: Board, h: seq<Event>)
    requires JobRun(first, layers, b0, h)
    ensures var pc, done := Accept(first, layers, JobCalls(h)).value, Replay(b0, h).executed;
            && pc.layer <= |layers|
            && done <= Concat(layers[..pc.layer])
            && (pc.layer > 0 ==> Concat(layers[..pc.layer - 1]) <= done)
            && (Replay(b0, h).Idle() ==> done == Concat(layers[..pc.layer]))
  {
    RunInvariant(first, layers, b0, h);
    var i := Accept(first, layers, JobCalls(h)).value.layer;
    if i > 0 {
      assert layers[..i][..i - 1] == layers[..i - 1];
      assert Concat(layers[..i]) == Concat(layers[..i - 1]) + layers[i - 1];
    }
  }

  lemma InvMoves(first: ListId, layers: Layers, pc: Pc, b: Board)
    requires Inv(first, layers, pc, b) && pc.layer > 0 && b.At(ListOf(first, pc.layer - 1)).busy
    ensures var e := NextStep(b, ListOf(first, pc.layer - 1));
            e.Some? && Enabled(b, e.value) && Work(Apply(b, e.value)) < Work(b)
  {
    BoardStepShrinksWork(b, NextStep(b, ListOf(first, pc.layer - 1)).value);
  }

  /** Waiting ends: as long as the list the controller polls is busy, the board has a step to take, and
      each step shrinks the work it has left. */
  lemma NoStall(first: ListId, layers: Layers, b0: Board, h: seq<Event>)
    requires JobRun(first, layers, b0, h)
    ensures var pc, b := Accept(first, layers, JobCalls(h)).value, Replay(b0, h);
            pc.layer > 0 && b.At(ListOf(first, pc.layer - 1)).busy ==>
              var e := NextStep(b, ListOf(first, pc.layer - 1));
              e.Some? && Enabled(b, e.value) && Work(Apply(b, e.value)) < Work(b)
  {
    hide ValidRun, Replay, JobCalls, Accept, Inv, NextStep, Enabled, Work;
    RunInvariant(first, layers, b0, h);
    var pc, b := Accept(first, layers, JobCalls(h)).value, Replay(b0, h);
    if pc.layer > 0 && b.At(ListOf(first, pc.layer - 1)).busy { InvMoves(first, layers, pc, b); }
  }

  // ---------------------------------------------------------------------------------------------
  // The call grammar
  // ---------------------------------------------------------------------------------------------

  function Adds(cmds: seq<Command>): seq<Event> {
    seq(|cmds|, j requires 0 <= j < |cmds| => AddCommand(cmds[j]))
  }

  /** The calls for layer i: open, write, end, spread powder if a layer is already printed, execute. */
  function LayerCalls(first: ListId, layers: Layers, i: nat): seq<Event>
    requires i < |layers|
  {
    [SetStartList(ListOf(first, i))] + Adds(layers[i]) + [SetEndOfList]
    + (if i > 0 then [RecoatDelay] else []) + [ExecuteList(ListOf(first, i))]
  }

  ghost function CallsOf(first: ListId, layers: Layers, n: nat): seq<Event>
    requires n <= |layers|
  {
    if n == 0 then [] else CallsOf(first, layers, n - 1) + LayerCalls(first, layers, n - 1)
  }

  /** The calls made so far for the layer the controller is on. */
  ghost function CallsOfStage(first: ListId, layers: Layers, pc: Pc): seq<Event>
    requires ValidPc(layers, pc)
  {
    var i := pc.layer;
    match pc.stage
    case Open => []
    case Fill(n) => [SetStartList(ListOf(first, i))] + Adds(layers[i])[..n]
    case Done => if i > 0 then [RecoatDelay] else []
    case _ =>
      if i == |layers| then []
      else [SetStartList(ListOf(first, i))] + Adds(layers[i]) + [SetEndOfList]
           + (if pc.stage.Execute? && i > 0 then [RecoatDelay] else [])
  }

  ghost function WithoutPolls(calls: seq<Event>): seq<Event> {
    if calls == [] then []
    else WithoutPolls(calls[..|calls| - 1])
         + (if calls[|calls| - 1].ReadStatus? then [] else [calls[|calls| - 1]])
  }

  lemma {:induction false} CallStep(first: ListId, layers: Layers, pc: Pc, e: Event)
    requires ValidPc(layers, pc) && !e.ReadStatus? && HostStep(first, layers, pc, e).Some?
    ensures ValidPc(layers, HostStep(first, layers, pc, e).value)
    ensures var pc' := HostStep(first, layers, pc, e).value;
            CallsOf(first, layers, pc.layer) + CallsOfStage(first, layers, pc) + [e]
            == CallsOf(first, layers, pc'.layer) + CallsOfStage(first, layers, pc')
  {
    var i, pc' := pc.layer, HostStep(first, layers, pc, e).value;
    var before, stage := CallsOf(first, layers, i), CallsOfStage(first, layers, pc);
    if pc.stage.Execute? {
      hide Adds;
      assert CallsOf(first, layers, i + 1) == before + LayerCalls(first, layers, i);
      assert stage + [e] == LayerCalls(first, layers, i);
      assert CallsOfStage(first, layers, pc') == [];
    } else {
      hide CallsOf;
      if pc.stage.Fill? {
        var n, adds := pc.stage.n, Adds(layers[i]);
        if n < |layers[i]| {
          assert adds[..n] + [e] == adds[..n + 1];
        } else {
          assert adds[..n] == adds;
        }
      } else if pc.stage.Open? {
        assert Adds(layers[i])[..0] == [];
      }
      assert stage + [e] == CallsOfStage(first, layers, pc');
    }
    assert before + stage + [e] == before + (stage + [e]);
  }

  /** Call grammar: apart from status polls, the calls are the layers' call groups one after the other, each
      on its own list, followed by the calls made so far for the current layer. */
  lemma {:induction false} CallGrammar(first: ListId, layers: Layers, calls: seq<Event>)
    requires Accept(first, layers, calls).Some?
    ensures ValidPc(layers, Accept(first, layers, calls).value)
    ensures var pc := Accept(first, layers, calls).value;
            WithoutPolls(calls) == CallsOf(first, layers, pc.layer) + CallsOfStage(first, layers, pc)
  {
    if calls != [] {
      var k := |calls| - 1;
      CallGrammar(first, layers, calls[..k]);
      var pc := Accept(first, layers, calls[..k]).value;
      if !calls[k].ReadStatus? { CallStep(first, layers, pc, calls[k]); }
    }
  }
}
