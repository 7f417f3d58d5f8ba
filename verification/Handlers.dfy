/** The objects the print loop drives: board setup, list handler and geometry handler. */
module Handlers {
  import opened OvfModel
  import opened GeometryCompiler
  import opened Rtc6Board
  import opened PrintProtocol

  /** What the DLL answers during setup. */
  datatype DllAnswers = DllAnswers(initError: nat, cards: nat, selected: nat, loadError: nat)

  predicate SetupOk(a: DllAnswers) {
    a.initError == 0 && a.cards > 0 && a.selected != 0 && a.loadError == 0
  }

  /** The setup calls: each only after the one before it succeeded, with board 1 in place of a board that is
      not there. */
  function SetupCalls(boardId: nat, a: DllAnswers): seq<Event> {
    if a.initError != 0 then [InitDll(a.initError)]
    else if a.cards == 0 then [InitDll(0), CountCards(0)]
    else
      var select := SelectCard(if boardId > a.cards then 1 else boardId, a.selected);
      if a.selected == 0 then [InitDll(0), CountCards(a.cards), select]
      else [InitDll(0), CountCards(a.cards), select, LoadFirmware(a.loadError)]
  }

  predicate Succeeded(e: Event) {
    match e
    case InitDll(error) => error == 0
    case CountCards(count) => count > 0
    case SelectCard(_, selected) => selected != 0
    case LoadFirmware(error) => error == 0
    case _ => false
  }

  /** The setup gate, whatever the DLL answers: each call is made only after the one before it succeeded, setup counts
      as successful exactly when all four calls did, and a card number, counted from 1, is only ever selected if there
      is such a card. */
  lemma SetupGate(boardId: nat, a: DllAnswers)
    ensures var calls := SetupCalls(boardId, a);
            && (forall i :: 0 <= i < |calls| ==> IsSetupCall(calls[i]))
            && (forall i :: 0 <= i < |calls| - 1 ==> Succeeded(calls[i]))
            && (SetupOk(a) <==> |calls| == 4 && Succeeded(calls[3]))
            && (forall i :: 0 <= i < |calls| && calls[i].SelectCard? ==> calls[i].card <= a.cards)
            && (forall i :: 0 <= i < |calls| && calls[i].SelectCard? && boardId >= 1 ==> 1 <= calls[i].card)
            && (forall i :: 0 <= i < |calls| && calls[i].SelectCard? && boardId <= a.cards ==> calls[i].card == boardId)
            && (|calls| > 0 && calls[0] == InitDll(a.initError))
            && (|calls| > 1 ==> calls[1] == CountCards(a.cards))
            && (|calls| > 2 ==> calls[2].SelectCard? && calls[2].selected == a.selected)
            && (|calls| > 3 ==> calls[3] == LoadFirmware(a.loadError))
  {
  }

  class Rtc6Communicator {
    const rtcApi: RtcApi
    var boardId: nat
    var selectedCardNo: nat
    var isDllInitialized: bool
    var isBoardSelected: bool
    var isFirmwareLoaded: bool
    var successfullySetup: bool

    constructor (rtcApi: RtcApi, boardId: nat)
      ensures this.rtcApi == rtcApi && this.boardId == boardId && !successfullySetup
      ensures !isDllInitialized && !isBoardSelected && !isFirmwareLoaded
    {
      this.rtcApi := rtcApi;
      this.boardId, selectedCardNo := boardId, 0;
      isDllInitialized, isBoardSelected, isFirmwareLoaded, successfullySetup := false, false, false, false;
    }

    method InitializeDll(error: nat) returns (ok: bool)
      requires rtcApi.Valid()
      modifies rtcApi, `isDllInitialized
      ensures rtcApi.Valid() && rtcApi.state == old(rtcApi.state)
      ensures rtcApi.history == old(rtcApi.history) + [InitDll(error)]
      ensures JobCalls(rtcApi.history) == old(JobCalls(rtcApi.history))
      ensures ok == (error == 0) && isDllInitialized == (ok || old(isDllInitialized))
    {
      hide ValidRun, Replay, JobCalls;
      rtcApi.Record(InitDll(error));
      if error != 0 { return false; }
      isDllInitialized := true;
      ok := true;
    }

    method CountBoards(cards: nat) returns (count: nat)
      requires rtcApi.Valid()
      modifies rtcApi
      ensures rtcApi.Valid() && rtcApi.state == old(rtcApi.state)
      ensures JobCalls(rtcApi.history) == old(JobCalls(rtcApi.history))
      ensures rtcApi.history == old(rtcApi.history) + (if isDllInitialized then [CountCards(cards)] else [])
      ensures count == if isDllInitialized then cards else 0
    {
      if !isDllInitialized { return 0; }
      rtcApi.Record(CountCards(cards));
      count := cards;
    }

    method SelectBoard(selected: nat) returns (ok: bool)
      requires rtcApi.Valid()
      modifies rtcApi, `selectedCardNo, `isBoardSelected
      ensures rtcApi.Valid() && rtcApi.state == old(rtcApi.state)
      ensures JobCalls(rtcApi.history) == old(JobCalls(rtcApi.history))
      ensures rtcApi.history == old(rtcApi.history) + (if isDllInitialized then [SelectCard(boardId, selected)] else [])
      ensures ok == (isDllInitialized && selected != 0)
      ensures isDllInitialized ==> isBoardSelected == ok && selectedCardNo == selected
      ensures !isDllInitialized ==> isBoardSelected == old(isBoardSelected) && selectedCardNo == old(selectedCardNo)
    {
      if !isDllInitialized { return false; }
      rtcApi.Record(SelectCard(boardId, selected));
      if selected == 0 {
        selectedCardNo, isBoardSelected := 0, false;
        return false;
      }
      selectedCardNo, isBoardSelected := selected, true;
      ok := true;
    }

    method LoadProgram(error: nat) returns (ok: bool)
      requires rtcApi.Valid()
      modifies rtcApi, `isFirmwareLoaded
      ensures rtcApi.Valid() && rtcApi.state == if ok then Booted(old(rtcApi.state)) else old(rtcApi.state)
      ensures JobCalls(rtcApi.history) == if ok then [] else old(JobCalls(rtcApi.history))
      ensures ok ==> StartsIdle(rtcApi.initial, rtcApi.history)
      ensures rtcApi.history == old(rtcApi.history) + (if isBoardSelected then [LoadFirmware(error)] else [])
      ensures ok == (isBoardSelected && error == 0) && isFirmwareLoaded == (ok || old(isFirmwareLoaded))
    {
      if !isBoardSelected { return false; }
      Snoc(rtcApi.initial, rtcApi.history, LoadFirmware(error));
      rtcApi.Record(LoadFirmware(error));
      if error != 0 { return false; }
      isFirmwareLoaded := true;
      ok := true;
    }

    /** Whatever an earlier attempt left in the flags, the board counts as ready exactly when all four DLL calls
        of this attempt succeeded, and no job call is made on the way. */
    method ConnectAndSetupBoard(a: DllAnswers) returns (ok: bool)
      requires rtcApi.Valid()
      modifies this, rtcApi
      ensures rtcApi.Valid() && rtcApi.state == if ok then Booted(old(rtcApi.state)) else old(rtcApi.state)
      ensures ok ==> StartsIdle(rtcApi.initial, rtcApi.history)
      ensures ok == successfullySetup == SetupOk(a)
      ensures ok ==> isDllInitialized && isBoardSelected && isFirmwareLoaded && selectedCardNo == a.selected
      ensures isDllInitialized == (a.initError == 0 || old(isDllInitialized))
      ensures isBoardSelected == if a.initError == 0 && a.cards > 0 then a.selected != 0 else old(isBoardSelected)
      ensures isFirmwareLoaded == (ok || old(isFirmwareLoaded))
      ensures boardId == if a.initError == 0 && 0 < a.cards < old(boardId) then 1 else old(boardId)
      ensures rtcApi.history == old(rtcApi.history) + SetupCalls(old(boardId), a)
      ensures JobCalls(rtcApi.history) == if ok then [] else old(JobCalls(rtcApi.history))
    {
      hide ValidRun, Replay, JobCalls, StartsIdle, Booted;
      ghost var h := rtcApi.history;
      successfullySetup := false;
      var initialized := InitializeDll(a.initError);
      if !initialized { return false; }
      var cardCount := CountBoards(a.cards);
      assert rtcApi.history == h + [InitDll(0), CountCards(a.cards)];
      if cardCount == 0 { return false; }
      if boardId > cardCount && cardCount > 0 { boardId := 1; }
      var selected := SelectBoard(a.selected);
      assert rtcApi.history == h + [InitDll(0), CountCards(a.cards), SelectCard(boardId, a.selected)];
      if !selected { return false; }
      var loaded := LoadProgram(a.loadError);
      if !loaded { return false; }
      successfullySetup := true;
      ok := true;
    }
  }

  class ListHandler {
    const communicator: Rtc6Communicator
    const rtcApi: RtcApi
    var currentListIdForFilling: ListId
    var currentListIdForExecution: nat
    var lastExecutedListId: nat

    constructor (communicator: Rtc6Communicator, rtcApi: RtcApi)
      ensures this.communicator == communicator && this.rtcApi == rtcApi
      ensures currentListIdForFilling == 1 && currentListIdForExecution == 0 && lastExecutedListId == 0
    {
      this.communicator, this.rtcApi := communicator, rtcApi;
      currentListIdForFilling, currentListIdForExecution, lastExecutedListId := 1, 0, 0;
    }

    method BeginListPreparation() returns (ok: bool)
      requires rtcApi.Valid()
      modifies rtcApi
      ensures rtcApi.Valid() && Grows(old(rtcApi.history), rtcApi.history) && ok == communicator.successfullySetup
      ensures JobCalls(rtcApi.history)
              == old(JobCalls(rtcApi.history)) + (if ok then [SetStartList(currentListIdForFilling)] else [])
    {
      if !communicator.successfullySetup { return false; }
      rtcApi.Call(SetStartList(currentListIdForFilling));
      ok := true;
    }

    method EndListPreparation()
      requires rtcApi.Valid()
      modifies rtcApi
      ensures rtcApi.Valid() && Grows(old(rtcApi.history), rtcApi.history)
      ensures JobCalls(rtcApi.history) == old(JobCalls(rtcApi.history)) + [SetEndOfList]
    {
      rtcApi.Call(SetEndOfList);
    }

    /** Starts the list just filled and turns to the other one. */
    method ExecuteCurrentListAndCycle() returns (ok: bool)
      requires rtcApi.Valid()
      modifies this, rtcApi
      ensures rtcApi.Valid() && Grows(old(rtcApi.history), rtcApi.history) && ok == communicator.successfullySetup
      ensures ok ==>
                && JobCalls(rtcApi.history)
                   == old(JobCalls(rtcApi.history)) + [ExecuteList(old(currentListIdForFilling))]
                && lastExecutedListId == currentListIdForExecution == old(currentListIdForFilling)
                && currentListIdForFilling == 3 - old(currentListIdForFilling)
      ensures !ok ==> unchanged(this) && unchanged(rtcApi)
    {
      hide ValidRun, Replay, JobCalls;
      if !communicator.successfullySetup { return false; }
      var listToExecute := currentListIdForFilling;
      rtcApi.Call(ExecuteList(listToExecute));
      lastExecutedListId := currentListIdForFilling;
      currentListIdForExecution := listToExecute;
      SwitchFillListTarget();
      ok := true;
    }

    method SwitchFillListTarget()
      modifies `currentListIdForFilling
      ensures currentListIdForFilling == 3 - old(currentListIdForFilling)
    {
      currentListIdForFilling := if currentListIdForFilling == 1 then 2 else 1;
    }

    /** Without a ready board, or for an id that is neither list, the answer is always busy and the board is not
        asked; otherwise it is the board's own busy bit. */
    method IsListBusy(listId: nat) returns (busy: bool, ghost word: bv32)
      requires rtcApi.Valid()
      modifies rtcApi
      ensures rtcApi.Valid() && Grows(old(rtcApi.history), rtcApi.history)
      ensures communicator.successfullySetup && 1 <= listId <= 2 ==>
                && JobCalls(rtcApi.history) == old(JobCalls(rtcApi.history)) + [ReadStatus(word)]
                && busy == ShowsBusy(word, listId) == rtcApi.state.At(listId).busy
                && busy == (if listId == 1 then word & 0x10 != 0 else word & 0x20 != 0)
                && Work(rtcApi.state) <= old(Work(rtcApi.state))
      ensures !communicator.successfullySetup || !(1 <= listId <= 2) ==> busy && unchanged(rtcApi)
    {
      hide ValidRun, Replay, JobCalls;
      word := 0;
      if !communicator.successfullySetup { return true, word; }
      if listId != 1 && listId != 2 { return true, word; }
      var statusWord := rtcApi.Status();
      word := statusWord;
      if listId == 1 {
        busy := statusWord & BUSY1 != 0;
      } else {
        busy := statusWord & BUSY2 != 0;
      }
    }

    method AddJumpAbsolute(x: int, y: int)
      requires rtcApi.Valid()
      modifies rtcApi
      ensures rtcApi.Valid() && Grows(old(rtcApi.history), rtcApi.history)
      ensures JobCalls(rtcApi.history) == old(JobCalls(rtcApi.history)) + [AddCommand(JumpAbs(x, y))]
    {
      rtcApi.Call(AddCommand(JumpAbs(x, y)));
    }

    method AddMarkAbsolute(x: int, y: int)
      requires rtcApi.Valid()
      modifies rtcApi
      ensures rtcApi.Valid() && Grows(old(rtcApi.history), rtcApi.history)
      ensures JobCalls(rtcApi.history) == old(JobCalls(rtcApi.history)) + [AddCommand(MarkAbs(x, y))]
    {
      rtcApi.Call(AddCommand(MarkAbs(x, y)));
    }

    method AddSetFocusOffset(offsetBits: int)
      requires rtcApi.Valid()
      modifies rtcApi
      ensures rtcApi.Valid() && Grows(old(rtcApi.history), rtcApi.history)
      ensures JobCalls(rtcApi.history) == old(JobCalls(rtcApi.history)) + [AddCommand(SetFocusOffset(offsetBits))]
    {
      rtcApi.Call(AddCommand(SetFocusOffset(offsetBits)));
    }

    method AddSetMarkSpeed(speed: real)
      requires rtcApi.Valid()
      modifies rtcApi
      ensures rtcApi.Valid() && Grows(old(rtcApi.history), rtcApi.history)
      ensures JobCalls(rtcApi.history)
              == old(JobCalls(rtcApi.history)) + [AddCommand(SetMarkSpeed(speed * 1000.0 / 1000.0))]
    {
      var bitsPerMs := speed * SPEED_BITS_PER_MM / 1000.0;
      rtcApi.Call(AddCommand(SetMarkSpeed(bitsPerMs)));
    }

    method AddSetLaserPower(port: nat, power: nat)
      requires rtcApi.Valid()
      modifies rtcApi
      ensures rtcApi.Valid() && Grows(old(rtcApi.history), rtcApi.history)
      ensures JobCalls(rtcApi.history) == old(JobCalls(rtcApi.history)) + [AddCommand(SetLaserPower(port, power))]
    {
      rtcApi.Call(AddCommand(SetLaserPower(port, power)));
    }
  }

  lemma AddsSnoc(before: seq<Event>, emitted: seq<Command>, c: Command)
    ensures before + Adds(emitted) + [AddCommand(c)] == before + Adds(emitted + [c])
  {
  }

  lemma AddsConcat(before: seq<Event>, a: seq<Command>, b: seq<Command>)
    ensures before + Adds(a) + Adds(b) == before + Adds(a + b)
  {
  }

  ghost function HatchAt(points: seq<real>, i: nat): seq<Command>
    requires i + 3 < |points|
  {
    [JumpAbs(MmToBits(points[i]), MmToBits(points[i + 1])), MarkAbs(MmToBits(points[i + 2]), MmToBits(points[i + 3]))]
  }

  lemma HatchStep(before: seq<Event>, done: seq<Command>, points: seq<real>, i: nat)
    requires |points| % 4 == 0 && i % 4 == 0 && i < |points|
    ensures before + Adds(done) + [AddCommand(HatchAt(points, i)[0])] + [AddCommand(HatchAt(points, i)[1])]
            == before + Adds(done + HatchAt(points, i))
    ensures done + HatchesFrom(points, i) == done + HatchAt(points, i) + HatchesFrom(points, i + 4)
  {
  }

  lemma HatchesDone(done: seq<Command>, points: seq<real>, i: nat)
    requires |points| % 4 == 0 && i % 4 == 0 && |points| <= i
    ensures done + HatchesFrom(points, i) == done
  {
  }

  class GeometryHandler {
    const listHandler: ListHandler

    constructor (listHandler: ListHandler)
      ensures this.listHandler == listHandler
    {
      this.listHandler := listHandler;
    }

    ghost function Calls(): seq<Event>
      reads listHandler.rtcApi
    {
      JobCalls(listHandler.rtcApi.history)
    }

    method SetParameters(params: MarkingParams)
      requires listHandler.rtcApi.Valid() && FitsInt(params.focus)
      modifies listHandler.rtcApi
      ensures listHandler.rtcApi.Valid() && Grows(old(listHandler.rtcApi.history), listHandler.rtcApi.history)
      ensures Calls() == old(Calls()) + Adds(Header(params))
    {
      hide ValidRun, Replay, JobCalls;
      listHandler.AddSetMarkSpeed(params.speed);
      listHandler.AddSetFocusOffset(MmToBits(params.focus));
      var powerPercent := params.power / MAX_LASER_POWER_W * 100.0;
      listHandler.AddSetLaserPower(1, PowerToDac(powerPercent));
    }

    method ProcessLineSequence(points: seq<real>)
      requires listHandler.rtcApi.Valid() && |points| >= 4 && |points| % 2 == 0
      modifies listHandler.rtcApi
      ensures listHandler.rtcApi.Valid() && Grows(old(listHandler.rtcApi.history), listHandler.rtcApi.history)
      ensures Calls() == old(Calls()) + Adds([JumpAbs(MmToBits(points[0]), MmToBits(points[1]))] + MarksFrom(points, 2))
    {
      hide ValidRun, Replay, JobCalls;
      ghost var before, done := Calls(), [JumpAbs(MmToBits(points[0]), MmToBits(points[1]))];
      ghost var all := done + MarksFrom(points, 2);
      listHandler.AddJumpAbsolute(MmToBits(points[0]), MmToBits(points[1]));
      var i := 2;
      while i < |points|
        invariant i <= |points| && i % 2 == 0
        invariant listHandler.rtcApi.Valid() && Grows(old(listHandler.rtcApi.history), listHandler.rtcApi.history)
        invariant Calls() == before + Adds(done)
        invariant done + MarksFrom(points, i) == all
      {
        listHandler.AddMarkAbsolute(MmToBits(points[i]), MmToBits(points[i + 1]));
        ghost var mark := MarkAbs(MmToBits(points[i]), MmToBits(points[i + 1]));
        AddsSnoc(before, done, mark);
        assert done + ([mark] + MarksFrom(points, i + 2)) == done + [mark] + MarksFrom(points, i + 2);
        done := done + [mark];
        i := i + 2;
      }
      assert done + [] == done;
    }

    method ProcessHatches(points: seq<real>)
      requires listHandler.rtcApi.Valid() && |points| >= 4 && |points| % 4 == 0
      modifies listHandler.rtcApi
      ensures listHandler.rtcApi.Valid() && Grows(old(listHandler.rtcApi.history), listHandler.rtcApi.history)
      ensures Calls() == old(Calls()) + Adds(HatchesFrom(points, 0))
    {
      hide ValidRun, Replay, JobCalls, HatchesFrom;
      ghost var before, done := Calls(), [];
      ghost var all := HatchesFrom(points, 0);
      assert before + Adds(done) == before && done + all == all;
      var i := 0;
      while i < |points|
        invariant i <= |points| && i % 4 == 0
        invariant listHandler.rtcApi.Valid() && Grows(old(listHandler.rtcApi.history), listHandler.rtcApi.history)
        invariant Calls() == before + Adds(done)
        invariant done + HatchesFrom(points, i) == all
      {
        listHandler.AddJumpAbsolute(MmToBits(points[i]), MmToBits(points[i + 1]));
        listHandler.AddMarkAbsolute(MmToBits(points[i + 2]), MmToBits(points[i + 3]));
        HatchStep(before, done, points, i);
        done := done + HatchAt(points, i);
        i := i + 4;
      }
      HatchesDone(done, points, i);
    }

    /** Writes exactly the commands of the block to the list being filled. */
    method ProcessVectorBlock(block: VectorBlock, params: MarkingParams)
      requires listHandler.rtcApi.Valid() && WellFormed(block) && FitsInt(params.focus)
      modifies listHandler.rtcApi
      ensures listHandler.rtcApi.Valid() && Grows(old(listHandler.rtcApi.history), listHandler.rtcApi.history)
      ensures Calls() == old(Calls()) + Adds(CompileBlock(block, params))
    {
      hide ValidRun, Replay, JobCalls;
      AddsConcat(Calls(), Header(params), GeometryCommands(block));
      SetParameters(params);
      match block.geometry
      case LineSequence(points) => if |points| >= 4 { ProcessLineSequence(points); }
      case Hatches(points) => if |points| >= 4 { ProcessHatches(points); }
      case Unsupported =>
    }
  }
}
