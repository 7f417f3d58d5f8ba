/** The RTC6 board as the environment of the controller: two list memories, a busy bit each, an input
    pointer and an execution cursor. The board is deliberately permissive: it lets the host open, write
    or start a list at any time, so that safety has to come from the controller. */
module Rtc6Board {
  import opened Wrappers
  import opened GeometryCompiler

  type ListId = k: nat | 1 <= k <= 2 witness 1

  const BUSY1: bv32 := 0x10 // Rtc6Constants::Status::BUSY1
  const BUSY2: bv32 := 0x20 // Rtc6Constants::Status::BUSY2

  datatype Entry = Cmd(c: Command) | EndOfList

  datatype ListState = ListState(memory: seq<Entry>, busy: bool, cursor: nat)

  /** executed is everything the board has carried out since its firmware was loaded, in order. */
  datatype Board = Board(list1: ListState, list2: ListState, inputList: ListId, inputPos: nat,
                         executed: seq<Command>)
  {
    function At(k: ListId): ListState { if k == 1 then list1 else list2 }

    function With(k: ListId, s: ListState): Board {
      if k == 1 then this.(list1 := s) else this.(list2 := s)
    }

    predicate Idle() { !list1.busy && !list2.busy }
  }

  datatype Event =
      // DLL calls of the board setup, with what the DLL answered
    | InitDll(error: nat)
    | CountCards(count: nat)
    | SelectCard(card: nat, selected: nat)
    | LoadFirmware(error: nat)
      // what the controller does during a job
    | SetStartList(list: ListId)
    | AddCommand(c: Command)
    | SetEndOfList
    | ExecuteList(list: ListId)
    | ReadStatus(word: bv32)
    | RecoatDelay
      // what the board does on its own
    | Ran(list: ListId, c: Command)
    | Finished(list: ListId)

  predicate IsBoardEvent(e: Event) { e.Ran? || e.Finished? }

  predicate IsSetupCall(e: Event) { e.InitDll? || e.CountCards? || e.SelectCard? || e.LoadFirmware? }

  predicate IsJobCall(e: Event) { !IsBoardEvent(e) && !IsSetupCall(e) }

  /** A successful firmware load. */
  predicate IsBoot(e: Event) { e == LoadFirmware(0) }

  predicate ShowsBusy(word: bv32, k: ListId) {
    if k == 1 then word & BUSY1 != 0 else word & BUSY2 != 0
  }

  /** The entry a busy list is about to execute. */
  predicate NextIs(s: ListState, e: Entry) {
    s.busy && s.cursor < |s.memory| && s.memory[s.cursor] == e
  }

  predicate Enabled(b: Board, e: Event) {
    match e
    case Ran(k, c) => NextIs(b.At(k), Cmd(c))
    case Finished(k) => NextIs(b.At(k), EndOfList)
    case ReadStatus(w) => ShowsBusy(w, 1) == b.list1.busy && ShowsBusy(w, 2) == b.list2.busy
    case _ => true
  }

  /** Writing over what the list memory held from earlier jobs, or extending it. */
  function Write(memory: seq<Entry>, pos: nat, e: Entry): seq<Entry> {
    if pos < |memory| then memory[pos := e] else memory + [e]
  }

  function Input(b: Board, e: Entry): Board {
    var s := b.At(b.inputList);
    b.With(b.inputList, s.(memory := Write(s.memory, b.inputPos, e))).(inputPos := b.inputPos + 1)
  }

  /** Loading the firmware stops both lists; what is executed is counted from there. */
  function Booted(b: Board): Board {
    b.(list1 := b.list1.(busy := false), list2 := b.list2.(busy := false), executed := [])
  }

  function Apply(b: Board, e: Event): Board {
    match e
    case LoadFirmware(error) => if error == 0 then Booted(b) else b
    case SetStartList(k) => b.(inputList := k, inputPos := 0)
    case AddCommand(c) => Input(b, Cmd(c))
    case SetEndOfList => Input(b, EndOfList)
    case ExecuteList(k) => b.With(k, b.At(k).(busy := true, cursor := 0))
    case Ran(k, c) => b.With(k, b.At(k).(cursor := b.At(k).cursor + 1)).(executed := b.executed + [c])
    case Finished(k) => b.With(k, b.At(k).(busy := false))
    case _ => b
  }

  // ---------------------------------------------------------------------------------------------
  // Histories: host calls and board steps in the order they happened
  // ---------------------------------------------------------------------------------------------

  ghost function Replay(b0: Board, h: seq<Event>): Board {
    if h == [] then b0 else Apply(Replay(b0, h[..|h| - 1]), h[|h| - 1])
  }

  ghost predicate ValidRun(b0: Board, h: seq<Event>) {
    h == [] || (ValidRun(b0, h[..|h| - 1]) && Enabled(Replay(b0, h[..|h| - 1]), h[|h| - 1]))
  }

  /** The calls of the controller since the firmware was last loaded. */
  ghost function JobCalls(h: seq<Event>): seq<Event> {
    if h == [] || IsBoot(h[|h| - 1]) then []
    else JobCalls(h[..|h| - 1]) + (if IsJobCall(h[|h| - 1]) then [h[|h| - 1]] else [])
  }

  /** The board was idle with nothing executed when the calls counted by JobCalls began: the firmware was loaded before
      them, or the history is young and the board was so at its start. */
  ghost predicate StartsIdle(b0: Board, h: seq<Event>) {
    if h == [] then b0.Idle() && b0.executed == []
    else IsBoot(h[|h| - 1]) || StartsIdle(b0, h[..|h| - 1])
  }

  ghost predicate NoBoot(h: seq<Event>, from: nat) {
    forall i :: from <= i < |h| ==> !IsBoot(h[i])
  }

  /** Things happened, but no firmware load. */
  ghost predicate Grows(h: seq<Event>, h': seq<Event>) {
    h <= h' && NoBoot(h', |h|)
  }

  lemma Snoc(b0: Board, h: seq<Event>, e: Event)
    ensures Replay(b0, h + [e]) == Apply(Replay(b0, h), e)
    ensures ValidRun(b0, h + [e]) <==> ValidRun(b0, h) && Enabled(Replay(b0, h), e)
    ensures JobCalls(h + [e])
            == if IsBoot(e) then [] else JobCalls(h) + (if IsJobCall(e) then [e] else [])
    ensures StartsIdle(b0, h + [e]) <==> IsBoot(e) || StartsIdle(b0, h)
  {
    assert (h + [e])[..|h|] == h;
  }

  lemma {:induction false} StartsIdleExtends(b0: Board, h: seq<Event>, h': seq<Event>)
    requires StartsIdle(b0, h) && h <= h'
    ensures StartsIdle(b0, h')
    decreases |h'|
  {
    if |h| < |h'| {
      StartsIdleExtends(b0, h, h'[..|h'| - 1]);
    } else {
      assert h == h';
    }
  }

  lemma {:induction false} PrefixOfRun(b0: Board, h: seq<Event>, p: nat)
    requires ValidRun(b0, h) && p < |h| && NoBoot(h, p)
    ensures ValidRun(b0, h[..p]) && Enabled(Replay(b0, h[..p]), h[p])
    ensures StartsIdle(b0, h) ==> StartsIdle(b0, h[..p])
    ensures JobCalls(h[..p]) <= JobCalls(h)
    ensures IsJobCall(h[p]) ==> JobCalls(h[..p]) + [h[p]] <= JobCalls(h)
  {
    var k := |h| - 1;
    if p < k {
      PrefixOfRun(b0, h[..k], p);
      assert h[..k][..p] == h[..p];
    }
  }

  // ---------------------------------------------------------------------------------------------
  // The work a board has left
  // ---------------------------------------------------------------------------------------------

  function Left(s: ListState): nat {
    if s.busy && s.cursor < |s.memory| then |s.memory| - s.cursor else 0
  }

  function Work(b: Board): nat { Left(b.list1) + Left(b.list2) }

  /** Left to itself the board always comes to rest: each step of its own uses up some work. */
  lemma BoardStepShrinksWork(b: Board, e: Event)
    requires IsBoardEvent(e) && Enabled(b, e)
    ensures Work(Apply(b, e)) < Work(b)
  {
  }

  /** What list k would do next, if anything. */
  function NextStep(b: Board, k: ListId): Option<Event> {
    var s := b.At(k);
    if !s.busy || s.cursor >= |s.memory| then None
    else match s.memory[s.cursor]
      case Cmd(c) => Some(Ran(k, c))
      case EndOfList => Some(Finished(k))
  }

  /** The board behind the RTC API, with the record of everything that happened to it. */
  class RtcApi {
    const initial: Board
    var state: Board
    var history: seq<Event>

    ghost predicate Valid()
      reads this
    {
      ValidRun(initial, history) && state == Replay(initial, history)
    }

    constructor (initial: Board)
      ensures Valid() && this.initial == initial && history == []
    {
      this.initial := initial;
      state := initial;
      history := [];
    }

    /** One thing happens. */
    method Record(e: Event)
      requires Valid() && Enabled(state, e)
      modifies this
      ensures Valid() && history == old(history) + [e] && state == Apply(old(state), e)
      ensures JobCalls(history)
              == if IsBoot(e) then [] else old(JobCalls(history)) + (if IsJobCall(e) then [e] else [])
    {
      Snoc(initial, history, e);
      history := history + [e];
      state := Apply(state, e);
    }

    /** List k takes a step if it can; a list that cannot leaves the turn to the other one. */
    method Step(k: ListId)
      requires Valid()
      modifies this
      ensures Valid() && Grows(old(history), history) && JobCalls(history) == old(JobCalls(history))
      ensures Work(state) <= old(Work(state))
      ensures old(NextStep(state, 1).Some? || NextStep(state, 2).Some?) ==> Work(state) < old(Work(state))
    {
      hide ValidRun, Replay, JobCalls;
      var e := if NextStep(state, k).Some? then NextStep(state, k) else NextStep(state, 3 - k);
      if e.Some? {
        BoardStepShrinksWork(state, e.value);
        Record(e.value);
      }
    }

    /** Time passes: the board takes any number of its own steps, including none. Every host call lets
        time pass first, so the host's calls interleave with the board in every possible way. */
    method Elapse()
      requires Valid()
      modifies this
      ensures Valid() && Grows(old(history), history) && JobCalls(history) == old(JobCalls(history))
      ensures Work(state) <= old(Work(state))
    {
      var n: nat := *;
      while n > 0
        invariant Valid() && Grows(old(history), history) && JobCalls(history) == old(JobCalls(history))
        invariant Work(state) <= old(Work(state))
      {
        var k: ListId := *;
        Step(k);
        n := n - 1;
      }
    }

    /** Time passes during a poll delay: a board that can move does move. */
    method ElapsePollDelay()
      requires Valid()
      modifies this
      ensures Valid() && Grows(old(history), history) && JobCalls(history) == old(JobCalls(history))
      ensures old(NextStep(state, 1).Some? || NextStep(state, 2).Some?) ==> Work(state) < old(Work(state))
    {
      var k: ListId := *;
      Step(k);
      Elapse();
    }

    /** A call of the controller: time passes, then the call takes effect. */
    method Call(e: Event)
      requires Valid() && IsJobCall(e) && !e.ReadStatus?
      modifies this
      ensures Valid() && Grows(old(history), history) && JobCalls(history) == old(JobCalls(history)) + [e]
    {
      Elapse();
      Record(e);
    }

    /** The status word: the busy bits are the board's, the other bits are anything. */
    method Status() returns (word: bv32)
      requires Valid()
      modifies this
      ensures Valid() && Grows(old(history), history)
      ensures JobCalls(history) == old(JobCalls(history)) + [ReadStatus(word)]
      ensures ShowsBusy(word, 1) == state.list1.busy && ShowsBusy(word, 2) == state.list2.busy
      ensures Work(state) <= old(Work(state))
    {
      hide ValidRun, Replay, JobCalls, StatusWord, ShowsBusy, Left;
      Elapse();
      var others: bv32 := *;
      word := StatusWord(others, state.list1.busy, state.list2.busy);
      StatusWordShows(others, state.list1.busy, state.list2.busy);
      Record(ReadStatus(word));
    }
  }

  function StatusWord(others: bv32, busy1: bool, busy2: bool): bv32 {
    (others & 0xffff_ffcf) | (if busy1 then BUSY1 else 0) | (if busy2 then BUSY2 else 0)
  }

  /** Bit 4 is list 1's, bit 5 is list 2's, and the other bits are as they were. */
  lemma StatusWordShows(others: bv32, busy1: bool, busy2: bool)
    ensures ShowsBusy(StatusWord(others, busy1, busy2), 1) == busy1
    ensures ShowsBusy(StatusWord(others, busy1, busy2), 2) == busy2
    ensures StatusWord(others, busy1, busy2) & 0x10 != 0 <==> busy1
    ensures StatusWord(others, busy1, busy2) & 0x20 != 0 <==> busy2
    ensures StatusWord(others, busy1, busy2) & 0xffff_ffcf == others & 0xffff_ffcf
  {
  }
}
