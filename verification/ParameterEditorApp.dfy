/** The editor's menu as a state machine: what the user answers is an arbitrary input, what each menu action does
    to the job and to the modified flag is a step, and runs are sequences of steps. */
module ParameterEditorApp {
  import opened Wrappers
  import opened OvfModel
  import opened JobEditor

  // ---------------------------------------------------------------------------------------------
  // Menu actions with the user's answers
  // ---------------------------------------------------------------------------------------------

  /** None stands for input the console rejects with an exception, here and in the layer, range and part area of an
      action. */
  datatype ParameterSource =
    | ReturnToMenu
    | UseExistingId(id: Option<int32>)
    | CreateNew(params: Option<(real, real)>)

  /** The answers of the block dialogue, block by block. None skips the block, which is also what the console makes of
      an incomplete or invalid answer: this dialogue never throws. */
  type Answers = seq<Option<(real, real)>>

  datatype Action =
    | ViewParameterSets
    | ApplyToLayerRange(source: ParameterSource, range: Option<(int32, int32)>)
    | ApplyByVectorType(layer: Option<int32>, area: Option<PartArea>, source: ParameterSource)
    | EditVectorBlocks(layer: Option<int32>, answers: Answers)
    | ChangeJobName(name: string)
    | DiscardChanges(confirmed: bool, reloads: bool)
    | SaveAndExit(writes: bool)
    | QuitWithoutSaving(confirmed: bool)
    | InvalidSelection

  /** The active job, the modified flag, whether the menu is still up, and what was written. */
  datatype App = App(job: Job, modified: bool, running: bool, saved: Option<Job>)

  function Loaded(file: Job): App { App(file, false, true, None) }

  /** char.IsWhiteSpace. */
  predicate IsWhiteSpace(c: char) {
    var n := c as int;
    || 0x09 <= n <= 0x0d || n == 0x20 || n == 0x85 || n == 0xa0 || n == 0x1680 || 0x2000 <= n <= 0x200a
    || n == 0x2028 || n == 0x2029 || n == 0x202f || n == 0x205f || n == 0x3000
  }

  predicate IsBlank(name: string) { forall i :: 0 <= i < |name| ==> IsWhiteSpace(name[i]) }

  // ---------------------------------------------------------------------------------------------
  // Steps
  // ---------------------------------------------------------------------------------------------

  datatype Choice = Cancelled | Threw | Chosen(key: int32)

  /** The key the user settles on, and the parameter map afterwards: it may have grown whatever happens next. */
  function ChooseKey(sets: seq<ParamSet>, source: ParameterSource): (Choice, seq<ParamSet>) {
    match source
    case ReturnToMenu => (Cancelled, sets)
    case UseExistingId(None) => (Threw, sets)
    case UseExistingId(Some(id)) => (if Find(sets, id).Some? then Chosen(id) else Threw, sets)
    case CreateNew(None) => (Threw, sets)
    case CreateNew(Some(p)) =>
      var (r, after) := FindOrCreate(sets, p.0, p.1);
      (match r case Success(key) => Chosen(key) case Failure(_) => Threw, after)
  }

  function Answer(answers: Answers, i: nat): Option<(real, real)> {
    if i < |answers| then answers[i] else None
  }

  /** The block loop from block i on: blocks and map afterwards, whether any block was re-keyed, and whether an
      exception left the loop. */
  datatype BlockEdits = BlockEdits(blocks: seq<VectorBlock>, sets: seq<ParamSet>, any: bool, threw: bool)

  function EditBlocksFrom(blocks: seq<VectorBlock>, sets: seq<ParamSet>, answers: Answers, i: nat, any: bool)
    : BlockEdits
    requires i <= |blocks|
    decreases |blocks| - i
  {
    if i == |blocks| then BlockEdits(blocks, sets, any, false)
    else match Answer(answers, i)
      case None => EditBlocksFrom(blocks, sets, answers, i + 1, any)
      case Some(p) =>
        var (r, after) := FindOrCreate(sets, p.0, p.1);
        if r.Failure? then BlockEdits(blocks, after, any, true)
        else EditBlocksFrom(blocks[i := blocks[i].(paramsKey := r.value)], after, answers, i + 1, true)
  }

  function WithBlocks(job: Job, l: nat, edits: BlockEdits): Job
    requires l < |job.planes|
  {
    job.(planes := job.planes[l := job.planes[l].(blocks := edits.blocks)], sets := edits.sets)
  }

  predicate LayerNumberValid(job: Job, layer: int) { 1 <= layer <= |job.planes| }

  /** Carrying out one edit through the editor; an exception from it is caught by the menu. */
  function Edited(st: App, op: Edit): App {
    if Accepted(st.job, op) then st.(job := ApplyEdit(st.job, op), modified := true) else st
  }

  function Step(file: Job, st: App, a: Action): App {
    if !st.running then st
    else match a
      case ApplyToLayerRange(source, range) =>
        var (choice, sets) := ChooseKey(st.job.sets, source);
        var st1 := st.(job := st.job.(sets := sets));
        if !choice.Chosen? || range.None? then st1
        else
          var (start, end) := range.value;
          if start < 1 || end > |st.job.planes| || start > end then st1
          else Edited(st1, ToLayerRange(start - 1, end - 1, choice.key))
      case ApplyByVectorType(layer, area, source) =>
        if |st.job.planes| == 0 || layer.None? || !LayerNumberValid(st.job, layer.value) || area.None? then st
        else
          var (choice, sets) := ChooseKey(st.job.sets, source);
          var st1 := st.(job := st.job.(sets := sets));
          if !choice.Chosen? then st1
          else Edited(st1, ToVectorType(layer.value - 1, area.value, choice.key))
      case EditVectorBlocks(layer, answers) =>
        if layer.None? || !LayerNumberValid(st.job, layer.value) then st
        else
          var l := layer.value - 1;
          var edits := EditBlocksFrom(st.job.planes[l].blocks, st.job.sets, answers, 0, false);
          st.(job := WithBlocks(st.job, l, edits), modified := st.modified || (edits.any && !edits.threw))
      case ChangeJobName(name) =>
        if IsBlank(name) then st else st.(job := st.job.(name := Some(name)), modified := true)
      case DiscardChanges(confirmed, reloads) =>
        if st.modified && confirmed && reloads then st.(job := file, modified := false) else st
      case SaveAndExit(writes) =>
        if writes then st.(saved := Some(st.job), running := false) else st
      case QuitWithoutSaving(confirmed) =>
        if !st.modified || confirmed then st.(running := false) else st
      case _ => st
  }

  function Run(file: Job, st: App, actions: seq<Action>): App {
    if actions == [] then st
    else Step(file, Run(file, st, actions[..|actions| - 1]), actions[|actions| - 1])
  }

  // ---------------------------------------------------------------------------------------------
  // The guards make the editor's own exceptions unreachable
  // ---------------------------------------------------------------------------------------------

  /** What the user settles on: an id that exists, or the key of a set within the tolerance of what was entered. The map
      changes only if such a set had to be added. */
  lemma ChosenKeyLaw(sets: seq<ParamSet>, source: ParameterSource)
    ensures var (choice, after) := ChooseKey(sets, source);
            match source
            case ReturnToMenu => choice == Cancelled && after == sets
            case UseExistingId(None) => choice == Threw && after == sets
            case UseExistingId(Some(id)) => choice == (if HasKey(sets, id) then Chosen(id) else Threw) && after == sets
            case CreateNew(None) => choice == Threw && after == sets
            case CreateNew(Some(p)) =>
              if AddsSet(sets, p.0, p.1)
              then choice.Chosen? && IsNextKey(sets, choice.key)
                   && after == sets + [ParamSet(choice.key, MarkingParams(p.0, p.1, 0.0))]
              else after == sets
                   && (NoneNear(sets, |sets|, p.0, p.1) ==> choice == Threw)
                   && forall i :: 0 <= i < |sets| && Near(sets[i].params, p.0, p.1) && NoneNear(sets, i, p.0, p.1) ==>
                        choice == Chosen(sets[i].key)
  {
    hide Near, IsNextKey, FindOrCreate;
    match source
    case UseExistingId(Some(id)) => FindHasKey(sets, id);
    case CreateNew(Some(p)) => FindOrCreateLaw(sets, p.0, p.1);
    case _ =>
  }

  lemma ChosenKeyExists(sets: seq<ParamSet>, source: ParameterSource)
    ensures var (choice, after) := ChooseKey(sets, source);
            && GrownFrom(sets, after)
            && (UniqueKeys(sets) ==> UniqueKeys(after))
            && (choice.Chosen? ==> Find(after, choice.key).Some? && HasKey(after, choice.key))
  {
    var (choice, after) := ChooseKey(sets, source);
    match source
    case CreateNew(Some(p)) =>
      FindOrCreateGrows(sets, p.0, p.1);
      if choice.Chosen? { FindHasKey(after, choice.key); }
    case UseExistingId(Some(id)) => FindHasKey(sets, id);
    case _ =>
  }

  /** The edit an action asks the editor for, if it gets that far. */
  function EditorCall(st: App, a: Action): Option<(Job, Edit)> {
    match a
    case ApplyToLayerRange(source, Some(range)) =>
      var (choice, sets) := ChooseKey(st.job.sets, source);
      if choice.Chosen? && !(range.0 < 1 || range.1 > |st.job.planes| || range.0 > range.1)
      then Some((st.job.(sets := sets), ToLayerRange(range.0 - 1, range.1 - 1, choice.key))) else None
    case ApplyByVectorType(Some(layer), Some(area), source) =>
      var (choice, sets) := ChooseKey(st.job.sets, source);
      if LayerNumberValid(st.job, layer) && choice.Chosen?
      then Some((st.job.(sets := sets), ToVectorType(layer - 1, area, choice.key))) else None
    case _ => None
  }

  /** Whatever the user enters, the editor is only ever called with a valid range and an existing key, so its range
      and key exceptions cannot occur, and the edit takes effect. */
  lemma EditorNeverThrows(file: Job, st: App, a: Action)
    requires st.running && EditorCall(st, a).Some?
    ensures var (job, op) := EditorCall(st, a).value;
            Accepted(job, op) && Step(file, st, a) == st.(job := ApplyEdit(job, op), modified := true)
  {
    hide ChooseKey, ApplyEdit, Find;
    ChosenKeyExists(st.job.sets, a.source);
  }

  // ---------------------------------------------------------------------------------------------
  // Invariants of all runs
  // ---------------------------------------------------------------------------------------------

  /** Compared with the file, only block keys and the name may differ, and the parameter map may have grown at its
      end; and block keys that resolved in the file's job still do. */
  ghost predicate Extends(file: Job, job: Job) {
    && GrownFrom(file.sets, job.sets)
    && SameUpToKeys(file.planes, job.planes)
    && (UniqueKeys(file.sets) ==> UniqueKeys(job.sets))
    && (Resolves(file) ==> Resolves(job))
  }

  lemma ResolvesGrows(job: Job, sets: seq<ParamSet>)
    requires Resolves(job) && job.sets <= sets
    ensures Resolves(job.(sets := sets))
  {
    forall i | 0 <= i < |job.planes|
      ensures BlocksResolve(job.planes[i].blocks, sets)
    {
      BlocksResolveGrows(job.planes[i].blocks, job.sets, sets);
    }
  }

  lemma BlocksResolveGrows(blocks: seq<VectorBlock>, sets: seq<ParamSet>, more: seq<ParamSet>)
    requires BlocksResolve(blocks, sets) && sets <= more
    ensures BlocksResolve(blocks, more)
  {
    forall j | 0 <= j < |blocks|
      ensures HasKey(more, blocks[j].paramsKey)
    {
      var k :| 0 <= k < |sets| && sets[k].key == blocks[j].paramsKey;
      assert more[k].key == blocks[j].paramsKey;
    }
  }

  lemma GrownExtends(file: Job, job: Job, sets: seq<ParamSet>)
    requires Extends(file, job) && GrownFrom(job.sets, sets) && (UniqueKeys(job.sets) ==> UniqueKeys(sets))
    ensures Extends(file, job.(sets := sets))
  {
    if Resolves(job) { ResolvesGrows(job, sets); }
  }

  lemma EditExtends(file: Job, job: Job, op: Edit)
    requires Extends(file, job) && Accepted(job, op)
    ensures Extends(file, ApplyEdit(job, op))
  {
    FindHasKey(job.sets, op.key);
    var after := ApplyEdit(job, op);
    if Resolves(job) {
      forall i | 0 <= i < |after.planes|
        ensures BlocksResolve(after.planes[i].blocks, after.sets)
      {
        assert BlocksResolve(job.planes[i].blocks, job.sets);
        assert after.planes[i] == EditPlane(op, i, job.planes[i]);
      }
    }
  }

  /** The parameter map when the user is asked about block n. */
  function MapAt(sets: seq<ParamSet>, answers: Answers, n: nat): seq<ParamSet> {
    if n == 0 then sets
    else
      var m := MapAt(sets, answers, n - 1);
      match Answer(answers, n - 1) case None => m case Some(p) => FindOrCreate(m, p.0, p.1).1
  }

  /** Block n asks for a set that no set in the map matches while both ends of the key range are in use. */
  ghost predicate FailsAt(sets: seq<ParamSet>, answers: Answers, n: nat) {
    var m, answer := MapAt(sets, answers, n), Answer(answers, n);
    && answer.Some?
    && NoneNear(m, |m|, answer.value.0, answer.value.1)
    && HasKey(m, 0x7fff_ffff) && HasKey(m, -0x8000_0000)
  }

  /** The key an answer for block n stands for. */
  function KeyAt(sets: seq<ParamSet>, answers: Answers, n: nat): Option<int32> {
    match Answer(answers, n)
    case None => None
    case Some(p) =>
      match FindOrCreate(MapAt(sets, answers, n), p.0, p.1).0
      case Success(key) => Some(key)
      case Failure(_) => None
  }

  ghost predicate NoneFails(sets: seq<ParamSet>, answers: Answers, from: nat, to: nat) {
    forall m :: from <= m < to ==> !FailsAt(sets, answers, m)
  }

  lemma LoopStep(blocks: seq<VectorBlock>, sets: seq<ParamSet>, answers: Answers, i: nat, any: bool)
    requires i < |blocks|
    ensures var key := KeyAt(sets, answers, i);
            EditBlocksFrom(blocks, MapAt(sets, answers, i), answers, i, any)
            == if FailsAt(sets, answers, i) then BlockEdits(blocks, MapAt(sets, answers, i), any, true)
               else EditBlocksFrom(if key.Some? then blocks[i := blocks[i].(paramsKey := key.value)] else blocks,
                                   MapAt(sets, answers, i + 1), answers, i + 1, any || key.Some?)
  {
    if Answer(answers, i).Some? {
      var p := Answer(answers, i).value;
      FailsOnlyWhenKeysWrap(MapAt(sets, answers, i), p.0, p.1);
    }
  }

  /** Block j after the loop has run from block i on. */
  ghost function BlockAfter(block: VectorBlock, sets: seq<ParamSet>, answers: Answers, i: nat, j: nat): VectorBlock {
    if i <= j && KeyAt(sets, answers, j).Some? && NoneFails(sets, answers, i, j)
    then block.(paramsKey := KeyAt(sets, answers, j).value) else block
  }

  lemma NoneFailsFrom(sets: seq<ParamSet>, answers: Answers, i: nat, j: nat)
    requires i < j
    ensures NoneFails(sets, answers, i, j) <==> !FailsAt(sets, answers, i) && NoneFails(sets, answers, i + 1, j)
  {
    hide FailsAt;
  }

  lemma BlockAfterStep(block: VectorBlock, sets: seq<ParamSet>, answers: Answers, i: nat, j: nat)
    requires !FailsAt(sets, answers, i)
    ensures var key := KeyAt(sets, answers, i);
            BlockAfter(block, sets, answers, i, j)
            == BlockAfter(if i == j && key.Some? then block.(paramsKey := key.value) else block,
                          sets, answers, i + 1, j)
  {
    hide FailsAt, KeyAt;
    if i < j { NoneFailsFrom(sets, answers, i, j); }
  }

  lemma NothingAfterFailure(block: VectorBlock, sets: seq<ParamSet>, answers: Answers, i: nat, j: nat)
    requires FailsAt(sets, answers, i)
    ensures BlockAfter(block, sets, answers, i, j) == block
  {
    var p := Answer(answers, i).value;
    FailsOnlyWhenKeysWrap(MapAt(sets, answers, i), p.0, p.1);
    hide FailsAt;
    if i < j { NoneFailsFrom(sets, answers, i, j); }
  }

  /** What the block loop does, block by block: up to the first request that fails, every answered block gets the key
      of a set within the tolerance of its answer; from there on, and where the user skips, blocks stay as they are.
      An exception leaves the loop exactly if some request fails. */
  lemma {:induction false} BlockLoop(
      blocks: seq<VectorBlock>, sets: seq<ParamSet>, answers: Answers, i: nat, any: bool)
    requires i <= |blocks|
    ensures var e := EditBlocksFrom(blocks, MapAt(sets, answers, i), answers, i, any);
            && |e.blocks| == |blocks|
            && (e.threw <==> !NoneFails(sets, answers, i, |blocks|))
            && (e.any || e.blocks == blocks)
            && (any ==> e.any)
            && (!e.threw ==> (e.any <==> any || exists j :: i <= j < |blocks| && KeyAt(sets, answers, j).Some?))
            && forall j :: 0 <= j < |blocks| ==> e.blocks[j] == BlockAfter(blocks[j], sets, answers, i, j)
    decreases |blocks| - i
  {
    hide MapAt, FailsAt, KeyAt, FindOrCreate, Answer;
    if i < |blocks| {
      hide EditBlocksFrom, NoneFails, BlockAfter;
      LoopStep(blocks, sets, answers, i, any);
      NoneFailsFrom(sets, answers, i, |blocks|);
      if FailsAt(sets, answers, i) {
        forall j | 0 <= j < |blocks| ensures blocks[j] == BlockAfter(blocks[j], sets, answers, i, j) {
          NothingAfterFailure(blocks[j], sets, answers, i, j);
        }
      } else {
        var key := KeyAt(sets, answers, i);
        var next := if key.Some? then blocks[i := blocks[i].(paramsKey := key.value)] else blocks;
        BlockLoop(next, sets, answers, i + 1, any || key.Some?);
        var e := EditBlocksFrom(blocks, MapAt(sets, answers, i), answers, i, any);
        forall j | 0 <= j < |blocks| ensures e.blocks[j] == BlockAfter(blocks[j], sets, answers, i, j) {
          BlockAfterStep(blocks[j], sets, answers, i, j);
        }
      }
    }
  }

  lemma {:induction false} BlockEditsGrow(
      blocks: seq<VectorBlock>, sets: seq<ParamSet>, answers: Answers, i: nat, any: bool)
    requires i <= |blocks|
    ensures var e := EditBlocksFrom(blocks, sets, answers, i, any);
            GrownFrom(sets, e.sets) && (UniqueKeys(sets) ==> UniqueKeys(e.sets))
    decreases |blocks| - i
  {
    if i < |blocks| {
      hide FindOrCreate, Near, Answer, UniqueKeys;
      match Answer(answers, i)
      case None => BlockEditsGrow(blocks, sets, answers, i + 1, any);
      case Some(p) =>
        FindOrCreateGrows(sets, p.0, p.1);
        var (r, after) := FindOrCreate(sets, p.0, p.1);
        if r.Success? {
          BlockEditsGrow(blocks[i := blocks[i].(paramsKey := r.value)], after, answers, i + 1, true);
        }
    }
  }

  lemma {:induction false} BlockEditsResolve(
      blocks: seq<VectorBlock>, sets: seq<ParamSet>, answers: Answers, i: nat, any: bool)
    requires i <= |blocks| && BlocksResolve(blocks, sets)
    ensures var e := EditBlocksFrom(blocks, sets, answers, i, any); BlocksResolve(e.blocks, e.sets)
    decreases |blocks| - i
  {
    if i < |blocks| {
      hide FindOrCreate, Near, Answer;
      match Answer(answers, i)
      case None => BlockEditsResolve(blocks, sets, answers, i + 1, any);
      case Some(p) =>
        FindOrCreateGrows(sets, p.0, p.1);
        var (r, after) := FindOrCreate(sets, p.0, p.1);
        BlocksResolveGrows(blocks, sets, after);
        if r.Success? {
          assert HasKey(after, r.value);
          BlockEditsResolve(blocks[i := blocks[i].(paramsKey := r.value)], after, answers, i + 1, true);
        }
    }
  }

  lemma BlockEditsExtend(file: Job, job: Job, l: nat, answers: Answers)
    requires Extends(file, job) && l < |job.planes|
    ensures Extends(file, WithBlocks(job, l, EditBlocksFrom(job.planes[l].blocks, job.sets, answers, 0, false)))
  {
    hide EditBlocksFrom;
    var plane := job.planes[l];
    BlockEditsGrow(plane.blocks, job.sets, answers, 0, false);
    BlockLoop(plane.blocks, job.sets, answers, 0, false);
    if BlocksResolve(plane.blocks, job.sets) { BlockEditsResolve(plane.blocks, job.sets, answers, 0, false); }
    var after := WithBlocks(job, l, EditBlocksFrom(job.planes[l].blocks, job.sets, answers, 0, false));
    if Resolves(job) {
      assert BlocksResolve(job.planes[l].blocks, job.sets);
      forall i | 0 <= i < |after.planes|
        ensures BlocksResolve(after.planes[i].blocks, after.sets)
      {
        if i != l { BlocksResolveGrows(job.planes[i].blocks, job.sets, after.sets); }
      }
    }
  }

  lemma StepExtends(file: Job, st: App, a: Action)
    requires Extends(file, st.job)
    ensures Extends(file, Step(file, st, a).job)
  {
    hide Extends, ApplyEdit, EditBlocksFrom, FindOrCreate, ChooseKey, Accepted;
    FileExtendsItself(file);
    match a
    case ApplyToLayerRange(source, range) =>
      ChosenKeyExists(st.job.sets, source);
      GrownExtends(file, st.job, ChooseKey(st.job.sets, source).1);
      EditedExtends(file, st.(job := st.job.(sets := ChooseKey(st.job.sets, source).1)));
    case ApplyByVectorType(layer, area, source) =>
      ChosenKeyExists(st.job.sets, source);
      GrownExtends(file, st.job, ChooseKey(st.job.sets, source).1);
      EditedExtends(file, st.(job := st.job.(sets := ChooseKey(st.job.sets, source).1)));
    case EditVectorBlocks(layer, answers) =>
      if layer.Some? && LayerNumberValid(st.job, layer.value) {
        BlockEditsExtend(file, st.job, layer.value - 1, answers);
      }
    case ChangeJobName(name) => RenamedExtends(file, st.job, Some(name));
    case _ =>
  }

  lemma EditedExtends(file: Job, st: App)
    requires Extends(file, st.job)
    ensures forall op :: Extends(file, Edited(st, op).job)
  {
    hide Extends, ApplyEdit, Accepted;
    forall op ensures Extends(file, Edited(st, op).job) {
      if Accepted(st.job, op) { EditExtends(file, st.job, op); }
    }
  }

  lemma RenamedExtends(file: Job, job: Job, name: Option<string>)
    requires Extends(file, job)
    ensures Extends(file, job.(name := name))
  {
  }

  lemma FileExtendsItself(file: Job)
    ensures Extends(file, file)
  {
  }

  /** Referential integrity over every run of the menu: parameter sets of the file are never removed or altered,
      geometry and metadata stay, and a job all of whose keys resolved still resolves. */
  lemma {:induction false} RunExtends(file: Job, actions: seq<Action>)
    ensures Extends(file, Run(file, Loaded(file), actions).job)
    ensures Run(file, Loaded(file), actions).saved.Some? ==>
              Extends(file, Run(file, Loaded(file), actions).saved.value)
  {
    hide Extends;
    if actions == [] {
      FileExtendsItself(file);
    } else {
      var before := actions[..|actions| - 1];
      RunExtends(file, before);
      StepExtends(file, Run(file, Loaded(file), before), actions[|actions| - 1]);
    }
  }

  // ---------------------------------------------------------------------------------------------
  // What an unset modified flag promises
  // ---------------------------------------------------------------------------------------------

  /** While the flag is unset, name and planes, block keys included, are the file's. (The parameter map may still
      have grown: a set is created before the layer range is checked.) */
  ghost predicate FlagSound(file: Job, st: App) {
    !st.modified ==> st.job.name == file.name && st.job.planes == file.planes
  }

  /** Block j is given another key than it has. */
  ghost predicate Rekeys(blocks: seq<VectorBlock>, sets: seq<ParamSet>, answers: Answers, j: nat)
    requires j < |blocks|
  {
    && NoneFails(sets, answers, 0, j) && KeyAt(sets, answers, j).Some?
    && KeyAt(sets, answers, j).value != blocks[j].paramsKey
  }

  /** The one way the flag lies: a request for a new set fails for want of keys after an earlier block of the layer
      was given another key. (The console's block dialogue itself never throws; another user interface whose dialogue
      did would open a second way.) */
  ghost predicate LosesEdits(st: App, a: Action) {
    && st.running && !st.modified
    && a.EditVectorBlocks? && a.layer.Some? && LayerNumberValid(st.job, a.layer.value)
    && var blocks := st.job.planes[a.layer.value - 1].blocks;
       exists j, n :: 0 <= j < n < |blocks| && Rekeys(blocks, st.job.sets, a.answers, j)
                      && FailsAt(st.job.sets, a.answers, n)
  }

  /** The loop loses edits exactly when one block is re-keyed and a later request fails. */
  lemma LoopLoses(blocks: seq<VectorBlock>, sets: seq<ParamSet>, answers: Answers)
    ensures var e := EditBlocksFrom(blocks, sets, answers, 0, false);
            e.threw && e.blocks != blocks
            <==> exists j, n :: 0 <= j < n < |blocks| && Rekeys(blocks, sets, answers, j) && FailsAt(sets, answers, n)
  {
    hide EditBlocksFrom, FailsAt, KeyAt;
    var e := EditBlocksFrom(blocks, sets, answers, 0, false);
    BlockLoop(blocks, sets, answers, 0, false);
    if e.threw && e.blocks != blocks {
      var j :| 0 <= j < |blocks| && e.blocks[j] != blocks[j];
      assert Rekeys(blocks, sets, answers, j);
      var n :| 0 <= n < |blocks| && FailsAt(sets, answers, n);
      if n <= j {
        assert n == j;
        NothingAfterFailure(blocks[j], sets, answers, j, j);
      }
    }
    if j, n :| 0 <= j < n < |blocks| && Rekeys(blocks, sets, answers, j) && FailsAt(sets, answers, n) {
      assert e.blocks[j] != blocks[j];
    }
  }

  lemma StepFlag(file: Job, st: App, a: Action)
    requires FlagSound(file, st)
    ensures FlagSound(file, Step(file, st, a)) <==> !LosesEdits(st, a)
  {
    hide ApplyEdit, EditBlocksFrom, FindOrCreate, ChooseKey, Accepted, Rekeys, FailsAt;
    if st.running && a.EditVectorBlocks? && a.layer.Some? && LayerNumberValid(st.job, a.layer.value) {
      var l := a.layer.value - 1;
      var plane := st.job.planes[l];
      var e := EditBlocksFrom(plane.blocks, st.job.sets, a.answers, 0, false);
      BlockLoop(plane.blocks, st.job.sets, a.answers, 0, false);
      LoopLoses(plane.blocks, st.job.sets, a.answers);
      var planes := st.job.planes[l := plane.(blocks := e.blocks)];
      assert planes[l].blocks == e.blocks;
      if e.blocks == plane.blocks { assert planes == st.job.planes; }
    }
  }

  lemma FlagSoundAtStart(file: Job)
    ensures FlagSound(file, Run(file, Loaded(file), []))
  {
  }

  /** The flag tells the truth after every step of the run. */
  ghost predicate AlwaysSound(file: Job, actions: seq<Action>) {
    && FlagSound(file, Run(file, Loaded(file), actions))
    && (actions != [] ==> AlwaysSound(file, actions[..|actions| - 1]))
  }

  ghost predicate NeverLoses(file: Job, actions: seq<Action>) {
    actions != [] ==>
      && NeverLoses(file, actions[..|actions| - 1])
      && !LosesEdits(Run(file, Loaded(file), actions[..|actions| - 1]), actions[|actions| - 1])
  }

  /** Flag soundness over whole runs, exactly: it holds at every point of a run if and only if no step of the run
      loses edits. */
  lemma {:induction false} RunFlag(file: Job, actions: seq<Action>)
    ensures AlwaysSound(file, actions) <==> NeverLoses(file, actions)
  {
    hide FlagSound, LosesEdits, Step;
    if actions == [] {
      FlagSoundAtStart(file);
    } else {
      var before := actions[..|actions| - 1];
      RunFlag(file, before);
      if AlwaysSound(file, before) {
        StepFlag(file, Run(file, Loaded(file), before), actions[|actions| - 1]);
      }
    }
  }

  /** Edits are lost, for instance, with both ends of the key range in use: the first block is re-keyed to an existing
      set, the second needs a new one, and the flag stays unset although the job differs from the file. */
  lemma LostEdits()
    ensures var block := VectorBlock(Unsupported, MIN_KEY, None);
            var file := Job(Some("job"),
                            [ParamSet(MAX_KEY, MarkingParams(100.0, 500.0, 0.0)),
                             ParamSet(MIN_KEY, MarkingParams(200.0, 500.0, 0.0))],
                            [WorkPlane(0, 0.0, [block, block])]);
            var answers := [Some((100.0, 500.0)), Some((300.0, 500.0))];
            !FlagSound(file, Step(file, Loaded(file), EditVectorBlocks(Some(1), answers)))
  {
    var block := VectorBlock(Unsupported, MIN_KEY, None);
    var sets := [ParamSet(MAX_KEY, MarkingParams(100.0, 500.0, 0.0)),
                 ParamSet(MIN_KEY, MarkingParams(200.0, 500.0, 0.0))];
    var answers := [Some((100.0, 500.0)), Some((300.0, 500.0))];
    var blocks := [block, block];
    var file := Job(Some("job"), sets, [WorkPlane(0, 0.0, blocks)]);
    var rekeyed := blocks[0 := block.(paramsKey := MAX_KEY)];
    assert sets[0].key == MAX_KEY && sets[1].key == MIN_KEY;
    assert Matches(sets[0].params, 100.0, 500.0);
    assert FindOrCreate(sets, 100.0, 500.0) == (Success(MAX_KEY), sets);
    assert !Matches(sets[0].params, 300.0, 500.0) && !Matches(sets[1].params, 300.0, 500.0);
    FailsOnlyWhenKeysWrap(sets, 300.0, 500.0);
    assert EditBlocksFrom(rekeyed, sets, answers, 1, true) == BlockEdits(rekeyed, sets, true, true);
    assert EditBlocksFrom(blocks, sets, answers, 0, false) == BlockEdits(rekeyed, sets, true, true);
    assert rekeyed[0] != blocks[0];
    LoopLoses(blocks, sets, answers);
    assert LosesEdits(Loaded(file), EditVectorBlocks(Some(1), answers));
    StepFlag(file, Loaded(file), EditVectorBlocks(Some(1), answers));
  }

  // ---------------------------------------------------------------------------------------------
  // What an unset modified flag promises about the parameter map
  // ---------------------------------------------------------------------------------------------

  ghost predicate MapSound(file: Job, st: App) {
    !st.modified ==> st.job.sets == file.sets
  }

  /** The request adds a set: nothing in the map matches, and not both ends of the key range are in use. */
  ghost predicate AddsSet(sets: seq<ParamSet>, power: real, speed: real) {
    && NoneNear(sets, |sets|, power, speed)
    && !(HasKey(sets, 0x7fff_ffff) && HasKey(sets, -0x8000_0000))
  }

  lemma AddsSetIff(sets: seq<ParamSet>, power: real, speed: real)
    ensures AddsSet(sets, power, speed) <==> FindOrCreate(sets, power, speed).1 != sets
  {
    FirstMatchIs(sets, power, speed);
    FailsOnlyWhenKeysWrap(sets, power, speed);
  }

  /** The answer for block j adds a set, and the loop gets that far. */
  ghost predicate AddsAt(sets: seq<ParamSet>, answers: Answers, j: nat) {
    var answer := Answer(answers, j);
    answer.Some? && AddsSet(MapAt(sets, answers, j), answer.value.0, answer.value.1)
  }

  predicate RangeRejected(job: Job, range: Option<(int32, int32)>) {
    range.None? || range.value.0 < 1 || range.value.1 > |job.planes| || range.value.0 > range.value.1
  }

  /** The two ways the map grows with the flag unset: a set is created for a layer range that is then missing or
      rejected; or, among the blocks of a layer, an answer adds a set before a later one fails for want of keys. */
  ghost predicate GrowsUnflagged(st: App, a: Action) {
    && st.running && !st.modified
    && match a
       case ApplyToLayerRange(CreateNew(Some(p)), range) =>
         AddsSet(st.job.sets, p.0, p.1) && RangeRejected(st.job, range)
       case EditVectorBlocks(Some(layer), answers) =>
         && LayerNumberValid(st.job, layer)
         && exists j, n :: 0 <= j < n < |st.job.planes[layer - 1].blocks|
                           && NoneFails(st.job.sets, answers, 0, j) && AddsAt(st.job.sets, answers, j)
                           && FailsAt(st.job.sets, answers, n)
       case _ => false
  }

  /** The map after answering block i. */
  lemma MapStep(sets: seq<ParamSet>, answers: Answers, i: nat)
    ensures GrownFrom(MapAt(sets, answers, i), MapAt(sets, answers, i + 1))
    ensures MapAt(sets, answers, i + 1) != MapAt(sets, answers, i) <==> AddsAt(sets, answers, i)
    ensures AddsAt(sets, answers, i) ==> !FailsAt(sets, answers, i) && KeyAt(sets, answers, i).Some?
  {
    var m := MapAt(sets, answers, i);
    if Answer(answers, i).Some? {
      var p := Answer(answers, i).value;
      FindOrCreateGrows(m, p.0, p.1);
      AddsSetIff(m, p.0, p.1);
      FailsOnlyWhenKeysWrap(m, p.0, p.1);
    }
  }

  ghost predicate AddsReached(sets: seq<ParamSet>, answers: Answers, i: nat, n: nat) {
    exists j :: i <= j < n && AddsAt(sets, answers, j) && NoneFails(sets, answers, i, j)
  }

  lemma AddsReachedFrom(sets: seq<ParamSet>, answers: Answers, i: nat, n: nat)
    requires i < n
    ensures AddsReached(sets, answers, i, n)
            <==> AddsAt(sets, answers, i) || (!FailsAt(sets, answers, i) && AddsReached(sets, answers, i + 1, n))
  {
    hide AddsAt, FailsAt;
    if AddsAt(sets, answers, i) { assert NoneFails(sets, answers, i, i); }
    if j :| i < j < n && AddsAt(sets, answers, j) && NoneFails(sets, answers, i, j) {
      NoneFailsFrom(sets, answers, i, j);
    }
    if !FailsAt(sets, answers, i) {
      if j :| i + 1 <= j < n && AddsAt(sets, answers, j) && NoneFails(sets, answers, i + 1, j) {
        NoneFailsFrom(sets, answers, i, j);
      }
    }
  }

  /** The block loop changes the map exactly if one of the answers it reaches adds a set. */
  lemma {:induction false} LoopGrows(
      blocks: seq<VectorBlock>, sets: seq<ParamSet>, answers: Answers, i: nat, any: bool)
    requires i <= |blocks|
    ensures var e := EditBlocksFrom(blocks, MapAt(sets, answers, i), answers, i, any);
            && (e.sets != MapAt(sets, answers, i) <==> AddsReached(sets, answers, i, |blocks|))
            && (any ==> e.any)
            && (e.any || e.sets == MapAt(sets, answers, i))
    decreases |blocks| - i
  {
    hide MapAt, FailsAt, KeyAt, FindOrCreate, Answer, AddsAt;
    if i < |blocks| {
      hide EditBlocksFrom, NoneFails, AddsReached, UniqueKeys;
      LoopStep(blocks, sets, answers, i, any);
      MapStep(sets, answers, i);
      AddsReachedFrom(sets, answers, i, |blocks|);
      if !FailsAt(sets, answers, i) {
        var key := KeyAt(sets, answers, i);
        var next := if key.Some? then blocks[i := blocks[i].(paramsKey := key.value)] else blocks;
        LoopGrows(next, sets, answers, i + 1, any || key.Some?);
        BlockEditsGrow(next, MapAt(sets, answers, i + 1), answers, i + 1, any || key.Some?);
      }
    }
  }

  /** The map the loop leaves behind: that after all answers, or that at the first request that fails. */
  lemma {:induction false} LoopMap(
      blocks: seq<VectorBlock>, sets: seq<ParamSet>, answers: Answers, i: nat, any: bool)
    requires i <= |blocks|
    ensures var e := EditBlocksFrom(blocks, MapAt(sets, answers, i), answers, i, any);
            && (NoneFails(sets, answers, i, |blocks|) ==> e.sets == MapAt(sets, answers, |blocks|))
            && forall n :: i <= n < |blocks| && FailsAt(sets, answers, n) && NoneFails(sets, answers, i, n) ==>
                 e.sets == MapAt(sets, answers, n)
    decreases |blocks| - i
  {
    hide MapAt, FailsAt, KeyAt, FindOrCreate, Answer;
    if i < |blocks| {
      hide EditBlocksFrom, NoneFails;
      LoopStep(blocks, sets, answers, i, any);
      forall n | i < n <= |blocks|
        ensures NoneFails(sets, answers, i, n) <==> !FailsAt(sets, answers, i) && NoneFails(sets, answers, i + 1, n)
      {
        NoneFailsFrom(sets, answers, i, n);
      }
      if !FailsAt(sets, answers, i) {
        var key := KeyAt(sets, answers, i);
        var next := if key.Some? then blocks[i := blocks[i].(paramsKey := key.value)] else blocks;
        LoopMap(next, sets, answers, i + 1, any || key.Some?);
      }
    }
  }

  /** What an answer does: its block is given the key of a set within the tolerance of it, in the map as it is then. */
  lemma AnswerLaw(sets: seq<ParamSet>, answers: Answers, n: nat)
    ensures n >= |answers| || answers[n].None? ==>
              KeyAt(sets, answers, n).None? && MapAt(sets, answers, n + 1) == MapAt(sets, answers, n)
    ensures n < |answers| && answers[n].Some? ==> (KeyAt(sets, answers, n).None? <==> FailsAt(sets, answers, n))
    ensures KeyAt(sets, answers, n).Some? ==>
              n < |answers| && answers[n].Some? &&
              var m, key, p := MapAt(sets, answers, n + 1), KeyAt(sets, answers, n).value, answers[n].value;
              exists i :: 0 <= i < |m| && m[i].key == key && Near(m[i].params, p.0, p.1)
  {
    hide Near, FindOrCreate;
    assert MapAt(sets, answers, n + 1) == match Answer(answers, n)
                                          case None => MapAt(sets, answers, n)
                                          case Some(p) => FindOrCreate(MapAt(sets, answers, n), p.0, p.1).1;
    if Answer(answers, n).Some? {
      var p := answers[n].value;
      FindOrCreateGrows(MapAt(sets, answers, n), p.0, p.1);
      FailsOnlyWhenKeysWrap(MapAt(sets, answers, n), p.0, p.1);
    }
  }

  /** The loop is left by an exception with the map changed exactly if an answer adds a set and a later one fails. */
  lemma LoopGrowsUnflagged(blocks: seq<VectorBlock>, sets: seq<ParamSet>, answers: Answers)
    ensures var e := EditBlocksFrom(blocks, sets, answers, 0, false);
            e.threw && e.sets != sets
            <==> exists j, n :: 0 <= j < n < |blocks| && NoneFails(sets, answers, 0, j) && AddsAt(sets, answers, j)
                                && FailsAt(sets, answers, n)
  {
    hide EditBlocksFrom, FailsAt, AddsAt, KeyAt;
    var e := EditBlocksFrom(blocks, sets, answers, 0, false);
    BlockLoop(blocks, sets, answers, 0, false);
    LoopGrows(blocks, sets, answers, 0, false);
    if e.threw && e.sets != sets {
      var j :| 0 <= j < |blocks| && AddsAt(sets, answers, j) && NoneFails(sets, answers, 0, j);
      var n :| 0 <= n < |blocks| && FailsAt(sets, answers, n);
      MapStep(sets, answers, j);
      assert j < n;
    }
  }

  /** A step keeps an unset flag truthful about the parameter map if and only if it is not one of the two. */
  lemma StepMap(file: Job, st: App, a: Action)
    requires MapSound(file, st)
    ensures MapSound(file, Step(file, st, a)) <==> !GrowsUnflagged(st, a)
  {
    hide ApplyEdit, EditBlocksFrom, FindOrCreate, AddsSet, AddsAt, FailsAt, NoneFails, Find;
    if st.running && !st.modified {
      match a
      case ApplyToLayerRange(source, range) =>
        ChosenKeyExists(st.job.sets, source);
        if source.CreateNew? && source.params.Some? {
          AddsSetIff(st.job.sets, source.params.value.0, source.params.value.1);
          FailedRequestAddsNothing(st.job.sets, source.params.value);
        }
      case ApplyByVectorType(layer, area, source) =>
        ChosenKeyExists(st.job.sets, source);
        if source.CreateNew? && source.params.Some? {
          FailedRequestAddsNothing(st.job.sets, source.params.value);
        }
      case EditVectorBlocks(layer, answers) =>
        if layer.Some? && LayerNumberValid(st.job, layer.value) {
          var blocks := st.job.planes[layer.value - 1].blocks;
          LoopGrows(blocks, st.job.sets, answers, 0, false);
          LoopGrowsUnflagged(blocks, st.job.sets, answers);
        }
      case _ =>
    }
  }

  lemma FailedRequestAddsNothing(sets: seq<ParamSet>, p: (real, real))
    ensures FindOrCreate(sets, p.0, p.1).0.Failure? ==> FindOrCreate(sets, p.0, p.1).1 == sets
  {
  }

  lemma MapSoundAtStart(file: Job)
    ensures MapSound(file, Run(file, Loaded(file), []))
  {
  }

  /** The flag tells the truth about the map after every step of the run. */
  ghost predicate MapAlwaysSound(file: Job, actions: seq<Action>) {
    && MapSound(file, Run(file, Loaded(file), actions))
    && (actions != [] ==> MapAlwaysSound(file, actions[..|actions| - 1]))
  }

  ghost predicate NeverGrowsUnflagged(file: Job, actions: seq<Action>) {
    actions != [] ==>
      && NeverGrowsUnflagged(file, actions[..|actions| - 1])
      && !GrowsUnflagged(Run(file, Loaded(file), actions[..|actions| - 1]), actions[|actions| - 1])
  }

  /** Over whole runs, exactly: at every point of a run an unset flag means the file's own parameter map if and only if
      no step of the run grows the map unflagged. */
  lemma {:induction false} RunMap(file: Job, actions: seq<Action>)
    ensures MapAlwaysSound(file, actions) <==> NeverGrowsUnflagged(file, actions)
  {
    hide MapSound, GrowsUnflagged, Step;
    if actions == [] {
      MapSoundAtStart(file);
    } else {
      var before := actions[..|actions| - 1];
      RunMap(file, before);
      if MapAlwaysSound(file, before) {
        StepMap(file, Run(file, Loaded(file), before), actions[|actions| - 1]);
      }
    }
  }

  /** The first way, on a job without layers: a set is created, and the range the user then fails to enter. */
  lemma GrownMap()
    ensures var file := Job(Some("job"), [], []);
            var st := Step(file, Loaded(file), ApplyToLayerRange(CreateNew(Some((100.0, 500.0))), None));
            !st.modified && st.job.sets != file.sets
  {
  }

  /** The second way, with one key left: the first block takes it, the second finds none. */
  lemma GrownMapByBlocks()
    ensures var block := VectorBlock(Unsupported, MAX_KEY, None);
            var file := Job(Some("job"), [ParamSet(MAX_KEY, MarkingParams(100.0, 500.0, 0.0))],
                            [WorkPlane(0, 0.0, [block, block])]);
            var answers := [Some((200.0, 500.0)), Some((300.0, 500.0))];
            var st := Step(file, Loaded(file), EditVectorBlocks(Some(1), answers));
            !st.modified && st.job.sets != file.sets
  {
    var block := VectorBlock(Unsupported, MAX_KEY, None);
    var blocks := [block, block];
    var sets := [ParamSet(MAX_KEY, MarkingParams(100.0, 500.0, 0.0))];
    var grown := sets + [ParamSet(MIN_KEY, MarkingParams(200.0, 500.0, 0.0))];
    var answers := [Some((200.0, 500.0)), Some((300.0, 500.0))];
    var rekeyed := blocks[0 := block.(paramsKey := MIN_KEY)];
    assert sets[0].key == MAX_KEY && MaxKey(sets) == MAX_KEY;
    assert !Matches(sets[0].params, 200.0, 500.0);
    FindHasKey(sets, MIN_KEY);
    FirstMatchIs(sets, 200.0, 500.0);
    assert FindOrCreate(sets, 200.0, 500.0) == (Success(MIN_KEY), grown);
    assert grown[0].key == MAX_KEY && grown[1].key == MIN_KEY;
    assert !Matches(grown[0].params, 300.0, 500.0) && !Matches(grown[1].params, 300.0, 500.0);
    FailsOnlyWhenKeysWrap(grown, 300.0, 500.0);
    assert EditBlocksFrom(rekeyed, grown, answers, 1, true) == BlockEdits(rekeyed, grown, true, true);
    assert EditBlocksFrom(blocks, sets, answers, 0, false) == BlockEdits(rekeyed, grown, true, true);
  }

  /** There is room in practice: with every key at least as far below the top of the range as the layer has
      blocks, block editing cannot be left by an exception. */
  lemma {:induction false} RoomForKeys(
      blocks: seq<VectorBlock>, sets: seq<ParamSet>, answers: Answers, i: nat, any: bool)
    requires i <= |blocks| <= MAX_KEY
    requires forall k :: 0 <= k < |sets| ==> sets[k].key + (|blocks| - i) <= MAX_KEY
    ensures !EditBlocksFrom(blocks, sets, answers, i, any).threw
    decreases |blocks| - i
  {
    if i < |blocks| {
      match Answer(answers, i)
      case None => RoomForKeys(blocks, sets, answers, i + 1, any);
      case Some(p) =>
        FailsOnlyWhenKeysWrap(sets, p.0, p.1);
        var (r, after) := FindOrCreate(sets, p.0, p.1);
        RoomForKeys(blocks[i := blocks[i].(paramsKey := r.value)], after, answers, i + 1, true);
    }
  }

  lemma {:induction false} RunConcat(file: Job, st: App, a: seq<Action>, b: seq<Action>)
    ensures Run(file, st, a + b) == Run(file, Run(file, st, a), b)
  {
    hide Step;
    if b == [] {
      assert a + b == a;
    } else {
      var k := |b| - 1;
      assert (a + b)[..|a + b| - 1] == a + b[..k];
      RunConcat(file, st, a, b[..k]);
    }
  }

  lemma {:induction false} SavedOnlyAtExit(file: Job, actions: seq<Action>)
    ensures var st := Run(file, Loaded(file), actions); st.running ==> st.saved.None?
  {
    if actions != [] { SavedOnlyAtExit(file, actions[..|actions| - 1]); }
  }

  /** A confirmed discard that reloads starts over: whatever was done before, what follows happens as if the file had
      just been opened. */
  lemma DiscardStartsOver(file: Job, before: seq<Action>, after: seq<Action>)
    requires var st := Run(file, Loaded(file), before); st.running && st.modified
    ensures Run(file, Loaded(file), before + [DiscardChanges(true, true)] + after) == Run(file, Loaded(file), after)
  {
    var discard := [DiscardChanges(true, true)];
    SavedOnlyAtExit(file, before);
    RunConcat(file, Loaded(file), before, discard);
    RunConcat(file, Loaded(file), before + discard, after);
    var st := Run(file, Loaded(file), before);
    assert discard[..|discard| - 1] == [];
    assert Run(file, st, discard) == Step(file, st, discard[0]);
  }

  // ---------------------------------------------------------------------------------------------
  // What each menu action does, in the user's terms
  // ---------------------------------------------------------------------------------------------

  ghost predicate Discards(st: App, a: Action) { st.modified && a == DiscardChanges(true, true) }

  /** The key an action gives to block j of layer i, counted from 0, which carries the given part area. Layers are
      numbered from 1 in the menu. */
  ghost function GivenKey(st: App, a: Action, i: nat, j: nat, partArea: Option<PartArea>): Option<int32> {
    match a
    case ApplyToLayerRange(source, Some(range)) =>
      var choice := ChooseKey(st.job.sets, source).0;
      if choice.Chosen? && 1 <= range.0 <= i + 1 <= range.1 <= |st.job.planes| then Some(choice.key) else None
    case ApplyByVectorType(Some(layer), Some(area), source) =>
      var choice := ChooseKey(st.job.sets, source).0;
      if choice.Chosen? && layer == i + 1 && partArea == Some(area) then Some(choice.key) else None
    case EditVectorBlocks(Some(layer), answers) =>
      if layer == i + 1 && NoneFails(st.job.sets, answers, 0, j) then KeyAt(st.job.sets, answers, j) else None
    case _ => None
  }

  lemma EditedKeys(file: Job, st: App, a: Action, i: nat, j: nat)
    requires st.running && SameUpToKeys(file.planes, st.job.planes) && EditorCall(st, a).Some?
    requires i < |file.planes| && j < |file.planes[i].blocks|
    ensures var planes := Step(file, st, a).job.planes;
            && |planes| == |file.planes| && |planes[i].blocks| == |file.planes[i].blocks|
            && planes[i].blocks[j].paramsKey
               == match GivenKey(st, a, i, j, file.planes[i].blocks[j].partArea)
                  case None => st.job.planes[i].blocks[j].paramsKey
                  case Some(key) => key
  {
    hide ApplyEdit, ChooseKey, HasKey, Step, Accepted;
    assert SamePlaneUpToKeys(file.planes[i], st.job.planes[i]);
    var (job, op) := EditorCall(st, a).value;
    EditorNeverThrows(file, st, a);
    FindHasKey(job.sets, op.key);
    assert HasKey(job.sets, op.key) by { AcceptedKey(job, op); }
    EditLaw(job, op);
  }

  lemma AcceptedKey(job: Job, op: Edit)
    requires Accepted(job, op)
    ensures HasKey(job.sets, op.key)
  {
    FindHasKey(job.sets, op.key);
  }

  lemma StepKeys(file: Job, st: App, a: Action, i: nat, j: nat)
    requires st.running && SameUpToKeys(file.planes, st.job.planes)
    requires i < |file.planes| && j < |file.planes[i].blocks|
    ensures var planes := Step(file, st, a).job.planes;
            && |planes| == |file.planes| && |planes[i].blocks| == |file.planes[i].blocks|
            && planes[i].blocks[j].paramsKey
               == if Discards(st, a) then file.planes[i].blocks[j].paramsKey
                  else match GivenKey(st, a, i, j, file.planes[i].blocks[j].partArea)
                       case None => st.job.planes[i].blocks[j].paramsKey
                       case Some(key) => key
  {
    hide ApplyEdit, EditBlocksFrom, FindOrCreate, ChooseKey, FailsAt, KeyAt, HasKey, Accepted;
    assert SamePlaneUpToKeys(file.planes[i], st.job.planes[i]);
    if EditorCall(st, a).Some? {
      EditedKeys(file, st, a, i, j);
    } else if a.EditVectorBlocks? && a.layer.Some? && LayerNumberValid(st.job, a.layer.value) {
      BlockLoop(st.job.planes[a.layer.value - 1].blocks, st.job.sets, a.answers, 0, false);
    }
  }

  /** The key of a block after a run, looking back from its end: given by the last action that gives it one, unless a
      discard came later; else the file's. */
  ghost function CurrentKey(file: Job, actions: seq<Action>, i: nat, j: nat): int32
    requires i < |file.planes| && j < |file.planes[i].blocks|
  {
    var original := file.planes[i].blocks[j];
    if actions == [] then original.paramsKey
    else
      var before, a := actions[..|actions| - 1], actions[|actions| - 1];
      var st := Run(file, Loaded(file), before);
      if !st.running then CurrentKey(file, before, i, j)
      else if Discards(st, a) then original.paramsKey
      else match GivenKey(st, a, i, j, original.partArea)
        case None => CurrentKey(file, before, i, j)
        case Some(key) => key
  }

  lemma {:induction false} RunKeys(file: Job, actions: seq<Action>, i: nat, j: nat)
    requires i < |file.planes| && j < |file.planes[i].blocks|
    ensures var planes := Run(file, Loaded(file), actions).job.planes;
            && |planes| == |file.planes| && |planes[i].blocks| == |file.planes[i].blocks|
            && planes[i].blocks[j].paramsKey == CurrentKey(file, actions, i, j)
  {
    hide GivenKey, Discards, Resolves, UniqueKeys, GrownFrom;
    if actions != [] {
      hide SameUpToKeys;
      var before := actions[..|actions| - 1];
      var st := Run(file, Loaded(file), before);
      RunKeys(file, before, i, j);
      RunExtends(file, before);
      if st.running { StepKeys(file, st, actions[|actions| - 1], i, j); }
      hide Step;
    }
  }

  /** The name after a run: the last one entered that is not blank, unless a discard came later; else the file's. */
  ghost function CurrentName(file: Job, actions: seq<Action>): Option<string> {
    if actions == [] then file.name
    else
      var before, a := actions[..|actions| - 1], actions[|actions| - 1];
      var st := Run(file, Loaded(file), before);
      if !st.running then CurrentName(file, before)
      else if Discards(st, a) then file.name
      else if a.ChangeJobName? && !IsBlank(a.name) then Some(a.name)
      else CurrentName(file, before)
  }

  lemma {:induction false} RunName(file: Job, actions: seq<Action>)
    ensures Run(file, Loaded(file), actions).job.name == CurrentName(file, actions)
  {
    hide ApplyEdit, EditBlocksFrom, ChooseKey, Accepted, IsBlank;
    if actions != [] {
      var before := actions[..|actions| - 1];
      var st := Run(file, Loaded(file), before);
      RunName(file, before);
      if st.running { StepName(file, st, actions[|actions| - 1]); }
      hide Step;
    }
  }

  lemma StepName(file: Job, st: App, a: Action)
    requires st.running
    ensures Step(file, st, a).job.name
            == if Discards(st, a) then file.name
               else if a.ChangeJobName? && !IsBlank(a.name) then Some(a.name) else st.job.name
  {
    hide EditBlocksFrom, ChooseKey, Accepted, IsBlank, EditPlane;
  }

  /** Blank: nothing but white space. A letter or a digit makes a name. */
  lemma BlankNames(name: string, i: nat)
    ensures IsBlank("") && IsBlank(" ") && IsBlank(" \t\r\n")
    ensures i < |name| && ('a' <= name[i] <= 'z' || 'A' <= name[i] <= 'Z' || '0' <= name[i] <= '9') ==> !IsBlank(name)
    ensures i < |name| && IsBlank(name) ==> IsBlank([name[i]])
  {
    if i < |name| { assert IsWhiteSpace(name[i]) || !IsWhiteSpace(name[i]); }
  }

  /** When the modified flag is set after a step: exactly if it was, short of a discard, or the step took effect. */
  lemma StepModified(file: Job, st: App, a: Action)
    requires st.running
    ensures Step(file, st, a).modified
            == match a
               case ApplyToLayerRange(source, range) =>
                 st.modified || (ChooseKey(st.job.sets, source).0.Chosen? && range.Some?
                                 && 1 <= range.value.0 <= range.value.1 <= |st.job.planes|)
               case ApplyByVectorType(layer, area, source) =>
                 st.modified || (ChooseKey(st.job.sets, source).0.Chosen? && layer.Some?
                                 && 1 <= layer.value <= |st.job.planes| && area.Some?)
               case EditVectorBlocks(layer, answers) =>
                 st.modified || (layer.Some? && 1 <= layer.value <= |st.job.planes|
                                 && (var n := |st.job.planes[layer.value - 1].blocks|;
                                     NoneFails(st.job.sets, answers, 0, n)
                                     && exists j :: 0 <= j < n && KeyAt(st.job.sets, answers, j).Some?))
               case ChangeJobName(name) => st.modified || !IsBlank(name)
               case DiscardChanges(confirmed, reloads) => st.modified && !(confirmed && reloads)
               case _ => st.modified
  {
    hide ApplyEdit, EditBlocksFrom, FindOrCreate, ChooseKey, IsBlank, FailsAt, KeyAt, Find;
    match a
    case ApplyToLayerRange(source, range) => ChosenKeyExists(st.job.sets, source);
    case ApplyByVectorType(layer, area, source) => ChosenKeyExists(st.job.sets, source);
    case EditVectorBlocks(layer, answers) =>
      if layer.Some? && LayerNumberValid(st.job, layer.value) {
        BlockLoop(st.job.planes[layer.value - 1].blocks, st.job.sets, answers, 0, false);
      }
    case _ =>
  }

  /** The parameter map after a step: grown by the choice of parameters, wanted or not in the end, or by the answers for
      the blocks up to the first that fails; the file's after a discard; else as it was. */
  lemma StepSets(file: Job, st: App, a: Action)
    requires st.running
    ensures var after := Step(file, st, a).job.sets;
            match a
            case ApplyToLayerRange(source, _) => after == ChooseKey(st.job.sets, source).1
            case ApplyByVectorType(layer, area, source) =>
              after == if layer.Some? && 1 <= layer.value <= |st.job.planes| && area.Some?
                       then ChooseKey(st.job.sets, source).1 else st.job.sets
            case EditVectorBlocks(layer, answers) =>
              if layer.Some? && 1 <= layer.value <= |st.job.planes| then
                var n := |st.job.planes[layer.value - 1].blocks|;
                && (NoneFails(st.job.sets, answers, 0, n) ==> after == MapAt(st.job.sets, answers, n))
                && (forall k :: 0 <= k < n && FailsAt(st.job.sets, answers, k)
                                && NoneFails(st.job.sets, answers, 0, k) ==>
                      after == MapAt(st.job.sets, answers, k))
              else after == st.job.sets
            case DiscardChanges(_, _) => after == if Discards(st, a) then file.sets else st.job.sets
            case _ => after == st.job.sets
  {
    hide EditBlocksFrom, FindOrCreate, ChooseKey, IsBlank, FailsAt, KeyAt, Find, EditPlane;
    match a
    case EditVectorBlocks(layer, answers) =>
      if layer.Some? && LayerNumberValid(st.job, layer.value) {
        LoopMap(st.job.planes[layer.value - 1].blocks, st.job.sets, answers, 0, false);
      }
    case _ =>
  }

  /** All keys and the name of a job are those the user's actions gave it. */
  ghost predicate AsEdited(file: Job, actions: seq<Action>, job: Job) {
    && job.name == CurrentName(file, actions)
    && |job.planes| == |file.planes|
    && (forall i :: 0 <= i < |file.planes| ==> |job.planes[i].blocks| == |file.planes[i].blocks|)
    && (forall i, j :: 0 <= i < |file.planes| && 0 <= j < |file.planes[i].blocks| ==>
          job.planes[i].blocks[j].paramsKey == CurrentKey(file, actions, i, j))
  }

  lemma {:induction false} RunAsEdited(file: Job, actions: seq<Action>)
    ensures AsEdited(file, actions, Run(file, Loaded(file), actions).job)
  {
    var job := Run(file, Loaded(file), actions).job;
    RunName(file, actions);
    RunExtends(file, actions);
    hide Run, CurrentKey, CurrentName;
    forall i | 0 <= i < |file.planes| ensures |job.planes[i].blocks| == |file.planes[i].blocks| {
      assert SamePlaneUpToKeys(file.planes[i], job.planes[i]);
    }
    forall i, j | 0 <= i < |file.planes| && 0 <= j < |file.planes[i].blocks|
      ensures job.planes[i].blocks[j].paramsKey == CurrentKey(file, actions, i, j)
    {
      RunKeys(file, actions, i, j);
    }
  }

  /** Leaving the menu, over whole runs. Saving writes the job as edited so far, every block with the key the user's
      actions gave it, under the name they gave it, and closes the menu; a write that fails, a declined or failing
      discard and a declined quit with unsaved changes leave everything as it is. A quit closes the menu without
      saving, and once it is closed nothing happens any more. */
  lemma {:induction false} SavesWhatWasEdited(file: Job, actions: seq<Action>, a: Action)
    ensures var st := Run(file, Loaded(file), actions);
            var after := Run(file, Loaded(file), actions + [a]);
            && AsEdited(file, actions, st.job)
            && (!st.running ==> after == st)
            && (st.running ==>
                  match a
                  case SaveAndExit(writes) =>
                    after == if writes then App(st.job, st.modified, false, Some(st.job)) else st
                  case QuitWithoutSaving(confirmed) =>
                    after == if st.modified && !confirmed then st else st.(running := false)
                  case DiscardChanges(confirmed, reloads) =>
                    after == if st.modified && confirmed && reloads then st.(job := file, modified := false) else st
                  case ViewParameterSets => after == st
                  case InvalidSelection => after == st
                  case _ => after.running && after.saved == st.saved)
  {
    RunOneMore(file, actions, a);
    RunAsEdited(file, actions);
    hide Run, AsEdited, ChooseKey, EditBlocksFrom, ApplyEdit, Accepted, IsBlank;
  }

  lemma RunOneMore(file: Job, actions: seq<Action>, a: Action)
    ensures Run(file, Loaded(file), actions + [a]) == Step(file, Run(file, Loaded(file), actions), a)
  {
    hide Step;
    assert (actions + [a])[..|actions|] == actions;
  }

  // ---------------------------------------------------------------------------------------------
  // The application object
  // ---------------------------------------------------------------------------------------------

  class ParameterEditorApp {
    const file: Job // what loading the source file yields
    const editor: JobEditor
    var activeJob: EditableJob
    var isModified: bool
    var running: bool
    var saved: Option<Job>

    ghost function State(): App
      reads this, activeJob
    {
      App(activeJob.Value(), isModified, running, saved)
    }

    constructor (file: Job, editor: JobEditor)
      ensures this.file == file && fresh(activeJob) && State() == Loaded(file)
    {
      this.file, this.editor := file, editor;
      activeJob := new EditableJob(file);
      isModified, running, saved := false, true, None;
    }

    method GetParameterKeyFromUser(source: ParameterSource) returns (choice: Choice)
      modifies activeJob`sets
      ensures (choice, activeJob.sets) == ChooseKey(old(activeJob.sets), source)
    {
      match source
      case ReturnToMenu => choice := Cancelled;
      case UseExistingId(None) => choice := Threw;
      case UseExistingId(Some(id)) =>
        var known := editor.DoesParamSetExist(activeJob, id);
        choice := if known then Chosen(id) else Threw;
      case CreateNew(None) => choice := Threw;
      case CreateNew(Some(p)) =>
        var r := editor.FindOrCreateParameterSetKey(activeJob, p.0, p.1);
        choice := match r case Success(key) => Chosen(key) case Failure(_) => Threw;
    }

    method DoApplyParametersToRange(source: ParameterSource, range: Option<(int32, int32)>)
      requires running
      modifies `isModified, activeJob
      ensures State() == Step(file, old(State()), ApplyToLayerRange(source, range))
    {
      hide ApplyEdit, ChooseKey, Find;
      ChosenKeyExists(activeJob.sets, source);
      var key := GetParameterKeyFromUser(source);
      if !key.Chosen? || range.None? { return; }
      var (startLayer, endLayer) := range.value;
      var maxIndex := editor.GetMaxLayerIndex(activeJob);
      MaxIndexIsLast(activeJob.Value(), maxIndex);
      var maxLayer := maxIndex + 1;
      if startLayer < 1 || endLayer > maxLayer || startLayer > endLayer { return; }
      var r := editor.ApplyParametersToLayerRange(activeJob, startLayer - 1, endLayer - 1, key.key);
      assert r.Success?;
      isModified := true;
    }

    method DoApplyByVectorType(layer: Option<int32>, area: Option<PartArea>, source: ParameterSource)
      requires running
      modifies `isModified, activeJob
      ensures State() == Step(file, old(State()), ApplyByVectorType(layer, area, source))
    {
      hide ApplyEdit, ChooseKey, Find;
      var maxIndex := editor.GetMaxLayerIndex(activeJob);
      MaxIndexIsLast(activeJob.Value(), maxIndex);
      var maxLayer := maxIndex + 1;
      if maxLayer <= 0 || layer.None? { return; }
      if layer.value < 1 || layer.value > maxLayer { return; }
      if area.None? { return; }
      ChosenKeyExists(activeJob.sets, source);
      var key := GetParameterKeyFromUser(source);
      if !key.Chosen? { return; }
      var r := editor.ApplyParametersToVectorTypeInLayer(activeJob, layer.value - 1, area.value, key.key);
      assert r.Success?;
      isModified := true;
    }

    /** The flag is set behind the loop, so an exception inside it leaves the flag as it was. */
    method DoVectorBlockEditing(layer: Option<int32>, answers: Answers)
      requires running
      modifies `isModified, activeJob`sets, activeJob`planes
      ensures State() == Step(file, old(State()), EditVectorBlocks(layer, answers))
    {
      hide FindOrCreate;
      if layer.None? { return; }
      var maxIndex := editor.GetMaxLayerIndex(activeJob);
      MaxIndexIsLast(activeJob.Value(), maxIndex);
      if layer.value < 1 || layer.value > maxIndex + 1 { return; }
      var l := layer.value - 1;
      ghost var planes := activeJob.planes;
      ghost var all := EditBlocksFrom(planes[l].blocks, activeJob.sets, answers, 0, false);
      var wasAnyBlockModified := false;
      for i := 0 to |activeJob.planes[l].blocks|
        invariant isModified == old(isModified) && l < |activeJob.planes|
        invariant |activeJob.planes[l].blocks| == |planes[l].blocks|
        invariant activeJob.planes == planes[l := planes[l].(blocks := activeJob.planes[l].blocks)]
        invariant EditBlocksFrom(activeJob.planes[l].blocks, activeJob.sets, answers, i, wasAnyBlockModified) == all
      {
        var desired := Answer(answers, i);
        if desired.Some? {
          var blocks := activeJob.planes[l].blocks;
          var key := editor.FindOrCreateParameterSetKey(activeJob, desired.value.0, desired.value.1);
          if key.Failure? {
            assert all == BlockEdits(blocks, activeJob.sets, wasAnyBlockModified, true);
            return;
          }
          blocks := blocks[i := blocks[i].(paramsKey := key.value)];
          activeJob.planes := activeJob.planes[l := activeJob.planes[l].(blocks := blocks)];
          wasAnyBlockModified := true;
        }
      }
      if wasAnyBlockModified { isModified := true; }
    }

    method DoChangeJobName(newName: string)
      requires running
      modifies `isModified, activeJob`name
      ensures State() == Step(file, old(State()), ChangeJobName(newName))
      ensures !IsBlank(newName) ==> activeJob.name == Some(newName) && isModified
    {
      if IsBlank(newName) { return; }
      editor.SetJobName(activeJob, newName);
      isModified := true;
    }

    method DoDiscardChanges(confirmed: bool, reloads: bool)
      requires running
      modifies `isModified, `activeJob
      ensures State() == Step(file, old(State()), DiscardChanges(confirmed, reloads))
      ensures activeJob == old(activeJob) || fresh(activeJob)
    {
      if !isModified { return; }
      if confirmed {
        if !reloads { return; }
        activeJob := new EditableJob(file);
        isModified := false;
      }
    }

    method DoSaveAndExit(writes: bool)
      requires running
      modifies `running, `saved
      ensures State() == Step(file, old(State()), SaveAndExit(writes))
      ensures writes ==> saved == Some(activeJob.Value()) && !running
      ensures !writes ==> saved == old(saved) && running
    {
      if !writes { return; }
      saved := Some(activeJob.Value());
      running := false;
    }

    method DoQuitWithoutSaving(confirmed: bool)
      requires running
      modifies `running
      ensures State() == Step(file, old(State()), QuitWithoutSaving(confirmed))
      ensures running == (isModified && !confirmed)
    {
      if isModified {
        if confirmed { running := false; }
        return;
      }
      running := false;
    }

    /** The menu loop over whatever the user enters. */
    method MainLoop(actions: seq<Action>)
      modifies this, activeJob
      ensures State() == Run(file, old(State()), actions)
    {
      hide Step;
      for n := 0 to |actions|
        invariant activeJob == old(activeJob) || fresh(activeJob)
        invariant State() == Run(file, old(State()), actions[..n])
      {
        assert actions[..n + 1][..n] == actions[..n];
        Choose(actions[n]);
      }
      assert actions[..|actions|] == actions;
    }

    method Choose(action: Action)
      modifies this, activeJob
      ensures State() == Step(file, old(State()), action)
      ensures activeJob == old(activeJob) || fresh(activeJob)
    {
      if !running { return; }
      match action
      case ApplyToLayerRange(source, range) => DoApplyParametersToRange(source, range);
      case ApplyByVectorType(layer, area, source) => DoApplyByVectorType(layer, area, source);
      case EditVectorBlocks(layer, answers) => DoVectorBlockEditing(layer, answers);
      case ChangeJobName(name) => DoChangeJobName(name);
      case DiscardChanges(confirmed, reloads) => DoDiscardChanges(confirmed, reloads);
      case SaveAndExit(writes) => DoSaveAndExit(writes);
      case QuitWithoutSaving(confirmed) => DoQuitWithoutSaving(confirmed);
      case _ =>
    }
  }
}
