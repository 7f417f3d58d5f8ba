/** JobEditor: re-keying blocks, and the tolerance-based find-or-create on the parameter map. */
module JobEditor {
  import opened Wrappers
  import opened OvfModel

  datatype EditError = RangeInvalid | KeyNotFound | KeyTaken

  const TOLERANCE := 0.001
  const MAX_KEY: int32 := 0x7fff_ffff
  const MIN_KEY: int32 := -0x8000_0000

  // ---------------------------------------------------------------------------------------------
  // Applying a parameter set to blocks
  // ---------------------------------------------------------------------------------------------

  datatype Edit =
    | ToLayerRange(start: int, end: int, key: int32)
    | ToVectorType(layer: int, area: PartArea, key: int32)

  predicate RangeValid(job: Job, start: int, end: int) {
    start <= end && 0 <= start && end <= |job.planes| - 1
  }

  predicate InRange(job: Job, op: Edit) {
    match op
    case ToLayerRange(s, e, _) => RangeValid(job, s, e)
    case ToVectorType(l, _, _) => RangeValid(job, l, l)
  }

  predicate Accepted(job: Job, op: Edit) { InRange(job, op) && Find(job.sets, op.key).Some? }

  /** The operation is about this block of layer i. */
  predicate Covers(op: Edit, i: int, block: VectorBlock) {
    match op
    case ToLayerRange(s, e, _) => s <= i <= e
    case ToVectorType(l, area, _) => i == l && block.partArea == Some(area)
  }

  function EditBlock(op: Edit, i: int, block: VectorBlock): VectorBlock {
    if Covers(op, i, block) then block.(paramsKey := op.key) else block
  }

  function EditPlane(op: Edit, i: int, plane: WorkPlane): WorkPlane {
    plane.(blocks := seq(|plane.blocks|, j requires 0 <= j < |plane.blocks| => EditBlock(op, i, plane.blocks[j])))
  }

  /** A rejected operation changes nothing; an accepted one re-keys the blocks it covers. */
  function ApplyEdit(job: Job, op: Edit): Job {
    if !Accepted(job, op) then job
    else job.(planes := seq(|job.planes|, i requires 0 <= i < |job.planes| => EditPlane(op, i, job.planes[i])))
  }

  function ApplyEdits(job: Job, ops: seq<Edit>): Job {
    if ops == [] then job else ApplyEdit(ApplyEdits(job, ops[..|ops| - 1]), ops[|ops| - 1])
  }

  /** The blocks an operation is for, in the caller's terms: those of every layer from the first to the last of an
      existing range, or those of one existing layer that carry the part area; for a key that is in the map. */
  ghost predicate Targets(job: Job, op: Edit, i: int, block: VectorBlock) {
    match op
    case ToLayerRange(s, e, key) => 0 <= s <= i <= e < |job.planes| && HasKey(job.sets, key)
    case ToVectorType(l, area, key) =>
      0 <= l < |job.planes| && i == l && block.partArea == Some(area) && HasKey(job.sets, key)
  }

  ghost predicate NoneTargets(job: Job, ops: seq<Edit>, from: nat, i: int, block: VectorBlock) {
    forall m :: from <= m < |ops| ==> !Targets(job, ops[m], i, block)
  }

  /** The same planes except for the keys of their blocks. */
  ghost predicate SameUpToKeys(a: seq<WorkPlane>, b: seq<WorkPlane>) {
    && |a| == |b|
    && forall i :: 0 <= i < |a| ==> SamePlaneUpToKeys(a[i], b[i])
  }

  ghost predicate SamePlaneUpToKeys(p: WorkPlane, q: WorkPlane) {
    && p.number == q.number && p.zPos == q.zPos && |p.blocks| == |q.blocks|
    && forall j :: 0 <= j < |p.blocks| ==>
         q.blocks[j].geometry == p.blocks[j].geometry && q.blocks[j].partArea == p.blocks[j].partArea
  }

  /** One operation gives its key to exactly the blocks it is for, and changes nothing else. */
  lemma EditLaw(job: Job, op: Edit)
    ensures var after := ApplyEdit(job, op);
            && after.name == job.name && after.sets == job.sets
            && SameUpToKeys(job.planes, after.planes)
            && forall i, j :: 0 <= i < |job.planes| && 0 <= j < |job.planes[i].blocks| ==>
                 after.planes[i].blocks[j].paramsKey
                 == if Targets(job, op, i, job.planes[i].blocks[j]) then op.key else job.planes[i].blocks[j].paramsKey
  {
    FindHasKey(job.sets, op.key);
  }

  /** Edit history: after any operations, accepted or rejected, each block has the key of the last one that is for it,
      or its original key if none is; name, parameter sets, geometry and metadata are untouched. */
  lemma {:induction false} EditHistory(job: Job, ops: seq<Edit>)
    ensures var after := ApplyEdits(job, ops);
            && after.name == job.name && after.sets == job.sets
            && SameUpToKeys(job.planes, after.planes)
            && (forall i, j, n :: 0 <= i < |job.planes| && 0 <= j < |job.planes[i].blocks| && 0 <= n < |ops|
                                  && Targets(job, ops[n], i, job.planes[i].blocks[j])
                                  && NoneTargets(job, ops, n + 1, i, job.planes[i].blocks[j]) ==>
                  after.planes[i].blocks[j].paramsKey == ops[n].key)
            && (forall i, j :: 0 <= i < |job.planes| && 0 <= j < |job.planes[i].blocks|
                               && NoneTargets(job, ops, 0, i, job.planes[i].blocks[j]) ==>
                  after.planes[i].blocks[j].paramsKey == job.planes[i].blocks[j].paramsKey)
  {
    if ops != [] {
      hide ApplyEdit, HasKey;
      var k := |ops| - 1;
      var before := ApplyEdits(job, ops[..k]);
      EditHistory(job, ops[..k]);
      EditLaw(before, ops[k]);
      forall i, j, n | 0 <= i < |job.planes| && 0 <= j < |job.planes[i].blocks| && 0 <= n < |ops|
                       && Targets(job, ops[n], i, job.planes[i].blocks[j])
                       && NoneTargets(job, ops, n + 1, i, job.planes[i].blocks[j])
        ensures ApplyEdits(job, ops).planes[i].blocks[j].paramsKey == ops[n].key
      {
        var b := job.planes[i].blocks[j];
        SameTargets(job, before, ops[k], i, j);
        if n < k {
          assert !Targets(job, ops[k], i, b);
          NoneTargetsBefore(job, ops, n + 1, i, b);
          assert ops[..k][n] == ops[n];
        }
      }
      forall i, j | 0 <= i < |job.planes| && 0 <= j < |job.planes[i].blocks|
                    && NoneTargets(job, ops, 0, i, job.planes[i].blocks[j])
        ensures ApplyEdits(job, ops).planes[i].blocks[j].paramsKey == job.planes[i].blocks[j].paramsKey
      {
        SameTargets(job, before, ops[k], i, j);
        assert !Targets(job, ops[k], i, job.planes[i].blocks[j]);
        NoneTargetsBefore(job, ops, 0, i, job.planes[i].blocks[j]);
      }
      SameUpToKeysTrans(job.planes, before.planes, ApplyEdits(job, ops).planes);
    }
  }

  lemma NoneTargetsBefore(job: Job, ops: seq<Edit>, from: nat, i: int, block: VectorBlock)
    requires ops != [] && NoneTargets(job, ops, from, i, block)
    ensures NoneTargets(job, ops[..|ops| - 1], from, i, block)
  {
    hide Targets;
  }

  lemma SameTargets(job: Job, before: Job, op: Edit, i: nat, j: nat)
    requires before.sets == job.sets && SameUpToKeys(job.planes, before.planes)
    requires i < |job.planes| && j < |job.planes[i].blocks|
    ensures Targets(before, op, i, before.planes[i].blocks[j]) == Targets(job, op, i, job.planes[i].blocks[j])
  {
    hide HasKey;
    assert SamePlaneUpToKeys(job.planes[i], before.planes[i]);
  }

  lemma SameUpToKeysTrans(a: seq<WorkPlane>, b: seq<WorkPlane>, c: seq<WorkPlane>)
    requires SameUpToKeys(a, b) && SameUpToKeys(b, c)
    ensures SameUpToKeys(a, c)
  {
    forall i | 0 <= i < |a| ensures SamePlaneUpToKeys(a[i], c[i]) {
      assert SamePlaneUpToKeys(a[i], b[i]) && SamePlaneUpToKeys(b[i], c[i]);
    }
  }

  // ---------------------------------------------------------------------------------------------
  // Finding or creating a parameter set
  // ---------------------------------------------------------------------------------------------

  function Abs(x: real): real { if x < 0.0 then -x else x }

  predicate Close(a: real, b: real) { Abs(a - b) < TOLERANCE }

  predicate Matches(p: MarkingParams, power: real, speed: real) {
    Close(p.power, power) && Close(p.speed, speed)
  }

  /** Within the tolerance in both power and speed. */
  ghost predicate Near(p: MarkingParams, power: real, speed: real) {
    -0.001 < p.power - power < 0.001 && -0.001 < p.speed - speed < 0.001
  }

  ghost predicate NoneNear(sets: seq<ParamSet>, n: nat, power: real, speed: real)
    requires n <= |sets|
  {
    forall i :: 0 <= i < n ==> !Near(sets[i].params, power, speed)
  }

  lemma MatchesIsNear(p: MarkingParams, power: real, speed: real)
    ensures Matches(p, power, speed) <==> Near(p, power, speed)
  {
  }

  /** The first match in map order. */
  function FirstMatch(sets: seq<ParamSet>, power: real, speed: real): Option<int32> {
    if sets == [] then None
    else if Matches(sets[0].params, power, speed) then Some(sets[0].key)
    else FirstMatch(sets[1..], power, speed)
  }

  function MaxKey(sets: seq<ParamSet>): (m: int32)
    requires sets != []
    ensures forall i :: 0 <= i < |sets| ==> sets[i].key <= m
    ensures exists i :: 0 <= i < |sets| && sets[i].key == m
  {
    var k := sets[0].key;
    if |sets| == 1 then k
    else
      var m := MaxKey(sets[1..]);
      var i :| 0 <= i < |sets[1..]| && sets[1..][i].key == m;
      assert sets[i + 1].key == m;
      if k > m then k else m
  }

  /** Max() + 1 in unchecked 32-bit arithmetic. */
  function NextKey(sets: seq<ParamSet>): int32 {
    if sets == [] then 1
    else if MaxKey(sets) == MAX_KEY then MIN_KEY
    else MaxKey(sets) + 1
  }

  /** The key, and the parameter map afterwards. Adding under a key that is in use throws. */
  function FindOrCreate(sets: seq<ParamSet>, power: real, speed: real): (Result<int32, EditError>, seq<ParamSet>) {
    match FirstMatch(sets, power, speed)
    case Some(key) => (Success(key), sets)
    case None =>
      var key := NextKey(sets);
      if Find(sets, key).Some? then (Failure(KeyTaken), sets)
      else (Success(key), sets + [ParamSet(key, MarkingParams(power, speed, 0.0))])
  }

  /** The search finds nothing if no set is within the tolerance, and otherwise the first that is. */
  lemma {:induction false} FirstMatchIs(sets: seq<ParamSet>, power: real, speed: real)
    ensures FirstMatch(sets, power, speed).None? <==> NoneNear(sets, |sets|, power, speed)
    ensures forall i :: 0 <= i < |sets| && Near(sets[i].params, power, speed) && NoneNear(sets, i, power, speed) ==>
              FirstMatch(sets, power, speed) == Some(sets[i].key)
    ensures FirstMatch(sets, power, speed).Some? ==>
              exists i :: 0 <= i < |sets| && Near(sets[i].params, power, speed) && NoneNear(sets, i, power, speed)
  {
    if sets != [] {
      hide Matches, Near;
      MatchesIsNear(sets[0].params, power, speed);
      FirstMatchIs(sets[1..], power, speed);
      if Near(sets[0].params, power, speed) {
        assert NoneNear(sets, 0, power, speed);
      } else {
        forall i: nat | i < |sets|
          ensures NoneNear(sets, i + 1, power, speed) <==> NoneNear(sets[1..], i, power, speed)
        {
          NoneNearTail(sets, i, power, speed);
        }
        if FirstMatch(sets[1..], power, speed).Some? {
          var i :| 0 <= i < |sets[1..]| && Near(sets[1..][i].params, power, speed)
                   && NoneNear(sets[1..], i, power, speed);
          assert Near(sets[i + 1].params, power, speed) && NoneNear(sets, i + 1, power, speed);
        }
        forall i | 0 <= i < |sets| && Near(sets[i].params, power, speed) && NoneNear(sets, i, power, speed)
          ensures FirstMatch(sets, power, speed) == Some(sets[i].key)
        {
          assert i > 0 && Near(sets[1..][i - 1].params, power, speed) && NoneNear(sets[1..], i - 1, power, speed);
        }
      }
    }
  }

  lemma NoneNearTail(sets: seq<ParamSet>, i: nat, power: real, speed: real)
    requires i < |sets| && !Near(sets[0].params, power, speed)
    ensures NoneNear(sets, i + 1, power, speed) <==> NoneNear(sets[1..], i, power, speed)
  {
    hide Near;
    if NoneNear(sets, i + 1, power, speed) {
      forall k | 0 <= k < i ensures !Near(sets[1..][k].params, power, speed) {
        assert sets[1..][k] == sets[k + 1];
      }
    }
    if NoneNear(sets[1..], i, power, speed) {
      forall k | 0 <= k < i + 1 ensures !Near(sets[k].params, power, speed) {
        if k > 0 { assert sets[1..][k - 1] == sets[k]; }
      }
    }
  }

  /** The key a new set gets: 1 in an empty map, else one more than the largest, and the smallest 32-bit integer once
      the largest is in use. */
  ghost predicate IsNextKey(sets: seq<ParamSet>, key: int32) {
    && (sets == [] ==> key == 1)
    && (HasKey(sets, 0x7fff_ffff) ==> key == -0x8000_0000)
    && (sets != [] && !HasKey(sets, 0x7fff_ffff) ==>
          && (forall i :: 0 <= i < |sets| ==> sets[i].key < key)
          && (exists i :: 0 <= i < |sets| && sets[i].key == key - 1))
  }

  lemma NextKeyIs(sets: seq<ParamSet>)
    ensures IsNextKey(sets, NextKey(sets))
  {
    if HasKey(sets, 0x7fff_ffff) {
      var i :| 0 <= i < |sets| && sets[i].key == 0x7fff_ffff;
      assert sets[i].key <= MaxKey(sets);
    }
  }

  /** Find-or-create fails exactly when a new set is needed and both the largest and the smallest 32-bit integer are
      keys already: when the wrapped-around key is in use. */
  lemma FailsOnlyWhenKeysWrap(sets: seq<ParamSet>, power: real, speed: real)
    ensures FindOrCreate(sets, power, speed).0.Failure? <==>
              NoneNear(sets, |sets|, power, speed) && HasKey(sets, 0x7fff_ffff) && HasKey(sets, -0x8000_0000)
  {
    hide Near, MaxKey, NextKey;
    FirstMatchIs(sets, power, speed);
    NextKeyIs(sets);
    FindHasKey(sets, NextKey(sets));
  }

  /** Sets were added at the end only, each with the default focus. */
  ghost predicate GrownFrom(sets: seq<ParamSet>, after: seq<ParamSet>) {
    sets <= after && forall k :: |sets| <= k < |after| ==> after[k].params.focus == 0.0
  }

  /** What a caller gets. The first set within the tolerance, if there is one, and the map as it was. Otherwise, unless
      both ends of the key range are in use, a new set at the end of the map, with exactly the requested power and
      speed, no focus shift, and the next key. */
  lemma FindOrCreateLaw(sets: seq<ParamSet>, power: real, speed: real)
    ensures var (r, after) := FindOrCreate(sets, power, speed);
            && (forall i :: 0 <= i < |sets| && Near(sets[i].params, power, speed) && NoneNear(sets, i, power, speed) ==>
                  r == Success(sets[i].key) && after == sets)
            && (!NoneNear(sets, |sets|, power, speed) ==> r.Success? && after == sets)
            && (NoneNear(sets, |sets|, power, speed) ==>
                  if HasKey(sets, 0x7fff_ffff) && HasKey(sets, -0x8000_0000) then r.Failure? && after == sets
                  else r.Success? && IsNextKey(sets, r.value)
                       && after == sets + [ParamSet(r.value, MarkingParams(power, speed, 0.0))])
  {
    hide Near, MaxKey, NextKey;
    FirstMatchIs(sets, power, speed);
    FailsOnlyWhenKeysWrap(sets, power, speed);
    NextKeyIs(sets);
  }

  /** So a key returned is that of a set within the tolerance of the request; the map only grows, at its end, and keeps
      its keys distinct; asking again finds the same set and adds nothing. */
  lemma FindOrCreateGrows(sets: seq<ParamSet>, power: real, speed: real)
    ensures var (r, after) := FindOrCreate(sets, power, speed);
            && GrownFrom(sets, after) && |after| <= |sets| + 1
            && (UniqueKeys(sets) ==> UniqueKeys(after))
            && (r.Failure? ==> after == sets)
            && (r.Success? ==>
                  && (exists i :: 0 <= i < |after| && after[i].key == r.value && Near(after[i].params, power, speed))
                  && FindOrCreate(after, power, speed) == (r, after))
  {
    FirstMatchIs(sets, power, speed);
    var (r, after) := FindOrCreate(sets, power, speed);
    if r.Success? {
      if FirstMatch(sets, power, speed).None? {
        FindHasKey(sets, r.value);
        assert after[|sets|].key == r.value && Near(after[|sets|].params, power, speed);
        FirstMatchAppend(sets, after[|sets|], power, speed);
      } else {
        var i :| 0 <= i < |sets| && Near(sets[i].params, power, speed) && NoneNear(sets, i, power, speed);
        assert after[i].key == r.value;
      }
    }
  }

  lemma FindOrCreateBounds(sets: seq<ParamSet>, power: real, speed: real)
    ensures var (r, after) := FindOrCreate(sets, power, speed);
            r.Success? ==>
              exists i :: 0 <= i < |after| && after[i].key == r.value
                          && -0.001 < after[i].params.power - power < 0.001
                          && -0.001 < after[i].params.speed - speed < 0.001
  {
    hide FindOrCreate;
    FindOrCreateGrows(sets, power, speed);
    var (r, after) := FindOrCreate(sets, power, speed);
    if r.Success? {
      var i :| 0 <= i < |after| && after[i].key == r.value && Near(after[i].params, power, speed);
      assert after[i].key == r.value;
    }
  }

  lemma {:induction false} FirstMatchAppend(sets: seq<ParamSet>, s: ParamSet, power: real, speed: real)
    requires FirstMatch(sets, power, speed).None? && Matches(s.params, power, speed)
    ensures FirstMatch(sets + [s], power, speed) == Some(s.key)
  {
    if sets == [] {
      assert sets + [s] == [s];
    } else {
      assert (sets + [s])[1..] == sets[1..] + [s];
      FirstMatchAppend(sets[1..], s, power, speed);
    }
  }

  // ---------------------------------------------------------------------------------------------
  // Separation and packing
  // ---------------------------------------------------------------------------------------------

  /** No set is within the tolerance of another one: any two differ by at least 0.001 in power or in speed. */
  ghost predicate Apart(sets: seq<ParamSet>) {
    forall i, j :: 0 <= i < j < |sets| ==> FarFrom(sets[i].params, sets[j].params)
  }

  ghost predicate FarFrom(a: MarkingParams, b: MarkingParams) {
    || a.power - b.power >= 0.001 || b.power - a.power >= 0.001
    || a.speed - b.speed >= 0.001 || b.speed - a.speed >= 0.001
  }

  function FindOrCreateAll(sets: seq<ParamSet>, requests: seq<(real, real)>): seq<ParamSet>
    decreases |requests|
  {
    if requests == [] then sets
    else FindOrCreateAll(FindOrCreate(sets, requests[0].0, requests[0].1).1, requests[1..])
  }

  ghost predicate Within(sets: seq<ParamSet>, maxPower: real, maxSpeed: real) {
    forall i :: 0 <= i < |sets| ==>
      0.0 <= sets[i].params.power <= maxPower && 0.0 <= sets[i].params.speed <= maxSpeed
  }

  /** Separation: sets that are pairwise apart stay so under any sequence of requests, whatever their values. */
  lemma {:induction false} StaysApart(sets: seq<ParamSet>, requests: seq<(real, real)>)
    requires Apart(sets)
    ensures Apart(FindOrCreateAll(sets, requests))
    decreases |requests|
  {
    if requests != [] {
      FirstMatchIs(sets, requests[0].0, requests[0].1);
      StaysApart(FindOrCreate(sets, requests[0].0, requests[0].1).1, requests[1..]);
    }
  }

  lemma {:induction false} StaysWithin(sets: seq<ParamSet>, requests: seq<(real, real)>, maxPower: real, maxSpeed: real)
    requires Within(sets, maxPower, maxSpeed)
    requires forall i :: 0 <= i < |requests| ==> 0.0 <= requests[i].0 <= maxPower && 0.0 <= requests[i].1 <= maxSpeed
    ensures Within(FindOrCreateAll(sets, requests), maxPower, maxSpeed)
    decreases |requests|
  {
    if requests != [] {
      StaysWithin(FindOrCreate(sets, requests[0].0, requests[0].1).1, requests[1..], maxPower, maxSpeed);
    }
  }

  /** Requests are served: afterwards the map has a set within the tolerance of each of them, unless the key range was
      exhausted on the way. */
  lemma {:induction false} RequestsServed(sets: seq<ParamSet>, requests: seq<(real, real)>, n: nat)
    requires n < |requests|
    ensures var after := FindOrCreateAll(sets, requests);
            || (exists i :: 0 <= i < |after| && Near(after[i].params, requests[n].0, requests[n].1))
            || (HasKey(after, 0x7fff_ffff) && HasKey(after, -0x8000_0000))
    decreases |requests|
  {
    hide FindOrCreate, Near;
    var power, speed := requests[0].0, requests[0].1;
    var (r, next) := FindOrCreate(sets, power, speed);
    var after := FindOrCreateAll(sets, requests);
    if n > 0 {
      RequestsServed(next, requests[1..], n - 1);
    } else {
      AllGrows(next, requests[1..]);
      FindOrCreateGrows(sets, power, speed);
      FailsOnlyWhenKeysWrap(sets, power, speed);
      if r.Success? {
        var i :| 0 <= i < |next| && next[i].key == r.value && Near(next[i].params, power, speed);
        assert after[i] == next[i];
      } else {
        HasKeyGrows(sets, after, 0x7fff_ffff);
        HasKeyGrows(sets, after, -0x8000_0000);
      }
    }
  }

  lemma {:induction false} AllGrows(sets: seq<ParamSet>, requests: seq<(real, real)>)
    ensures sets <= FindOrCreateAll(sets, requests)
    decreases |requests|
  {
    if requests != [] {
      hide FindOrCreate, UniqueKeys, Near;
      FindOrCreateGrows(sets, requests[0].0, requests[0].1);
      AllGrows(FindOrCreate(sets, requests[0].0, requests[0].1).1, requests[1..]);
    }
  }

  lemma HasKeyGrows(sets: seq<ParamSet>, more: seq<ParamSet>, key: int32)
    requires HasKey(sets, key) && sets <= more
    ensures HasKey(more, key)
  {
    var i :| 0 <= i < |sets| && sets[i].key == key;
    assert more[i].key == key;
  }

  /** The tolerance cell a value lies in. */
  function Cell(x: real): int { (x / 0.001).Floor }

  /** The cells of power and speed, numbered row by row. */
  function CellIndex(p: MarkingParams, rows: nat): int { Cell(p.power) * rows + Cell(p.speed) }

  lemma SameCellIsClose(x: real, y: real)
    ensures Cell(x) == Cell(y) ==> -0.001 < x - y < 0.001
  {
  }

  lemma CellBounds(x: real, max: real)
    requires 0.0 <= x <= max
    ensures 0 <= Cell(x) <= Cell(max)
  {
  }

  lemma CellIndexBound(p: MarkingParams, maxPower: real, maxSpeed: real)
    requires 0.0 <= p.power <= maxPower && 0.0 <= p.speed <= maxSpeed
    ensures 0 <= Cell(p.speed) < Cell(maxSpeed) + 1
    ensures Cell(maxSpeed) + 1 >= 0
    ensures 0 <= CellIndex(p, Cell(maxSpeed) + 1) < (Cell(maxPower) + 1) * (Cell(maxSpeed) + 1)
  {
    CellBounds(p.power, maxPower);
    CellBounds(p.speed, maxSpeed);
    hide Cell;
    var x, w, h := Cell(p.power), Cell(maxPower) + 1, Cell(maxSpeed) + 1;
    assert 0 <= x * h && (x + 1) * h <= w * h;
  }

  lemma RowOrder(x: int, y: int, x': int, y': int, h: nat)
    requires 0 <= y < h && 0 <= y' < h && x < x'
    ensures x * h + y < x' * h + y'
  {
    assert (x + 1) * h <= x' * h;
  }

  /** Two sets with the same cell number are within the tolerance of each other. */
  lemma {:induction false} SameIndexMatches(a: MarkingParams, b: MarkingParams, h: nat)
    requires 0 <= Cell(a.speed) < h && 0 <= Cell(b.speed) < h
    ensures CellIndex(a, h) == CellIndex(b, h) ==> !FarFrom(a, b)
  {
    SameCellIsClose(a.power, b.power);
    SameCellIsClose(a.speed, b.speed);
    hide Cell;
    if Cell(a.power) < Cell(b.power) {
      RowOrder(Cell(a.power), Cell(a.speed), Cell(b.power), Cell(b.speed), h);
    } else if Cell(b.power) < Cell(a.power) {
      RowOrder(Cell(b.power), Cell(b.speed), Cell(a.power), Cell(a.speed), h);
    }
  }

  ghost function Below(n: nat): (s: set<int>)
    ensures |s| == n && forall k :: k in s <==> 0 <= k < n
  {
    if n == 0 then {} else Below(n - 1) + {n - 1}
  }

  lemma {:induction false} DistinctCount(cells: seq<int>)
    requires forall i, j :: 0 <= i < j < |cells| ==> cells[i] != cells[j]
    ensures |set i | 0 <= i < |cells| :: cells[i]| == |cells|
  {
    if cells != [] {
      var k := |cells| - 1;
      DistinctCount(cells[..k]);
      assert (set i | 0 <= i < |cells| :: cells[i]) == (set i | 0 <= i < k :: cells[..k][i]) + {cells[k]};
    }
  }

  lemma {:induction false} SubsetSize<T>(a: set<T>, b: set<T>)
    requires a <= b
    ensures |a| <= |b|
  {
    if a != {} {
      var x :| x in a;
      SubsetSize(a - {x}, b - {x});
    }
  }

  lemma Pigeonhole(cells: seq<int>, n: nat)
    requires forall i :: 0 <= i < |cells| ==> 0 <= cells[i] < n
    requires forall i, j :: 0 <= i < j < |cells| ==> cells[i] != cells[j]
    ensures |cells| <= n
  {
    DistinctCount(cells);
    SubsetSize(set i | 0 <= i < |cells| :: cells[i], Below(n));
  }

  /** Packing: sets that are pairwise apart and within the given limits are no more than there are tolerance
      cells, since two sets in one cell would match. */
  lemma Packing(sets: seq<ParamSet>, maxPower: real, maxSpeed: real)
    requires Apart(sets) && Within(sets, maxPower, maxSpeed) && 0.0 <= maxPower && 0.0 <= maxSpeed
    ensures |sets| <= ((maxPower / 0.001).Floor + 1) * ((maxSpeed / 0.001).Floor + 1)
  {
    CellBounds(maxPower, maxPower);
    CellBounds(maxSpeed, maxSpeed);
    hide Cell, CellIndex, FarFrom;
    var h: nat := Cell(maxSpeed) + 1;
    var n := (Cell(maxPower) + 1) * h;
    var cells := seq(|sets|, i requires 0 <= i < |sets| => CellIndex(sets[i].params, h));
    forall i | 0 <= i < |cells|
      ensures 0 <= cells[i] < n && 0 <= Cell(sets[i].params.speed) < h
    {
      CellIndexBound(sets[i].params, maxPower, maxSpeed);
    }
    forall i, j | 0 <= i < j < |cells|
      ensures cells[i] != cells[j]
    {
      SameIndexMatches(sets[i].params, sets[j].params, h);
    }
    Pigeonhole(cells, n);
  }

  /** So no sequence of find-or-create requests within the limits makes the map outgrow that number. */
  lemma RequestsStayPacked(sets: seq<ParamSet>, requests: seq<(real, real)>, maxPower: real, maxSpeed: real)
    requires Apart(sets) && Within(sets, maxPower, maxSpeed) && 0.0 <= maxPower && 0.0 <= maxSpeed
    requires forall i :: 0 <= i < |requests| ==> 0.0 <= requests[i].0 <= maxPower && 0.0 <= requests[i].1 <= maxSpeed
    ensures |FindOrCreateAll(sets, requests)| <= ((maxPower / 0.001).Floor + 1) * ((maxSpeed / 0.001).Floor + 1)
  {
    StaysApart(sets, requests);
    StaysWithin(sets, requests, maxPower, maxSpeed);
    Packing(FindOrCreateAll(sets, requests), maxPower, maxSpeed);
  }

  // ---------------------------------------------------------------------------------------------
  // The job object and the editor's operations on it
  // ---------------------------------------------------------------------------------------------

  class EditableJob {
    var name: Option<string>
    var sets: seq<ParamSet>
    var planes: seq<WorkPlane>

    function Value(): Job
      reads this
    {
      Job(name, sets, planes)
    }

    constructor (job: Job)
      ensures Value() == job
    {
      name, sets, planes := job.name, job.sets, job.planes;
    }
  }

  /** A bound with that property is the number of layers less one. */
  lemma MaxIndexIsLast(job: Job, max: int)
    requires -1 <= max && forall s, e :: RangeValid(job, s, e) <==> 0 <= s <= e <= max
    ensures max == |job.planes| - 1
  {
    var last := |job.planes| - 1;
    assert RangeValid(job, last, last) <==> 0 <= last <= max;
    assert RangeValid(job, max, max) <==> 0 <= max;
  }

  class JobEditor {
    constructor () { }

    /** The bound every layer guard uses: a range is valid exactly if it is ordered, starts at 0 or later and ends
        there or earlier; -1 if no range is valid. */
    method GetMaxLayerIndex(job: EditableJob) returns (max: int)
      ensures -1 <= max
      ensures forall s, e :: RangeValid(job.Value(), s, e) <==> 0 <= s <= e <= max
    {
      max := |job.planes| - 1;
    }

    method DoesParamSetExist(job: EditableJob, key: int32) returns (exists_: bool)
      ensures exists_ <==> HasKey(job.sets, key)
      ensures exists_ <==> Find(job.sets, key).Some?
    {
      FindHasKey(job.sets, key);
      exists_ := Find(job.sets, key).Some?;
    }

    /** The foreach over one plane's blocks that both operations contain. */
    method EditBlocksOfPlane(job: EditableJob, i: nat, op: Edit)
      requires i < |job.planes|
      modifies job`planes
      ensures job.planes == old(job.planes)[i := EditPlane(op, i, old(job.planes)[i])]
    {
      ghost var planes := job.planes;
      for j := 0 to |job.planes[i].blocks|
        invariant |job.planes| == |planes| && |job.planes[i].blocks| == |planes[i].blocks|
        invariant job.planes[i].(blocks := []) == planes[i].(blocks := [])
        invariant forall k :: 0 <= k < |planes| && k != i ==> job.planes[k] == planes[k]
        invariant forall k :: 0 <= k < j ==> job.planes[i].blocks[k] == EditBlock(op, i, planes[i].blocks[k])
        invariant forall k :: j <= k < |planes[i].blocks| ==> job.planes[i].blocks[k] == planes[i].blocks[k]
      {
        var blocks := job.planes[i].blocks;
        if Covers(op, i, blocks[j]) {
          job.planes := job.planes[i := job.planes[i].(blocks := blocks[j := blocks[j].(paramsKey := op.key)])];
        }
      }
      assert job.planes[i].blocks == EditPlane(op, i, planes[i]).blocks;
      assert job.planes == planes[i := EditPlane(op, i, planes[i])];
    }

    method ApplyParametersToLayerRange(job: EditableJob, startLayer: int, endLayer: int, paramKey: int32)
      returns (r: Result<(), EditError>)
      modifies job
      ensures job.Value() == ApplyEdit(old(job.Value()), ToLayerRange(startLayer, endLayer, paramKey))
      ensures r == if !(0 <= startLayer <= endLayer < |old(job.planes)|) then Failure(RangeInvalid)
                   else if !HasKey(old(job.sets), paramKey) then Failure(KeyNotFound)
                   else Success(())
      ensures |job.planes| == |old(job.planes)|
      ensures forall i :: 0 <= i < |job.planes| ==> |job.planes[i].blocks| == |old(job.planes)[i].blocks|
      ensures r.Success? ==>
                forall i, j :: 0 <= i < |job.planes| && 0 <= j < |job.planes[i].blocks| ==>
                  job.planes[i].blocks[j].paramsKey
                  == if startLayer <= i <= endLayer then paramKey else old(job.planes)[i].blocks[j].paramsKey
    {
      EditLaw(job.Value(), ToLayerRange(startLayer, endLayer, paramKey));
      FindHasKey(job.sets, paramKey);
      if !RangeValid(job.Value(), startLayer, endLayer) { return Failure(RangeInvalid); }
      if Find(job.sets, paramKey).None? { return Failure(KeyNotFound); }
      ghost var op, planes := ToLayerRange(startLayer, endLayer, paramKey), job.planes;
      for i := startLayer to endLayer + 1
        invariant |job.planes| == |planes| && job.name == old(job.name) && job.sets == old(job.sets)
        invariant forall k :: startLayer <= k < i ==> job.planes[k] == EditPlane(op, k, planes[k])
        invariant forall k :: 0 <= k < |planes| && !(startLayer <= k < i) ==> job.planes[k] == planes[k]
      {
        EditBlocksOfPlane(job, i, ToLayerRange(startLayer, endLayer, paramKey));
      }
      ApplyEditPlanes(old(job.Value()), op, job.planes);
      r := Success(());
    }

    method ApplyParametersToVectorTypeInLayer(job: EditableJob, layerIndex: int, targetArea: PartArea, paramKey: int32)
      returns (r: Result<(), EditError>)
      modifies job
      ensures job.Value() == ApplyEdit(old(job.Value()), ToVectorType(layerIndex, targetArea, paramKey))
      ensures r == if !(0 <= layerIndex < |old(job.planes)|) then Failure(RangeInvalid)
                   else if !HasKey(old(job.sets), paramKey) then Failure(KeyNotFound)
                   else Success(())
      ensures |job.planes| == |old(job.planes)|
      ensures forall i :: 0 <= i < |job.planes| ==> |job.planes[i].blocks| == |old(job.planes)[i].blocks|
      ensures r.Success? ==>
                forall i, j :: 0 <= i < |job.planes| && 0 <= j < |job.planes[i].blocks| ==>
                  var was := old(job.planes)[i].blocks[j];
                  job.planes[i].blocks[j].paramsKey
                  == if i == layerIndex && was.partArea == Some(targetArea) then paramKey else was.paramsKey
    {
      EditLaw(job.Value(), ToVectorType(layerIndex, targetArea, paramKey));
      FindHasKey(job.sets, paramKey);
      if !RangeValid(job.Value(), layerIndex, layerIndex) { return Failure(RangeInvalid); }
      if Find(job.sets, paramKey).None? { return Failure(KeyNotFound); }
      EditBlocksOfPlane(job, layerIndex, ToVectorType(layerIndex, targetArea, paramKey));
      ApplyEditPlanes(old(job.Value()), ToVectorType(layerIndex, targetArea, paramKey), job.planes);
      r := Success(());
    }

    /** The search loop, and the insertion when it finds nothing. */
    method FindOrCreateParameterSetKey(job: EditableJob, power: real, speed: real) returns (r: Result<int32, EditError>)
      modifies job`sets
      ensures (r, job.sets) == FindOrCreate(old(job.sets), power, speed)
      ensures r.Success? ==>
                exists i :: 0 <= i < |job.sets| && job.sets[i].key == r.value
                            && -0.001 < job.sets[i].params.power - power < 0.001
                            && -0.001 < job.sets[i].params.speed - speed < 0.001
      ensures NoneNear(old(job.sets), |old(job.sets)|, power, speed) && r.Success? ==>
                job.sets == old(job.sets) + [ParamSet(r.value, MarkingParams(power, speed, 0.0))]
    {
      hide Near, NoneNear, Matches, MaxKey, HasKey, IsNextKey, UniqueKeys;
      FindOrCreateLaw(job.sets, power, speed);
      FindOrCreateBounds(job.sets, power, speed);
      for i := 0 to |job.sets|
        invariant FirstMatch(job.sets[i..], power, speed) == FirstMatch(job.sets, power, speed)
      {
        assert job.sets[i..][1..] == job.sets[i + 1..];
        if Matches(job.sets[i].params, power, speed) { return Success(job.sets[i].key); }
      }
      var newKey := NextKey(job.sets);
      if Find(job.sets, newKey).Some? { return Failure(KeyTaken); }
      job.sets := job.sets + [ParamSet(newKey, MarkingParams(power, speed, 0.0))];
      r := Success(newKey);
    }

    method SetJobName(job: EditableJob, newName: string)
      modifies job`name
      ensures job.name == Some(newName)
    {
      if job.name.None? { job.name := Some(""); }
      job.name := Some(newName);
    }
  }

  /** Planes outside the operation are left as they are by it. */
  lemma ApplyEditPlanes(job: Job, op: Edit, planes: seq<WorkPlane>)
    requires Accepted(job, op) && |planes| == |job.planes|
    requires forall k :: 0 <= k < |planes| ==>
               planes[k] == if PlaneInOp(op, k) then EditPlane(op, k, job.planes[k]) else job.planes[k]
    ensures job.(planes := planes) == ApplyEdit(job, op)
  {
    forall k | 0 <= k < |planes|
      ensures planes[k] == EditPlane(op, k, job.planes[k])
    {
      if !PlaneInOp(op, k) { assert job.planes[k].blocks == EditPlane(op, k, job.planes[k]).blocks; }
    }
    assert planes == ApplyEdit(job, op).planes;
  }

  predicate PlaneInOp(op: Edit, i: int) {
    match op
    case ToLayerRange(s, e, _) => s <= i <= e
    case ToVectorType(l, _, _) => i == l
  }
}
