/** The Open Vector Format entities the controller, the editor and the generator share
    (Ovf_Core/proto/open_vector_format.proto), reduced to the fields those programs use. */
module OvfModel {
  import opened Wrappers

  type int32 = x: int | -0x8000_0000 <= x < 0x8000_0000

  /** Laser power in W, marking speed in mm/s, focus shift in mm. */
  datatype MarkingParams = MarkingParams(power: real, speed: real, focus: real)

  /** The vector_data variants the geometry handler distinguishes; points are flat x, y, x, y, ... */
  datatype Geometry =
    | LineSequence(points: seq<real>)
    | Hatches(points: seq<real>)
    | Unsupported

  datatype PartArea = Volume | Contour | TransitionContour

  /** partArea is None when the block carries no LPBF metadata. */
  datatype VectorBlock = VectorBlock(geometry: Geometry, paramsKey: int32, partArea: Option<PartArea>)

  datatype WorkPlane = WorkPlane(number: int, zPos: real, blocks: seq<VectorBlock>)

  datatype ParamSet = ParamSet(key: int32, params: MarkingParams)

  /** The marking parameter map in iteration order. The name is None when the job has no metadata. */
  datatype Job = Job(name: Option<string>, sets: seq<ParamSet>, planes: seq<WorkPlane>)

  /** Looking a key up in the marking parameter map. */
  function Find(sets: seq<ParamSet>, key: int32): Option<MarkingParams> {
    if sets == [] then None
    else if sets[0].key == key then Some(sets[0].params)
    else Find(sets[1..], key)
  }

  ghost predicate HasKey(sets: seq<ParamSet>, key: int32) {
    exists i :: 0 <= i < |sets| && sets[i].key == key
  }

  ghost predicate UniqueKeys(sets: seq<ParamSet>) {
    forall i, j :: 0 <= i < j < |sets| ==> sets[i].key != sets[j].key
  }

  ghost predicate BlocksResolve(blocks: seq<VectorBlock>, sets: seq<ParamSet>) {
    forall j :: 0 <= j < |blocks| ==> HasKey(sets, blocks[j].paramsKey)
  }

  /** Every block of the job names a parameter set that exists. */
  ghost predicate Resolves(job: Job) {
    forall i :: 0 <= i < |job.planes| ==> BlocksResolve(job.planes[i].blocks, job.sets)
  }

  /** A lookup finds the first set with the key, which is the only one in a map, and nothing if no set has it. */
  lemma {:induction false} FindHasKey(sets: seq<ParamSet>, key: int32)
    ensures Find(sets, key).Some? <==> HasKey(sets, key)
    ensures Find(sets, key).Some? ==> ParamSet(key, Find(sets, key).value) in sets
    ensures forall i :: 0 <= i < |sets| && sets[i].key == key && !HasKey(sets[..i], key) ==>
              Find(sets, key) == Some(sets[i].params)
  {
    if sets != [] {
      FindHasKey(sets[1..], key);
      if HasKey(sets, key) && sets[0].key != key {
        var i :| 0 <= i < |sets| && sets[i].key == key;
        assert sets[1..][i - 1].key == key;
      }
      if HasKey(sets[1..], key) {
        var i :| 0 <= i < |sets[1..]| && sets[1..][i].key == key;
        assert sets[i + 1].key == key;
      }
      forall i | 0 <= i < |sets| && sets[i].key == key && !HasKey(sets[..i], key)
        ensures Find(sets, key) == Some(sets[i].params)
      {
        if i > 0 {
          assert sets[..i][0] == sets[0];
          assert sets[1..][i - 1] == sets[i];
          if HasKey(sets[1..][..i - 1], key) {
            var j :| 0 <= j < i - 1 && sets[1..][..i - 1][j].key == key;
            assert sets[..i][j + 1].key == key;
          }
        }
      }
    }
  }
}
