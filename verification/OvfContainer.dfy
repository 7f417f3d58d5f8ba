/** Reading an OVF container: header, job table, pointers, plane tables, delimited messages; as functions of
    the file's bytes, and as the parser that gets there through a stateful stream. */
module OvfContainer {
  import opened Wrappers
  import opened OvfModel
  import opened WireFormat
  import opened LutCodec

  const MAGIC: seq<byte> := [0x4c, 0x56, 0x46, 0x21]

  /** The message parsers that are not modelled byte by byte. */
  datatype Codecs = Codecs(
    job: seq<byte> -> Option<Job>,
    plane: seq<byte> -> Option<WorkPlane>,
    block: seq<byte> -> Option<VectorBlock>)

  datatype OpenError = CannotOpen | BadHeader | BadJobLut | BadJobShell | BadPlaneLut

  datatype PlaneError = NotOpen | OutOfRange | BadPlaneShell | BadVectorBlock

  // ---------------------------------------------------------------------------------------------
  // The container as a function of its bytes
  // ---------------------------------------------------------------------------------------------

  function PointerAt(bytes: seq<byte>, pos: int): Option<int64> {
    if pos < 0 || |bytes| < pos + 8 then None else Some(ToSigned(LittleEndian(bytes[pos..pos + 8])))
  }

  function PayloadAt(bytes: seq<byte>, pos: int): Option<seq<byte>> {
    if pos < 0 || |bytes| < pos then None else ReadDelimited(bytes[pos..])
  }

  function MessageAt<T>(decode: seq<byte> -> Option<T>, bytes: seq<byte>, pos: int): Option<T> {
    match PayloadAt(bytes, pos)
    case None => None
    case Some(payload) => decode(payload)
  }

  function HeaderPointer(bytes: seq<byte>): Option<int64> {
    if |bytes| < 4 || bytes[..4] != MAGIC then None else PointerAt(bytes, 4)
  }

  function PlaneLutAt(bytes: seq<byte>, pos: int): Option<Lut> {
    match PointerAt(bytes, pos)
    case None => None
    case Some(p) => MessageAt(Parse, bytes, p)
  }

  /** The plane tables up to the first position where none can be read. */
  function PlaneLuts(bytes: seq<byte>, positions: seq<int64>): seq<Lut> {
    if positions == [] then []
    else match PlaneLutAt(bytes, positions[0])
      case None => []
      case Some(l) => [l] + PlaneLuts(bytes, positions[1..])
  }

  function BlocksAt(codecs: Codecs, bytes: seq<byte>, positions: seq<int64>): Option<seq<VectorBlock>> {
    if positions == [] then Some([])
    else match MessageAt(codecs.block, bytes, positions[0])
      case None => None
      case Some(b) =>
        match BlocksAt(codecs, bytes, positions[1..])
        case None => None
        case Some(bs) => Some([b] + bs)
  }

  datatype Container = Container(shell: Job, planeLuts: seq<Lut>)

  /** What opening yields, and the plane tables that are left in the parser either way. */
  function Contents(codecs: Codecs, bytes: seq<byte>): (Result<Container, OpenError>, seq<Lut>) {
    match HeaderPointer(bytes)
    case None => (Failure(BadHeader), [])
    case Some(p) =>
      match MessageAt(Parse, bytes, p)
      case None => (Failure(BadJobLut), [])
      case Some(lut) =>
        match MessageAt(codecs.job, bytes, lut.shell)
        case None => (Failure(BadJobShell), [])
        case Some(shell) =>
          var luts := PlaneLuts(bytes, lut.parts);
          (if |luts| == |lut.parts| then Success(Container(shell, luts)) else Failure(BadPlaneLut), luts)
  }

  function PlaneOf(codecs: Codecs, bytes: seq<byte>, lut: Lut): Result<WorkPlane, PlaneError> {
    match MessageAt(codecs.plane, bytes, lut.shell)
    case None => Failure(BadPlaneShell)
    case Some(shell) =>
      match BlocksAt(codecs, bytes, lut.parts)
      case None => Failure(BadVectorBlock)
      case Some(blocks) => Success(shell.(blocks := shell.blocks + blocks))
  }

  function PlaneAt(codecs: Codecs, bytes: seq<byte>, luts: seq<Lut>, index: int): Result<WorkPlane, PlaneError> {
    if index < 0 || |luts| <= index then Failure(OutOfRange) else PlaneOf(codecs, bytes, luts[index])
  }

  /** The tables left in the parser are the longest prefix of the listed planes that can be read. */
  lemma {:induction false} PlaneLutsLongest(bytes: seq<byte>, positions: seq<int64>)
    ensures var luts := PlaneLuts(bytes, positions);
            && |luts| <= |positions|
            && (forall i :: 0 <= i < |luts| ==> PlaneLutAt(bytes, positions[i]) == Some(luts[i]))
            && (|luts| < |positions| ==> PlaneLutAt(bytes, positions[|luts|]).None?)
  {
    if positions != [] { PlaneLutsLongest(bytes, positions[1..]); }
  }

  lemma PlaneLutsAfter(bytes: seq<byte>, out: seq<Lut>, positions: seq<int64>, i: nat)
    requires i < |positions|
    ensures out + PlaneLuts(bytes, positions[i..])
            == match PlaneLutAt(bytes, positions[i])
               case None => out
               case Some(l) => out + [l] + PlaneLuts(bytes, positions[i + 1..])
  {
    assert positions[i..][1..] == positions[i + 1..];
  }

  lemma NoMorePlaneLuts(bytes: seq<byte>, out: seq<Lut>, positions: seq<int64>)
    ensures out + PlaneLuts(bytes, positions[|positions|..]) == out
  {
  }

  lemma {:induction false} BlocksAtEach(
      codecs: Codecs, bytes: seq<byte>, positions: seq<int64>, blocks: seq<VectorBlock>)
    requires |blocks| == |positions|
    requires forall j :: 0 <= j < |blocks| ==> MessageAt(codecs.block, bytes, positions[j]) == Some(blocks[j])
    ensures BlocksAt(codecs, bytes, positions) == Some(blocks)
  {
    if positions == [] {
      assert blocks == [];
    } else {
      BlocksAtEach(codecs, bytes, positions[1..], blocks[1..]);
      assert [blocks[0]] + blocks[1..] == blocks;
    }
  }

  // ---------------------------------------------------------------------------------------------
  // Well laid out containers are read back
  // ---------------------------------------------------------------------------------------------

  ghost predicate Stored(bytes: seq<byte>, pos: int, s: seq<byte>) {
    0 <= pos && pos + |s| <= |bytes| && bytes[pos..pos + |s|] == s
  }

  ghost predicate StoredMessage<T>(
      bytes: seq<byte>, pos: int, payload: seq<byte>, decode: seq<byte> -> Option<T>, message: T)
  {
    |payload| <= 0x7fff_ffef && Stored(bytes, pos, Delimited(payload)) && decode(payload) == Some(message)
  }

  /** One plane of a container: where its table is and what the table, the shell and the blocks are. */
  datatype PlaneImage = PlaneImage(
    lutPos: int64, lut: Lut,
    shellBytes: seq<byte>, shell: WorkPlane,
    blockBytes: seq<seq<byte>>, blocks: seq<VectorBlock>)

  ghost predicate PlaneStored(codecs: Codecs, bytes: seq<byte>, pos: int, image: PlaneImage) {
    && Stored(bytes, pos, Int64Bytes(image.lutPos))
    && |Serialized(image.lut)| <= 0x7fff_ffef
    && Stored(bytes, image.lutPos, Delimited(Serialized(image.lut)))
    && StoredMessage(bytes, image.lut.shell, image.shellBytes, codecs.plane, image.shell)
    && |image.blocks| == |image.blockBytes| == |image.lut.parts|
    && forall j :: 0 <= j < |image.blocks| ==>
         StoredMessage(bytes, image.lut.parts[j], image.blockBytes[j], codecs.block, image.blocks[j])
  }

  /** Everything lies where the tables say it does; nothing is said about the physical order, about gaps, or
      about what else the file holds. */
  ghost predicate Layout(codecs: Codecs, bytes: seq<byte>, jobLutPos: int64, jobLut: Lut,
                         jobBytes: seq<byte>, job: Job, images: seq<PlaneImage>)
  {
    && Stored(bytes, 0, [0x4c, 0x56, 0x46, 0x21] + Int64Bytes(jobLutPos))
    && |Serialized(jobLut)| <= 0x7fff_ffef
    && Stored(bytes, jobLutPos, Delimited(Serialized(jobLut)))
    && StoredMessage(bytes, jobLut.shell, jobBytes, codecs.job, job)
    && |images| == |jobLut.parts|
    && forall i :: 0 <= i < |images| ==> PlaneStored(codecs, bytes, jobLut.parts[i], images[i])
  }

  lemma StoredPayload(bytes: seq<byte>, pos: int, payload: seq<byte>)
    requires |payload| <= MAX_SIZE && Stored(bytes, pos, Delimited(payload))
    ensures PayloadAt(bytes, pos) == Some(payload)
  {
    var d := Delimited(payload);
    DelimitedRoundTrip(payload, bytes[pos + |d|..]);
    assert bytes[pos..] == bytes[pos..pos + |d|] + bytes[pos + |d|..];
  }

  lemma StoredPointer(bytes: seq<byte>, pos: int, v: int64)
    requires Stored(bytes, pos, Int64Bytes(v))
    ensures PointerAt(bytes, pos) == Some(v)
  {
    Int64RoundTrip(v);
  }

  lemma StoredLut(bytes: seq<byte>, pos: int, l: Lut)
    requires |Serialized(l)| <= MAX_SIZE && Stored(bytes, pos, Delimited(Serialized(l)))
    ensures MessageAt(Parse, bytes, pos) == Some(l)
  {
    StoredPayload(bytes, pos, Serialized(l));
    RoundTrip(l);
  }

  lemma {:induction false} PlaneReads(codecs: Codecs, bytes: seq<byte>, pos: int, image: PlaneImage)
    requires PlaneStored(codecs, bytes, pos, image)
    ensures PlaneLutAt(bytes, pos) == Some(image.lut)
    ensures PlaneOf(codecs, bytes, image.lut) == Success(image.shell.(blocks := image.shell.blocks + image.blocks))
  {
    StoredPointer(bytes, pos, image.lutPos);
    StoredLut(bytes, image.lutPos, image.lut);
    StoredPayload(bytes, image.lut.shell, image.shellBytes);
    forall j | 0 <= j < |image.blocks|
      ensures MessageAt(codecs.block, bytes, image.lut.parts[j]) == Some(image.blocks[j])
    {
      StoredPayload(bytes, image.lut.parts[j], image.blockBytes[j]);
    }
    BlocksAtEach(codecs, bytes, image.lut.parts, image.blocks);
  }

  lemma HeaderReads(bytes: seq<byte>, jobLutPos: int64)
    requires Stored(bytes, 0, MAGIC + Int64Bytes(jobLutPos))
    ensures HeaderPointer(bytes) == Some(jobLutPos)
  {
    var header := MAGIC + Int64Bytes(jobLutPos);
    assert bytes[..12] == header;
    assert bytes[..4] == header[..4] == MAGIC;
    assert bytes[4..12] == header[4..12] == Int64Bytes(jobLutPos);
    StoredPointer(bytes, 4, jobLutPos);
  }

  /** Read correctness: a container laid out in any physical order opens, and every plane reads as its shell
      followed by its blocks in table order. */
  lemma {:induction false} LayoutReads(
      codecs: Codecs, bytes: seq<byte>, jobLutPos: int64, jobLut: Lut, jobBytes: seq<byte>, job: Job,
      images: seq<PlaneImage>)
    requires Layout(codecs, bytes, jobLutPos, jobLut, jobBytes, job, images)
    ensures var luts := Contents(codecs, bytes).1;
            && Contents(codecs, bytes).0 == Success(Container(job, luts))
            && |luts| == |images|
            && forall i :: 0 <= i < |images| ==>
                 PlaneAt(codecs, bytes, luts, i)
                 == Success(images[i].shell.(blocks := images[i].shell.blocks + images[i].blocks))
  {
    var luts := PlaneLuts(bytes, jobLut.parts);
    PlaneLutsLongest(bytes, jobLut.parts);
    forall i | 0 <= i < |images|
      ensures PlaneLutAt(bytes, jobLut.parts[i]) == Some(images[i].lut)
      ensures PlaneOf(codecs, bytes, images[i].lut)
              == Success(images[i].shell.(blocks := images[i].shell.blocks + images[i].blocks))
    {
      PlaneReads(codecs, bytes, jobLut.parts[i], images[i]);
    }
    assert Contents(codecs, bytes) == (Success(Container(job, luts)), luts) by {
      HeaderReads(bytes, jobLutPos);
      StoredLut(bytes, jobLutPos, jobLut);
      StoredPayload(bytes, jobLut.shell, jobBytes);
    }
  }

  // ---------------------------------------------------------------------------------------------
  // Damaged containers fail where they are damaged
  // ---------------------------------------------------------------------------------------------

  /** The header, byte by byte: four magic bytes and a complete pointer, or nothing. */
  lemma HeaderExactly(bytes: seq<byte>)
    ensures HeaderPointer(bytes).Some? <==>
              |bytes| >= 12 && bytes[0] == 0x4c && bytes[1] == 0x56 && bytes[2] == 0x46 && bytes[3] == 0x21
    ensures HeaderPointer(bytes).Some? ==> HeaderPointer(bytes).value == ToSigned(LittleEndian(bytes[4..12]))
  {
    if |bytes| >= 4 {
      var b := bytes[..4];
      assert b == [bytes[0], bytes[1], bytes[2], bytes[3]];
    }
  }

  /** The file ends within the message recorded at the position. */
  ghost predicate CutOff(bytes: seq<byte>, pos: int, payload: seq<byte>) {
    |payload| <= 0x7fff_ffef && 0 <= pos <= |bytes| && bytes[pos..] < Delimited(payload)
  }

  lemma CutOffUnreadable<T>(decode: seq<byte> -> Option<T>, bytes: seq<byte>, pos: int, payload: seq<byte>)
    requires CutOff(bytes, pos, payload)
    ensures MessageAt(decode, bytes, pos) == None
  {
    DelimitedTruncated(payload, bytes[pos..]);
  }

  /** A position outside the file, or a pointer the file ends within, cannot be followed. */
  lemma OutsideUnreadable<T>(decode: seq<byte> -> Option<T>, bytes: seq<byte>, pos: int)
    ensures pos < 0 || pos >= |bytes| ==> MessageAt(decode, bytes, pos) == None
    ensures pos < 0 || pos + 8 > |bytes| ==> PointerAt(bytes, pos) == None
  {
  }

  lemma CutJobLut(codecs: Codecs, bytes: seq<byte>, jobLutPos: int64, payload: seq<byte>)
    requires HeaderPointer(bytes) == Some(jobLutPos) && CutOff(bytes, jobLutPos, payload)
    ensures Contents(codecs, bytes) == (Failure(BadJobLut), [])
  {
    CutOffUnreadable(Parse, bytes, jobLutPos, payload);
  }

  lemma CutJobShell(codecs: Codecs, bytes: seq<byte>, jobLutPos: int64, jobLut: Lut, payload: seq<byte>)
    requires HeaderPointer(bytes) == Some(jobLutPos) && MessageAt(Parse, bytes, jobLutPos) == Some(jobLut)
    requires CutOff(bytes, jobLut.shell, payload)
    ensures Contents(codecs, bytes) == (Failure(BadJobShell), [])
  {
    CutOffUnreadable(codecs.job, bytes, jobLut.shell, payload);
  }

  /** The table of plane i is cut off: opening fails with that error, and at most the tables before it are kept. */
  lemma CutPlaneLut(codecs: Codecs, bytes: seq<byte>, jobLutPos: int64, jobLut: Lut, job: Job, i: nat, pos: int64,
                    payload: seq<byte>)
    requires HeaderPointer(bytes) == Some(jobLutPos) && MessageAt(Parse, bytes, jobLutPos) == Some(jobLut)
    requires MessageAt(codecs.job, bytes, jobLut.shell) == Some(job)
    requires i < |jobLut.parts|
    requires PointerAt(bytes, jobLut.parts[i]) == None
             || (PointerAt(bytes, jobLut.parts[i]) == Some(pos) && CutOff(bytes, pos, payload))
    ensures Contents(codecs, bytes).0 == Failure(BadPlaneLut) && |Contents(codecs, bytes).1| <= i
  {
    if PointerAt(bytes, jobLut.parts[i]).Some? { CutOffUnreadable(Parse, bytes, pos, payload); }
    assert PlaneLutAt(bytes, jobLut.parts[i]) == None;
    PlaneLutsLongest(bytes, jobLut.parts);
  }

  /** A plane's shell is cut off, or one of its blocks while the shell can be read: that plane fails. */
  lemma CutPlaneShell(codecs: Codecs, bytes: seq<byte>, lut: Lut, payload: seq<byte>)
    requires CutOff(bytes, lut.shell, payload)
    ensures PlaneOf(codecs, bytes, lut) == Failure(BadPlaneShell)
  {
    CutOffUnreadable(codecs.plane, bytes, lut.shell, payload);
  }

  lemma CutBlock(codecs: Codecs, bytes: seq<byte>, lut: Lut, shell: WorkPlane, j: nat, payload: seq<byte>)
    requires MessageAt(codecs.plane, bytes, lut.shell) == Some(shell)
    requires j < |lut.parts| && CutOff(bytes, lut.parts[j], payload)
    ensures PlaneOf(codecs, bytes, lut) == Failure(BadVectorBlock)
  {
    CutOffUnreadable(codecs.block, bytes, lut.parts[j], payload);
    BlocksAtNone(codecs, bytes, lut.parts, j);
  }

  /** One block that cannot be read fails them all. */
  lemma {:induction false} BlocksAtNone(codecs: Codecs, bytes: seq<byte>, positions: seq<int64>, j: nat)
    requires j < |positions| && MessageAt(codecs.block, bytes, positions[j]) == None
    ensures BlocksAt(codecs, bytes, positions) == None
  {
    if j > 0 { BlocksAtNone(codecs, bytes, positions[1..], j - 1); }
  }

  // ---------------------------------------------------------------------------------------------
  // The parser
  // ---------------------------------------------------------------------------------------------

  /** The blocks read so far followed by those still to come, if those can be read. */
  ghost function After(out: seq<VectorBlock>, rest: Option<seq<VectorBlock>>): Option<seq<VectorBlock>> {
    match rest
    case None => None
    case Some(bs) => Some(out + bs)
  }

  lemma AfterNothing(rest: Option<seq<VectorBlock>>)
    ensures After([], rest) == rest
  {
    if rest.Some? { assert [] + rest.value == rest.value; }
  }

  lemma AfterOne(out: seq<VectorBlock>, b: VectorBlock, rest: Option<seq<VectorBlock>>)
    ensures After(out + [b], rest) == After(out, After([b], rest))
  {
    if rest.Some? { assert out + [b] + rest.value == out + ([b] + rest.value); }
  }

  /** std::ifstream as the parser uses it: a position and the eof and fail bits persist between calls. */
  class InputFile {
    var isOpen: bool
    var content: seq<byte>
    var pos: nat
    var eof: bool
    var fail: bool

    constructor ()
      ensures !isOpen
    {
      isOpen, content, pos, eof, fail := false, [], 0, false, false;
    }

    method Open(files: map<string, seq<byte>>, path: string)
      modifies this
      ensures isOpen <==> path in files
      ensures isOpen ==> content == files[path] && pos == 0 && !eof && !fail
      ensures !isOpen ==> fail && content == old(content)
    {
      if path in files {
        isOpen, content, pos, eof, fail := true, files[path], 0, false, false;
      } else {
        isOpen, fail := false, true;
      }
    }

    method Close()
      modifies `isOpen
      ensures !isOpen
    {
      isOpen := false;
    }

    method Clear()
      modifies `eof, `fail
      ensures !eof && !fail
    {
      eof, fail := false, false;
    }

    method Seek(p: int)
      modifies `pos, `eof, `fail
      ensures !eof && fail == (old(fail) || p < 0)
      ensures pos == if fail then old(pos) else p
    {
      eof := false;
      if !fail {
        if p < 0 { fail := true; } else { pos := p; }
      }
    }

    /** Up to n bytes; fewer set the eof and fail bits, and nothing is read once a bit is set. */
    method Read(n: nat) returns (bs: seq<byte>)
      requires n > 0
      modifies `pos, `eof, `fail
      ensures pos == old(pos) + |bs|
      ensures old(eof || fail) ==> bs == [] && eof == old(eof) && fail
      ensures old(!eof && !fail && pos + n <= |content|) ==>
                bs == content[old(pos)..old(pos) + n] && !eof && !fail
      ensures old(!eof && !fail && pos + n > |content|) ==>
                bs == (if old(pos) <= |content| then content[old(pos)..] else []) && eof && fail
    {
      if eof || fail {
        bs, fail := [], true;
      } else if pos + n <= |content| {
        bs, pos := content[pos..pos + n], pos + n;
      } else {
        bs := if pos <= |content| then content[pos..] else [];
        pos, eof, fail := pos + |bs|, true, true;
      }
    }

    /** ParseDelimitedFromZeroCopyStream on a good stream. The adapter reads ahead in blocks, so the stream's
        position and bits are left anywhere. */
    method ReadDelimitedAhead() returns (payload: Option<seq<byte>>)
      requires !eof && !fail
      modifies `pos, `eof, `fail
      ensures payload == PayloadAt(content, old(pos))
    {
      payload := PayloadAt(content, pos);
      pos, eof, fail := *, *, *;
    }
  }

  class OvfParser {
    const codecs: Codecs
    const file: InputFile
    var jobShell: Job
    var jobLut: Lut
    var planeLuts: seq<Lut>

    constructor (codecs: Codecs)
      ensures fresh(file) && !file.isOpen && planeLuts == [] && this.codecs == codecs
    {
      this.codecs := codecs;
      file := new InputFile();
      jobShell, jobLut, planeLuts := Job(None, [], []), EMPTY, [];
    }

    method ParseDelimitedMessageAt<T>(decode: seq<byte> -> Option<T>, position: int64) returns (message: Option<T>)
      modifies file`pos, file`eof, file`fail
      ensures message == MessageAt(decode, file.content, position)
      ensures position < 0 || position >= |file.content| ==> message == None
    {
      file.Clear();
      file.Seek(position);
      if file.eof || file.fail { return None; }
      var payload := file.ReadDelimitedAhead();
      message := match payload case None => None case Some(p) => decode(p);
    }

    method ParseMessageFromPointerAt(pointerPosition: int64) returns (message: Option<Lut>)
      modifies file`pos, file`eof, file`fail
      ensures message == PlaneLutAt(file.content, pointerPosition)
    {
      file.Clear();
      file.Seek(pointerPosition);
      var bs := file.Read(8);
      if |bs| != 8 { return None; }
      message := ParseDelimitedMessageAt(Parse, ToSigned(LittleEndian(bs)));
    }

    method ReadAndValidateHeader() returns (jobLutPos: Option<int64>)
      requires file.pos == 0 && !file.eof && !file.fail
      modifies file`pos, file`eof, file`fail
      ensures jobLutPos == HeaderPointer(file.content)
      ensures jobLutPos.Some? <==> |file.content| >= 12 && file.content[..4] == [0x4c, 0x56, 0x46, 0x21]
    {
      var magic := file.Read(4);
      if |magic| != 4 || magic != MAGIC { return None; }
      var pointer := file.Read(8);
      if |pointer| != 8 { return None; }
      jobLutPos := Some(ToSigned(LittleEndian(pointer)));
    }

    method ParseAllWorkPlaneLuts() returns (ok: bool)
      requires planeLuts == []
      modifies file`pos, file`eof, file`fail, `planeLuts
      ensures planeLuts == PlaneLuts(file.content, jobLut.parts)
      ensures ok <==> |planeLuts| == |jobLut.parts|
    {
      hide PlaneLuts, PlaneLutAt;
      ghost var all := PlaneLuts(file.content, jobLut.parts);
      assert jobLut.parts[0..] == jobLut.parts;
      for i := 0 to |jobLut.parts|
        invariant |planeLuts| == i
        invariant all == planeLuts + PlaneLuts(file.content, jobLut.parts[i..])
      {
        PlaneLutsAfter(file.content, planeLuts, jobLut.parts, i);
        var lut := ParseMessageFromPointerAt(jobLut.parts[i]);
        if lut.None? { return false; }
        planeLuts := planeLuts + [lut.value];
      }
      NoMorePlaneLuts(file.content, planeLuts, jobLut.parts);
      ok := true;
    }

    /** Opening starts from nothing: whatever the parser did before, the result and the tables it keeps are
        those of the new file. A message that fails to parse may leave anything behind in its field. */
    method OpenFile(files: map<string, seq<byte>>, path: string) returns (r: Result<(), OpenError>)
      modifies this, file
      ensures path !in files ==> r == Failure(CannotOpen) && planeLuts == [] && !file.isOpen
      ensures path in files ==>
                var (contents, luts) := Contents(codecs, files[path]);
                && file.isOpen && file.content == files[path] && planeLuts == luts
                && (match contents
                    case Success(c) => r == Success(()) && jobShell == c.shell && |jobLut.parts| == |luts|
                    case Failure(e) => r == Failure(e))
    {
      if file.isOpen { file.Close(); }
      jobShell, jobLut, planeLuts := Job(None, [], []), EMPTY, [];
      file.Open(files, path);
      if !file.isOpen { return Failure(CannotOpen); }
      var pointer := ReadAndValidateHeader();
      if pointer.None? { return Failure(BadHeader); }
      var lut := ParseDelimitedMessageAt(Parse, pointer.value);
      if lut.None? { jobLut := *; return Failure(BadJobLut); }
      jobLut := lut.value;
      var shell := ParseDelimitedMessageAt(codecs.job, jobLut.shell);
      if shell.None? { jobShell := *; return Failure(BadJobShell); }
      jobShell := shell.value;
      var ok := ParseAllWorkPlaneLuts();
      PlaneLutsLongest(file.content, jobLut.parts);
      r := if ok then Success(()) else Failure(BadPlaneLut);
    }

    method ParseVectorBlocks(lut: Lut) returns (blocks: Option<seq<VectorBlock>>)
      modifies file`pos, file`eof, file`fail
      ensures blocks == BlocksAt(codecs, file.content, lut.parts)
    {
      var out: seq<VectorBlock> := [];
      ghost var all := BlocksAt(codecs, file.content, lut.parts);
      assert After(out, all) == all by { AfterNothing(all); }
      for j := 0 to |lut.parts|
        invariant all == After(out, BlocksAt(codecs, file.content, lut.parts[j..]))
      {
        ghost var rest := lut.parts[j..];
        assert rest[1..] == lut.parts[j + 1..];
        var block := ParseDelimitedMessageAt(codecs.block, lut.parts[j]);
        if block.None? { return None; }
        AfterOne(out, block.value, BlocksAt(codecs, file.content, rest[1..]));
        out := out + [block.value];
      }
      blocks := Some(out);
      assert out + [] == out;
    }

    /** The result depends on the file's bytes and the stored tables only, not on where earlier calls, failed
        ones included, left the stream; and nothing it depends on is changed. */
    method GetWorkPlane(index: int) returns (r: Result<WorkPlane, PlaneError>)
      modifies file`pos, file`eof, file`fail
      ensures r == if file.isOpen then PlaneAt(codecs, file.content, planeLuts, index) else Failure(NotOpen)
      ensures file.isOpen && !(0 <= index < |planeLuts|) ==> r == Failure(OutOfRange)
    {
      if !file.isOpen { return Failure(NotOpen); }
      if index < 0 || index >= |planeLuts| { return Failure(OutOfRange); }
      var lut := planeLuts[index];
      var shell := ParseDelimitedMessageAt(codecs.plane, lut.shell);
      if shell.None? { return Failure(BadPlaneShell); }
      var blocks := ParseVectorBlocks(lut);
      if blocks.None? { return Failure(BadVectorBlock); }
      r := Success(shell.value.(blocks := shell.value.blocks + blocks.value));
    }
  }
}
