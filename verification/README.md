# Verification model of the RTC6 print chain

This project models, in Dafny, the programs that print Open Vector Format (OVF) jobs on a SCANLAB RTC6 laser scanner
board, and proves what they promise together:

- **The print controller** (`PrintController.dfy`, `Handlers.dfy`, `PrintProtocol.dfy`, `Rtc6Board.dfy`). The
  controller fills one of two board lists while the other may still be executing. The board is an environment that
  takes steps of its own between any two calls of the host. `PrintProtocol` states which calls are made in which order,
  as an acceptor, and proves its theorems about every history in which such calls interleave with board steps. The
  controller, list handler, geometry handler and communicator are classes over a recorded board; the layer loop is
  proved to produce only histories the acceptor accepts, ending where the outcome says.
- **The geometry compiler** (`GeometryCompiler.dfy`). Vector blocks become parameter, jump and mark commands. A second,
  independent reading says what segments a block asks for; an interpreter of commands (position, speed, focus, power)
  says what a list makes the head expose; the two agree for every block and layer from every prior state of the head.
- **The container reader** (`WireFormat.dfy`, `LutCodec.dfy`, `OvfContainer.dfy`). Base 128 varints, packed repeated
  fields, the look-up table messages and their parser, and the file: header, job table, pointers, plane tables,
  delimited messages, read through a stateful stream.
- **The parameter editor** (`JobEditor.dfy`, `ParameterEditorApp.dfy`). Re-keying blocks, the tolerance-based
  find-or-create on the parameter map, and the menu as a state machine over arbitrary user input.
- **The file generator** (`OvfFileGenerator.dfy`), a contour and hatches of a square on every layer.
- **The chain** (`EndToEnd.dfy`): from the bytes of a file to the exposed segments; an edited job prints along the path
  of the original; a generated job prints the same square on every layer.

Every file, every history, every sequence of edits and every user input is covered; where something is assumed of the
board or of the input it is listed below.

Three results are negative and are stated as exactly as the positive ones:

- The modified flag of the editor can be unset although blocks have been re-keyed. It happens when, while editing the
  blocks of a layer, one block has been given another key and a later request needs a new parameter set while the
  smallest and the largest 32-bit key are both in use: adding the set throws and the flag is not set.
  `ParameterEditorApp.RunFlag` says that this is the only way, in both directions; `ParameterEditorApp.LostEdits` is
  an input that shows it; `ParameterEditorApp.RoomForKeys` says how much room in the key range rules it out.
- An unset modified flag does not mean that the parameter map is the file's. The map grows unflagged in exactly two
  ways: a set is created for a layer range that is then missing or rejected, or for a block of a layer before a later
  block fails for want of keys. `ParameterEditorApp.RunMap` says so in both directions; `ParameterEditorApp.GrownMap`
  and `ParameterEditorApp.GrownMapByBlocks` are inputs that show it. The map only ever grows at its end
  (`ParameterEditorApp.RunExtends`).
- Looking for the next free key wraps around at the largest 32-bit integer. `JobEditor.FailsOnlyWhenKeysWrap` gives
  the exact condition under which find-or-create throws.

Where the code and its texts disagree, the code is followed. The message of `ConfigurationError`
(RTC6_Main/PrintController.cpp:90-93) says that the block is skipped, but the exception ends the job. The comment on
`processVectorBlock` (RTC6_Controller/GeometryHandler.cpp:33) calls the incoming laser power a percentage; it is in
watts and converted first. The top-level README places the calibration constants in `RTC6_Main/config.h`; they are in
RTC6_Controller/MachineConfig.h.

`dafny verify dfyconfig.toml` checks the whole project.

## Model

| member | source | states |
|---|---|---|
| `PrintProtocol.Refinement` | RTC6_Main/PrintController.cpp:51-74 | When the controller is done, the board has executed exactly the layers' commands one after the other, as a printer with a single list would, for every interleaving of its steps with the controller's calls; both lists are idle then |
| `PrintProtocol.Safety` | RTC6_Main/PrintController.cpp:60-72 | At every point of every history: no list is opened or appended to while it executes, no list is started while another runs, powder is spread only while both are idle, and the two lists never execute at once |
| `PrintProtocol.AbortPrefix` | RTC6_Main/PrintController.cpp:62-70 | Wherever the controller stops, at layer i: layers 0..i-2 have been executed in full and in order, layer i-1 up to the board's position, nothing of layer i, however long the board runs on; once the board rests, exactly layers 0..i-1 |
| `PrintProtocol.NoStall` | RTC6_Main/PrintController.cpp:105-107 | While the list the controller polls is busy the board has an enabled step, and that step shrinks the work the board has left |
| `PrintProtocol.CallGrammar` | RTC6_Main/PrintController.cpp:62-72 | Apart from status polls the calls are, for every layer: open the list whose turn it is, the layer's commands, end, spread powder unless it is the first layer, execute that list; then the beginning of the next such group |
| `PrintProtocol.ListOf` | RTC6_Controller/ListHandler.cpp:9-17 | In a program that has just started, layer i goes to list 1 + i mod 2 |
| `PrintProtocol.RunInvariant` | RTC6_Controller/ListHandler.cpp:47-81 | The invariant tying call position, list memories, input pointer, busy bits, execution cursor and executed commands together holds after every history, whatever the list memories held and whatever happened before the firmware was loaded |
| `PrintProtocol.HostStepKeepsInv` | RTC6_Main/PrintController.cpp:62-72 | Each call the controller may make keeps that invariant |
| `PrintProtocol.BoardStepKeepsInv` | RTC6_Controller/Rtc6Constants.h:20-23 | Each step the board may take on its own, executing a command or clearing a busy bit at the end mark, keeps that invariant |
| `PrintProtocol.PrefixIsRun` | RTC6_Main/PrintController.cpp:51-74 | Every beginning of a job's history, from the firmware load on, is one, and the next call is one the protocol allows there |
| `Rtc6Board.BoardStepShrinksWork` | RTC6_Main/PrintController.cpp:105-107 | Left alone the board comes to rest: each step of its own uses up work |
| `Rtc6Board.RtcApi.Status` | RTC6_Controller/ListHandler.cpp:96-103 | The status word shows the two busy bits as they are at the moment of the call, with all other bits arbitrary |
| `Rtc6Board.StatusWordShows` | RTC6_Controller/Rtc6Constants.h:20-23 | List 1 is bit 4 (0x10), list 2 is bit 5 (0x20), each independent of the other and of the other bits |
| `Handlers.SetupGate` | RTC6_Controller/Rtc6Communicator.cpp:123-147 | Whatever the DLL answers: the calls are initialise, count, select, load, each only after the one before it succeeded; setup succeeds exactly when all four did; the configured card is selected if the count covers it, and card 1 otherwise |
| `Handlers.Rtc6Communicator.constructor` | RTC6_Controller/Rtc6Communicator.cpp:9-15 | A new communicator is not ready, and no setup step counts as done |
| `Handlers.Rtc6Communicator.InitializeDll` | RTC6_Controller/Rtc6Communicator.cpp:54-65 | Succeeds exactly if the DLL reports no error; a failure does not unset an earlier success |
| `Handlers.Rtc6Communicator.CountBoards` | RTC6_Controller/Rtc6Communicator.cpp:67-78 | Asks the DLL only once it is initialised, and counts no card otherwise |
| `Handlers.Rtc6Communicator.SelectBoard` | RTC6_Controller/Rtc6Communicator.cpp:80-103 | Selects only with an initialised DLL; a failed selection unselects |
| `Handlers.Rtc6Communicator.LoadProgram` | RTC6_Controller/Rtc6Communicator.cpp:105-121 | Loads firmware only onto a selected board; success leaves both lists idle and starts a new record of calls |
| `Handlers.Rtc6Communicator.ConnectAndSetupBoard` | RTC6_Controller/Rtc6Communicator.cpp:123-147 | Whatever an earlier attempt left behind, the board is ready exactly if all four DLL calls of this attempt succeeded; the calls made are the gated ones and no job call is among them |
| `Handlers.ListHandler.constructor` | RTC6_Controller/ListHandler.cpp:9-17 | List 1 is filled first and no list counts as executed |
| `Handlers.ListHandler.BeginListPreparation` | RTC6_Controller/ListHandler.cpp:47-56 | Opens the list to be filled on a ready board, and calls nothing otherwise |
| `Handlers.ListHandler.EndListPreparation` | RTC6_Controller/ListHandler.cpp:59-63 | One end-of-list call and nothing else |
| `Handlers.ListHandler.ExecuteCurrentListAndCycle` | RTC6_Controller/ListHandler.cpp:66-81 | Starts the list that was filled, remembers it as the last executed one and turns to the other list; without a ready board nothing changes |
| `Handlers.ListHandler.SwitchFillListTarget` | RTC6_Controller/ListHandler.cpp:142-145 | The fill target alternates between 1 and 2 |
| `Handlers.ListHandler.IsListBusy` | RTC6_Controller/ListHandler.cpp:84-104 | For list 1 or 2 of a ready board the board's own busy bit, 0x10 or 0x20; otherwise always busy, without asking the board |
| `Handlers.ListHandler.AddJumpAbsolute` | RTC6_Controller/ListHandler.cpp:112-115 | Appends exactly the jump, with both coordinates |
| `Handlers.ListHandler.AddMarkAbsolute` | RTC6_Controller/ListHandler.cpp:117-120 | Appends exactly the mark, with both coordinates |
| `Handlers.ListHandler.AddSetFocusOffset` | RTC6_Controller/ListHandler.cpp:122-125 | Appends exactly the focus offset |
| `Handlers.ListHandler.AddSetMarkSpeed` | RTC6_Controller/ListHandler.cpp:127-134 | Appends exactly the mark speed: mm/s times 1000 bits per mm over 1000 ms per s |
| `Handlers.ListHandler.AddSetLaserPower` | RTC6_Controller/ListHandler.cpp:136-139 | Appends exactly the power for the port |
| `Handlers.GeometryHandler.SetParameters` | RTC6_Controller/GeometryHandler.cpp:44-49 | Writes speed, focus and power of the block before its geometry |
| `Handlers.GeometryHandler.ProcessLineSequence` | RTC6_Controller/GeometryHandler.cpp:53-62 | The loop writes one jump to the first point and one mark per further point, whatever the length |
| `Handlers.GeometryHandler.ProcessHatches` | RTC6_Controller/GeometryHandler.cpp:64-72 | The loop writes one jump and one mark per hatch |
| `Handlers.GeometryHandler.ProcessVectorBlock` | RTC6_Controller/GeometryHandler.cpp:40-82 | Appends to the open list exactly the commands whose meaning `BlockMeaning` gives, and makes no other call |
| `GeometryCompiler.BlockMeaning` | RTC6_Controller/GeometryHandler.cpp:40-82 | From any prior position and parameters, the commands of a block expose exactly the block's segments, in order, under the block's own speed, focus and power |
| `GeometryCompiler.BlockParameters` | RTC6_Controller/GeometryHandler.cpp:44-49 | From any prior head state, every segment of a block is exposed at exactly the block's speed in bits per ms at 1000 bits per mm, with a focus within half a bit of 4000 times its millimetres, and with the largest of 4096 power steps of a 400 W laser that does not exceed its watts; power goes to port 1 only |
| `GeometryCompiler.LineCommands` | RTC6_Controller/GeometryHandler.cpp:53-62 | The command list of a path, command by command: three parameters, a jump to the first point, one mark per further point, nothing else |
| `GeometryCompiler.HatchCommands` | RTC6_Controller/GeometryHandler.cpp:64-72 | The command list of hatches: three parameters, then a jump and a mark per hatch, nothing else |
| `GeometryCompiler.SkippedCommands` | RTC6_Controller/GeometryHandler.cpp:55-81 | Fewer than two points and every other kind of geometry write the parameters only |
| `GeometryCompiler.LayerMeaning` | RTC6_Main/PrintController.cpp:80-95 | A layer exposes the concatenation of its blocks' own segments: no block inherits a position or parameter from the one before |
| `GeometryCompiler.ExposeConcat` | RTC6_Main/PrintController.cpp:80-95 | Interpreting command lists one after the other is interpreting their concatenation |
| `GeometryCompiler.MarksExpose` | RTC6_Controller/GeometryHandler.cpp:57-61 | The marks of a path expose the segments between consecutive points |
| `GeometryCompiler.HatchesExpose` | RTC6_Controller/GeometryHandler.cpp:67-70 | Jump and mark pairs expose independent segments, nothing on the way between them |
| `GeometryCompiler.HeaderSets` | RTC6_Controller/GeometryHandler.cpp:44-49 | The parameter commands expose nothing, move nothing and fix all three parameters |
| `GeometryCompiler.PathWithinHalfBit` | RTC6_Controller/GeometryHandler.cpp:52-62 | Along a path of any length the k-th exposed segment starts and ends within half a bit of the k-th and next point and starts where the one before ended: quantisation errors do not add up |
| `GeometryCompiler.HatchesWithinHalfBit` | RTC6_Controller/GeometryHandler.cpp:64-72 | However many hatches come before it, the k-th exposed hatch starts and ends within half a bit of its own two points |
| `GeometryCompiler.MmToBitsHalfBit` | RTC6_Controller/GeometryHandler.cpp:85-87 | A converted coordinate is within half a bit of 4000 times the millimetres |
| `GeometryCompiler.MmToBitsShape` | RTC6_Controller/GeometryHandler.cpp:85-87 | Conversion is odd, monotone, exact on the 1/4000 mm grid, and keeps points at least one grid step apart distinct |
| `GeometryCompiler.FitsIntExactly` | RTC6_Controller/GeometryHandler.cpp:85-87 | A coordinate's bit value is a 32-bit integer exactly for 4000 times the millimetres strictly between -2147483648.5 and 2147483647.5 |
| `GeometryCompiler.WattsToDacLaw` | RTC6_Controller/GeometryHandler.cpp:48-49 | Watts to DAC is monotone, 0 for nothing or less, 4095 from 400 W on, never represents more than a non-negative request, and is less than 400/4095 W below it up to 400 W |
| `PrintController.ExpectedIsFirst` | RTC6_Main/PrintController.cpp:62-70 | A job completes if and only if every layer can be fetched and resolves all its keys; otherwise it ends at the first layer that cannot, with the error of that layer |
| `PrintController.AcceptAdds` | RTC6_Main/PrintController.cpp:81-88 | Writing commands one by one moves the controller through the layer it fills, from any earlier calls |
| `PrintController.PrintController.ProcessBlocks` | RTC6_Main/PrintController.cpp:81-95 | Writes the blocks in order up to the first key that does not resolve, and succeeds exactly if all resolve |
| `PrintController.PrintController.PrepareLayer` | RTC6_Main/PrintController.cpp:76-97 | Opens, fills and ends the layer's list; an unresolved key stops before the end mark is written |
| `PrintController.PrintController.Poll` | RTC6_Main/PrintController.cpp:105-107 | A busy answer leaves the controller waiting and the board with less work left |
| `PrintController.PrintController.WaitForPreviousLayer` | RTC6_Main/PrintController.cpp:99-114 | Only ever polls list 1 or 2 of a ready board, always ends, and spreads powder exactly once, after the list is free; for id 0 it does nothing |
| `PrintController.PrintController.ExecuteLayer` | RTC6_Main/PrintController.cpp:116-121 | Starts the prepared list as the protocol's next call |
| `PrintController.PrintController.ProcessOvfJob` | RTC6_Main/PrintController.cpp:51-74 | The layer loop terminates, its history is one of the protocol's, and it ends at the point and with the outcome `ExpectedIsFirst` characterises |
| `PrintController.PrintController.Run` | RTC6_Main/PrintController.cpp:27-46 | For any DLL answers and files and any earlier runs, aborted ones included: without successful setup and an open file only the gated setup calls are made; otherwise the layer loop's history follows them, starting on the list next to be filled; the executed commands never pass the layer where it stopped, and on completion they are all layers in order with the board idle |
| `WireFormat.VarintRoundTrip` | libs/gprotobuf/google/protobuf/io/coded_stream.h:898-908 | A varint is read back from in front of any bytes, and uses no more bytes than its value needs (Protocol Buffers Encoding, section "Base 128 Varints") |
| `WireFormat.VarintExtends` | RTC6_Controller/OvfParser.h:64-65 | A varint that can be read is read the same way when more bytes follow |
| `WireFormat.VarintExactly` | libs/gprotobuf/google/protobuf/parse_context.h:1067-1071 | For all bytes: a varint can be read exactly if a byte below 128 comes within the limit, and then its value is that of the seven-bit groups, lowest first |
| `WireFormat.VarintTruncated` | libs/gprotobuf/google/protobuf/parse_context.h:1067-1071 | A varint cut off anywhere cannot be read |
| `WireFormat.ToSignedLaw` | Ovf_Core/ovf_lut.pb.cc:279-281 | A 64-bit value is read as the signed value it equals modulo 2^64 |
| `WireFormat.VarintSizeIsLength` | libs/gprotobuf/google/protobuf/io/coded_stream.h:1757-1769 | The closed formula for the size of a varint is the length of its encoding for every 64-bit value |
| `WireFormat.DelimitedRoundTrip` | RTC6_Controller/OvfParser.h:64-65 | A size-delimited message is read back from in front of any bytes |
| `WireFormat.AnnouncedPayload` | RTC6_Controller/OvfParser.h:64-65 | For any announced length and any bytes behind it: the length counts modulo 2^32, and the payload is that many bytes if they are there and no more than 2^31 - 17; otherwise nothing |
| `WireFormat.DelimitedTruncated` | RTC6_Controller/OvfParser.h:64-65 | A delimited message cut off anywhere, in its length or its payload, cannot be read |
| `WireFormat.Int64RoundTrip` | RTC6_Controller/OvfParser.h:70-73 | An 8-byte little-endian pointer is read back, negative values included |
| `WireFormat.PointerValue` | RTC6_Controller/OvfParser.h:70-76 | The eight bytes of a pointer, lowest first, written out |
| `LutCodec.RoundTrip` | Ovf_Core/ovf_lut.pb.cc:258-346 | Parsing a serialised table returns it, for all positions, negative ones included (Protocol Buffers Encoding, section "Packed Repeated Fields") |
| `LutCodec.ConcatenationMerges` | Ovf_Core/ovf_lut.pb.cc:384-397 | Two serialised tables one behind the other parse as the second merged into the first (section "Last One Wins") |
| `LutCodec.ParseSerialized` | Ovf_Core/ovf_lut.pb.cc:526-614 | Parsing a serialised table into an existing one merges it |
| `LutCodec.ParseConcat` | Ovf_Core/ovf_lut.pb.cc:258-295 | Parsing a concatenation is parsing the second part into the result of the first, for any fields in any order, packed or not, known or not |
| `LutCodec.FieldTags` | Ovf_Core/ovf_lut.pb.cc:276-281 | On the wire the shell position stands under tag 8 and the packed positions under tag 18; a zero shell position is not written |
| `LutCodec.UnpackedParses` | Ovf_Core/ovf_lut.pb.cc:284-291 | A position that is not packed, under tag 16, is appended |
| `LutCodec.ShellOverwrites` | Ovf_Core/ovf_lut.pb.cc:279-281 | A later shell position wins, also one of zero that is written out |
| `LutCodec.UnknownFieldSkipped` | Ovf_Core/ovf_lut.pb.cc:271 | A field of any other tag, of any of the four plain wire types, is skipped wherever it stands |
| `LutCodec.BadTag` | Ovf_Core/ovf_lut.pb.cc:271 | Field number zero and the wire types that carry no field fail the parse |
| `LutCodec.LongTag` | libs/gprotobuf/google/protobuf/parse_context.h:958-978 | What a five-byte tag says beyond 32 bits is ignored |
| `LutCodec.AnnouncedBlock` | libs/gprotobuf/google/protobuf/parse_context.h:1050-1060 | A length-delimited field is as long as announced, if it is complete and no longer than 2^31 - 17 bytes; otherwise the parse fails |
| `LutCodec.ShellTruncated` | Ovf_Core/ovf_lut.pb.cc:279-281 | A table cut off within its shell position fails to parse |
| `LutCodec.PartsTruncated` | Ovf_Core/ovf_lut.pb.cc:276-278 | A table cut off within its packed positions fails to parse |
| `LutCodec.PackedTruncated` | Ovf_Core/ovf_lut.pb.cc:276-278 | Packed data that end within a position fail to parse |
| `LutCodec.PackedRoundTrip` | Ovf_Core/ovf_lut.pb.cc:275-278 | Packed positions are read back in order |
| `LutCodec.LutMessage.constructor` | Ovf_Core/ovf_lut.pb.cc:188-198 | A new table is the empty one |
| `LutCodec.LutMessage.Clear` | Ovf_Core/ovf_lut.pb.cc:297-306 | Leaves the empty table |
| `LutCodec.LutMessage.MergeFrom` | Ovf_Core/ovf_lut.pb.cc:384-397 | Appends the positions and takes over a shell position unless it is the default |
| `LutCodec.LutMessage.CopyFrom` | Ovf_Core/ovf_lut.pb.cc:399-404 | Leaves an exact copy, also of a default shell position and also of the message itself |
| `LutCodec.LutMessage.ByteSizeLong` | Ovf_Core/ovf_lut.pb.cc:350-382 | Below 2 GiB of packed data, returns the number of bytes serialisation writes, without encoding, and caches the size of the packed data; above, says how the 32-bit caches wrap around |
| `LutCodec.Int64Size` | Ovf_Core/ovf_lut.pb.cc:366-369 | The summed sizes of the positions are the length of the packed data |
| `LutCodec.ToInt32Law` | libs/gprotobuf/google/protobuf/message_lite.h:166-189 | Cached sizes keep the value modulo 2^32; from 2^31 on they turn negative and the length field is sized as 10 bytes |
| `LutCodec.LutMessage.InternalSerialize` | Ovf_Core/ovf_lut.pb.cc:310-346 | With an up-to-date cached size, appends the bytes that `RoundTrip` reads back |
| `LutCodec.WriteInt64Packed` | Ovf_Core/ovf_lut.pb.cc:334-337 | Writes tag, announced length and every position in order |
| `LutCodec.WriteVarint` | libs/gprotobuf/google/protobuf/io/coded_stream.h:898-908 | The shifting loop writes the varint that `VarintRoundTrip` reads back, for every value |
| `OvfContainer.LayoutReads` | RTC6_Controller/OvfParser.cpp:18-59 | A file whose parts lie at the recorded offsets, in any physical order and with anything in between, opens, and every plane reads as its shell followed by its blocks in table order |
| `OvfContainer.PlaneReads` | RTC6_Controller/OvfParser.cpp:104-115 | One plane's table, shell and blocks are read back from where the pointer chain leads |
| `OvfContainer.HeaderReads` | RTC6_Controller/OvfParser.cpp:73-82 | Magic bytes followed by a pointer yield that pointer |
| `OvfContainer.HeaderExactly` | RTC6_Controller/OvfParser.cpp:73-82 | A header is read exactly if the file has at least 12 bytes and begins with 4c 56 46 21 |
| `OvfContainer.CutOffUnreadable` | RTC6_Controller/OvfParser.h:56-66 | No message can be read where the file ends within it, whatever its decoder |
| `OvfContainer.OutsideUnreadable` | RTC6_Controller/OvfParser.h:56-78 | No message can be read at a position outside the file, and no pointer the file ends within |
| `OvfContainer.CutJobLut` | RTC6_Controller/OvfParser.cpp:33 | A file that ends within the job table fails to open with that part's error and keeps no tables |
| `OvfContainer.CutJobShell` | RTC6_Controller/OvfParser.cpp:34 | A file that ends within the job shell fails to open with that part's error and keeps no tables |
| `OvfContainer.CutPlaneLut` | RTC6_Controller/OvfParser.cpp:92-102 | A file that ends within a plane's pointer or table fails to open with that part's error and keeps at most the tables before it |
| `OvfContainer.CutPlaneShell` | RTC6_Controller/OvfParser.cpp:51-53 | A plane whose shell is cut off fails with that error |
| `OvfContainer.CutBlock` | RTC6_Controller/OvfParser.cpp:54-56 | A plane with a block that is cut off fails with that error, whichever block it is |
| `OvfContainer.BlocksAtNone` | RTC6_Controller/OvfParser.cpp:108-115 | One block that cannot be read fails the plane |
| `OvfContainer.PlaneLutsLongest` | RTC6_Controller/OvfParser.cpp:92-102 | The tables kept are exactly the longest readable prefix of the listed planes |
| `OvfContainer.BlocksAtEach` | RTC6_Controller/OvfParser.cpp:108-115 | Blocks that can each be read at their position are read together, in table order |
| `OvfContainer.InputFile.Seek` | RTC6_Controller/OvfParser.h:58-59 | A negative position fails, and a failed stream does not move |
| `OvfContainer.InputFile.Read` | RTC6_Controller/OvfParser.h:73-76 | All bytes asked for, or the rest of the file with both error bits set; nothing once an error bit is set |
| `OvfContainer.OvfParser.constructor` | RTC6_Controller/OvfParser.cpp:6 | A new parser has no open file and no tables |
| `OvfContainer.OvfParser.ParseDelimitedMessageAt` | RTC6_Controller/OvfParser.h:56-66 | The result depends on the file's bytes and the position only, whatever position and error bits earlier reads left behind; with `AnnouncedPayload`, a complete payload or nothing |
| `OvfContainer.OvfParser.ParseMessageFromPointerAt` | RTC6_Controller/OvfParser.h:68-78 | The message the 8-byte pointer leads to, again independent of the stream's state |
| `OvfContainer.OvfParser.ReadAndValidateHeader` | RTC6_Controller/OvfParser.cpp:73-82 | The job table's position exactly if the file begins with the four magic bytes and a complete pointer |
| `OvfContainer.OvfParser.ParseAllWorkPlaneLuts` | RTC6_Controller/OvfParser.cpp:92-102 | Keeps the longest readable prefix of the plane tables and succeeds exactly if it is complete |
| `OvfContainer.OvfParser.OpenFile` | RTC6_Controller/OvfParser.cpp:18-38 | Whatever was opened or failed before, the result and the tables kept are those of the new file, with the error of the first part that cannot be read |
| `OvfContainer.OvfParser.ParseVectorBlocks` | RTC6_Controller/OvfParser.cpp:108-115 | All blocks in table order, or failure if one cannot be read |
| `OvfContainer.OvfParser.GetWorkPlane` | RTC6_Controller/OvfParser.cpp:40-59 | A function of the bytes, the stored tables and the index, out of range exactly outside the tables: the same plane after any earlier calls, failed ones included; nothing but the stream's position changes |
| `OvfModel.FindHasKey` | RTC6_Main/PrintController.cpp:82-85 | Looking a key up finds the first set with that key, and nothing exactly if no set has it |
| `JobEditor.EditHistory` | OvfParameterModifier/JobEditor.cs:12-40 | After any edits, accepted or rejected, each block has the key of the last one that is for it, by layers from start to end inclusive or by layer and part area, in a valid range and with a key of the map; else its original key; name, parameter sets, geometry and metadata are untouched |
| `JobEditor.EditLaw` | OvfParameterModifier/JobEditor.cs:12-40 | One edit gives its key to exactly the blocks of layers start to end, both included, or of one layer with the part area; rejected, for a range that does not exist or a key that is not in the map, it changes nothing |
| `JobEditor.MaxKey` | OvfParameterModifier/JobEditor.cs:73 | The largest key in use |
| `JobEditor.FirstMatchIs` | OvfParameterModifier/JobEditor.cs:43-47 | The search finds the first set that is less than 0.001 away in power and in speed, and nothing exactly if there is none |
| `JobEditor.FindOrCreateLaw` | OvfParameterModifier/JobEditor.cs:41-56 | The first set less than 0.001 away in power and in speed, and the map as it was; if there is none, a new set at the end with exactly the requested power and speed, no focus shift, and the next key; if both ends of the key range are in use then, an exception and the map as it was |
| `JobEditor.FindOrCreateGrows` | OvfParameterModifier/JobEditor.cs:41-56 | The key returned belongs to a set within the tolerance of the request; the map grows by at most one set at its end, keys stay distinct, failure changes nothing, and asking again adds nothing |
| `JobEditor.NextKeyIs` | OvfParameterModifier/JobEditor.cs:69-74 | The next key is 1 in an empty map, else one more than the largest, wrapping to the smallest 32-bit integer |
| `JobEditor.MatchesIsNear` | OvfParameterModifier/JobEditor.cs:75-82 | Matching means a difference of less than 0.001 in power and less than 0.001 in speed |
| `JobEditor.RequestsServed` | OvfParameterModifier/JobEditor.cs:41-56 | After any sequence of requests the map has a set within the tolerance of each, unless the key range was exhausted |
| `JobEditor.FailsOnlyWhenKeysWrap` | OvfParameterModifier/JobEditor.cs:41-74 | Find-or-create throws if and only if no set is within the tolerance and both 2^31 - 1 and -2^31 are keys |
| `JobEditor.StaysApart` | OvfParameterModifier/JobEditor.cs:41-56 | Sets of which any two differ by at least 0.001 in power or in speed stay so under any sequence of requests, whatever their values |
| `JobEditor.StaysWithin` | OvfParameterModifier/JobEditor.cs:41-56 | Requests within given limits keep the map within them |
| `JobEditor.Packing` | OvfParameterModifier/JobEditor.cs:75-82 | Sets within power P and speed S of which any two differ by at least 0.001 in power or in speed number at most (floor(P/0.001)+1) * (floor(S/0.001)+1) |
| `JobEditor.RequestsStayPacked` | OvfParameterModifier/JobEditor.cs:41-56 | So no sequence of requests within P and S makes the map outgrow that number |
| `JobEditor.SameIndexMatches` | OvfParameterModifier/JobEditor.cs:75-82 | Two sets in the same tolerance cell differ by less than 0.001 in both values |
| `JobEditor.JobEditor.GetMaxLayerIndex` | OvfParameterModifier/JobEditor.cs:6-8 | A layer range is valid exactly if it is ordered, starts at 0 or later and ends at this index or earlier; -1 when no range is valid |
| `JobEditor.JobEditor.DoesParamSetExist` | OvfParameterModifier/JobEditor.cs:9-11 | True exactly for keys of the map |
| `JobEditor.JobEditor.EditBlocksOfPlane` | OvfParameterModifier/JobEditor.cs:34-39 | The in-place loop re-keys exactly the covered blocks of one plane |
| `JobEditor.JobEditor.ApplyParametersToLayerRange` | OvfParameterModifier/JobEditor.cs:12-25 | Afterwards the blocks of layers start to end, both included, have the key and all others their own, or nothing changed and it throws: the range error before the key error |
| `JobEditor.JobEditor.ApplyParametersToVectorTypeInLayer` | OvfParameterModifier/JobEditor.cs:26-40 | Afterwards the layer's blocks with that part area, never one without metadata, have the key and all others their own, or nothing changed and it throws |
| `JobEditor.JobEditor.FindOrCreateParameterSetKey` | OvfParameterModifier/JobEditor.cs:41-56 | The key returned is that of a set less than 0.001 away in power and in speed; a set is added only if there was none, with exactly the values asked for |
| `JobEditor.JobEditor.SetJobName` | OvfParameterModifier/JobEditor.cs:57-62 | Sets the name, creating missing metadata, and touches nothing else |
| `ParameterEditorApp.ChosenKeyExists` | OvfParameterModifier/ParameterEditorApp.cs:80-96 | A key the user settles on exists in the map afterwards, and the map has at most grown |
| `ParameterEditorApp.ChosenKeyLaw` | OvfParameterModifier/ParameterEditorApp.cs:80-96 | An id the user enters is taken exactly if it exists; values the user enters yield the first set within the tolerance, or a new set with exactly these values; the map changes in the last case only |
| `ParameterEditorApp.EditorNeverThrows` | OvfParameterModifier/ParameterEditorApp.cs:97-134 | Whatever the user enters, the editor is called only with a valid range and an existing key: its range and key exceptions are unreachable |
| `ParameterEditorApp.StepExtends` | OvfParameterModifier/ParameterEditorApp.cs:20-66 | Every menu action keeps the file's parameter sets, geometry and metadata, and the resolution of block keys |
| `ParameterEditorApp.RunExtends` | OvfParameterModifier/ParameterEditorApp.cs:20-66 | Over every run: sets of the file are never removed or altered, added sets are at the end, geometry stays, and if all keys of the file resolved, all keys of the current and of the saved job do |
| `ParameterEditorApp.BlockLoop` | OvfParameterModifier/ParameterEditorApp.cs:174-184 | Up to the first failing request every answered block gets its key, later and skipped blocks keep theirs, and an exception leaves the loop exactly if some request fails |
| `ParameterEditorApp.AnswerLaw` | OvfParameterModifier/ParameterEditorApp.cs:178-183 | An answer gives its block the key of a set within the tolerance of it, unless it fails; a skipped block changes nothing |
| `ParameterEditorApp.LoopMap` | OvfParameterModifier/ParameterEditorApp.cs:174-184 | The map left behind is that after all answers, or that at the first request that fails |
| `ParameterEditorApp.BlockEditsResolve` | OvfParameterModifier/ParameterEditorApp.cs:174-184 | A layer whose keys resolved still resolves, also if an exception leaves the loop |
| `ParameterEditorApp.LoopLoses` | OvfParameterModifier/ParameterEditorApp.cs:174-191 | The loop throws with blocks changed if and only if a block is given another key and a later request fails |
| `ParameterEditorApp.StepFlag` | OvfParameterModifier/ParameterEditorApp.cs:97-191 | A step keeps the flag truthful about name and block keys if and only if it is not such a loop |
| `ParameterEditorApp.RunFlag` | OvfParameterModifier/ParameterEditorApp.cs:20-66 | The flag is truthful at every point of a run if and only if no step of it loses edits |
| `ParameterEditorApp.LostEdits` | OvfParameterModifier/ParameterEditorApp.cs:179-187 | A job and answers for which the flag is unset although a block was re-keyed |
| `ParameterEditorApp.RoomForKeys` | OvfParameterModifier/ParameterEditorApp.cs:174-184 | With every key at least as far below the largest integer as the layer has blocks, block editing cannot throw |
| `ParameterEditorApp.LoopGrows` | OvfParameterModifier/ParameterEditorApp.cs:174-184 | The block loop changes the parameter map if and only if one of the answers it reaches adds a set |
| `ParameterEditorApp.StepMap` | OvfParameterModifier/ParameterEditorApp.cs:80-112 | A step keeps an unset flag truthful about the parameter map if and only if it does not create a set for a missing or rejected range, or for a block before a later block fails |
| `ParameterEditorApp.RunMap` | OvfParameterModifier/ParameterEditorApp.cs:20-66 | At every point of a run an unset flag means the file's own parameter map if and only if no step of the run does one of these two things |
| `ParameterEditorApp.GrownMap` | OvfParameterModifier/ParameterEditorApp.cs:93-107 | A job and an input of the first kind: the flag is unset and the map has a new set |
| `ParameterEditorApp.GrownMapByBlocks` | OvfParameterModifier/ParameterEditorApp.cs:179-187 | A job and answers of the second kind |
| `ParameterEditorApp.StepKeys` | OvfParameterModifier/ParameterEditorApp.cs:97-192 | The key each action gives to each block, in the numbers of the menu: layers from 1, ranges with both ends; a block given none keeps its own, and a discard restores the file's |
| `ParameterEditorApp.RunKeys` | OvfParameterModifier/ParameterEditorApp.cs:20-66 | After any run each block has the key of the last action that gave it one since the last discard, or the file's |
| `ParameterEditorApp.RunName` | OvfParameterModifier/ParameterEditorApp.cs:67-79 | After any run the name is the last one entered that is not blank since the last discard, or the file's |
| `ParameterEditorApp.BlankNames` | OvfParameterModifier/ParameterEditorApp.cs:70 | Nothing but white space is blank, a letter or digit makes a name |
| `ParameterEditorApp.StepModified` | OvfParameterModifier/ParameterEditorApp.cs:67-192 | When the modified flag is set after an action: if it was, short of a discard, or if the action took effect, not otherwise |
| `ParameterEditorApp.StepSets` | OvfParameterModifier/ParameterEditorApp.cs:80-192 | The parameter map after an action, also one that is then rejected or fails |
| `ParameterEditorApp.SavesWhatWasEdited` | OvfParameterModifier/ParameterEditorApp.cs:135-163 | Over runs: saving writes the job as edited, with the keys and the name the user gave, and closes the menu; a failing write, a declined or failing discard and a declined quit with unsaved changes leave everything as it is; a quit saves nothing; once closed nothing happens |
| `ParameterEditorApp.DiscardStartsOver` | OvfParameterModifier/ParameterEditorApp.cs:135-152 | After a confirmed discard that reloads, everything that follows happens as if the file had just been opened |
| `ParameterEditorApp.SavedOnlyAtExit` | OvfParameterModifier/ParameterEditorApp.cs:46-49 | Nothing is written while the menu is up |
| `ParameterEditorApp.ParameterEditorApp.GetParameterKeyFromUser` | OvfParameterModifier/ParameterEditorApp.cs:80-96 | The chosen key or exception, and the map as `ChosenKeyExists` describes it |
| `ParameterEditorApp.ParameterEditorApp.DoApplyParametersToRange` | OvfParameterModifier/ParameterEditorApp.cs:97-112 | The step for the layer range; the parameter map may have grown although the range is then rejected |
| `ParameterEditorApp.ParameterEditorApp.DoApplyByVectorType` | OvfParameterModifier/ParameterEditorApp.cs:113-134 | The step for the vector type; the layer is checked before the user is asked for parameters |
| `ParameterEditorApp.ParameterEditorApp.DoVectorBlockEditing` | OvfParameterModifier/ParameterEditorApp.cs:164-192 | The in-place block loop is the one `BlockLoop` describes, and the flag is set only if it was not left by an exception |
| `ParameterEditorApp.ParameterEditorApp.DoChangeJobName` | OvfParameterModifier/ParameterEditorApp.cs:67-79 | A blank name changes nothing, any other is set and flagged |
| `ParameterEditorApp.ParameterEditorApp.DoDiscardChanges` | OvfParameterModifier/ParameterEditorApp.cs:135-152 | Only a confirmed discard that reloads restores the file's job and unsets the flag |
| `ParameterEditorApp.ParameterEditorApp.DoSaveAndExit` | OvfParameterModifier/ParameterEditorApp.cs:205-215 | The job written is the active one, as edited, and the menu closes; a failing write leaves the menu up and writes nothing |
| `ParameterEditorApp.ParameterEditorApp.DoQuitWithoutSaving` | OvfParameterModifier/ParameterEditorApp.cs:153-163 | With unsaved changes the menu is left only after confirmation |
| `ParameterEditorApp.ParameterEditorApp.Choose` | OvfParameterModifier/ParameterEditorApp.cs:24-64 | Each menu choice carries out its step, exceptions included |
| `ParameterEditorApp.ParameterEditorApp.MainLoop` | OvfParameterModifier/ParameterEditorApp.cs:20-66 | The menu loop over any input is a run of the state machine the theorems are about |
| `OvfFileGenerator.LineFits` | OvfFileWriter/OvfFileGenerator.cs:130 | The hatch loop's condition holds exactly for the first floor(size/spacing)+1 lines, none for a negative size |
| `OvfFileGenerator.HatchCoverage` | OvfFileWriter/OvfFileGenerator.cs:126-139 | The lines start at the lower edge, stay inside the square, are one spacing apart and leave less than one spacing at the top |
| `OvfFileGenerator.HatchPoints` | OvfFileWriter/OvfFileGenerator.cs:130-135 | Line i runs from the left edge to the right edge at height i |
| `OvfFileGenerator.CreateContourBlock` | OvfFileWriter/OvfFileGenerator.cs:112-124 | The block `ContourExposed` is about |
| `OvfFileGenerator.CreateHatchBlock` | OvfFileWriter/OvfFileGenerator.cs:126-139 | For any spacing > 0 and any size the loop ends, with the lines counted by `LineFits` |
| `OvfFileGenerator.CreateWorkPlaneForLayer` | OvfFileWriter/OvfFileGenerator.cs:84-100 | The plane `GeneratedLayer` is about, contour before hatches |
| `OvfFileGenerator.Generate` | OvfFileWriter/OvfFileGenerator.cs:30-50 | One plane per layer, in order; none for a count of zero or less |
| `OvfFileGenerator.GeneratedPrintable` | OvfFileWriter/OvfFileGenerator.cs:57-74 | A generated layer meets the compiler's preconditions and resolves key 0 |
| `OvfFileGenerator.GeneratedJobLaw` | OvfFileWriter/OvfFileGenerator.cs:57-110 | The numbers of a generated job: one set under key 0, laser off at 100 mm/s; planes numbered from 0 and 0.1 mm apart; on each the contour and 21 hatches of a 20 mm square under key 0 |
| `OvfFileGenerator.SquareBounds` | OvfFileWriter/OvfFileGenerator.cs:18-21 | A square is as wide and as high as its size, around its centre |
| `OvfFileGenerator.ContourExposed` | OvfFileWriter/OvfFileGenerator.cs:112-124 | The commands the contour compiles to expose, for any state of the head, exactly the four sides of the square, once around and closed |
| `OvfFileGenerator.HatchesExposed` | OvfFileWriter/OvfFileGenerator.cs:126-139 | The commands the hatches compile to expose, for any state of the head, one horizontal line each, from edge to edge at the height of the line, inside the square |
| `OvfFileGenerator.GeneratedLayer` | OvfFileWriter/OvfFileGenerator.cs:84-139 | The commands of a layer of any such size and spacing expose, for any state of the head, the four sides of the scaled square followed by all hatches, all inside the square |
| `EndToEnd.EveryRunPrints` | RTC6_Main/PrintController.cpp:51-97 | At every moment of every run of a printable job, aborted ones included, what has been exposed is a beginning of what the job's points and parameters ask for; all of it when the run is done; exactly that of the layers before i when the board rests with the controller at layer i |
| `EndToEnd.FinishedRunsPrint` | RTC6_Main/PrintController.cpp:51-74 | Every finished run, on whatever list it starts and however it interleaves, exposes exactly what the job asks for |
| `EndToEnd.ExecutedPrefix` | RTC6_Main/PrintController.cpp:51-74 | Whatever the board has executed at any moment is a beginning of the layers' commands in order |
| `EndToEnd.ConcatExposes` | RTC6_Main/PrintController.cpp:62-70 | The layers' commands one after the other expose what the layers ask for one after the other |
| `EndToEnd.StoredJobPrints` | RTC6_Main/PrintController.cpp:27-74 | From bytes to marks: a stored printable job prints to the end if and only if all its keys resolve, and every finished run of the layers planned from the bytes exposes exactly what it asks for |
| `EndToEnd.FetchedLayers` | RTC6_Main/PrintController.cpp:62-70 | For fetched layers equal to the job's planes, the loop completes if and only if the job's keys resolve |
| `EndToEnd.EditedJobPrints` | OvfParameterModifier/ParameterEditorApp.cs:20-66 | Whatever is done in the editor, the job saved from a printable file that resolves prints without a configuration error, and every finished run of it sends the laser along exactly the path every finished run of the original does; only speed, focus and power may differ |
| `EndToEnd.SameJobPath` | RTC6_Controller/GeometryHandler.cpp:52-72 | The commands of jobs that differ in block keys and parameter sets only send the laser along the same path, whatever the two heads did before |
| `EndToEnd.GeneratedJobPrintable` | OvfFileWriter/OvfFileGenerator.cs:57-139 | A generated job of any layer count is printable and resolves |
| `EndToEnd.SquareExposed` | OvfFileWriter/OvfFileGenerator.cs:84-139 | A generated layer is 25 segments on the scanner grid: the sides of the square of half size 40000 bits and 21 hatches 4000 bits apart, from edge to edge |
| `EndToEnd.SquareExposedUnder` | OvfFileWriter/OvfFileGenerator.cs:63-71 | A generated layer is exposed at 100 mm/s without focus shift and with the laser off |
| `EndToEnd.BlockExposedUnder` | RTC6_Controller/GeometryHandler.cpp:44-49 | The parameters a block is exposed under are its own, in numbers |
| `EndToEnd.GeneratedJobPrints` | OvfFileWriter/OvfFileGenerator.cs:30-139 | Every finished print of a generated job, however the board and the controller interleave, exposes one square with its hatches per layer and nothing else |

## Left out

What the model assumes of the board:

- The board takes a step during a poll delay if it can take one, clears a list's busy bit when it reaches the end mark,
  consumes commands in order, and a successful firmware load stops both lists; executed commands are counted from
  there. It never refuses a call: opening, writing or starting a busy list is possible, so that safety has to come from
  the controller.
- Real time: sleeps and the recoating delay are steps whose order is kept and whose length is not modelled.
- The capacity of a list memory and the board's error register.
- The `n_get_last_error` diagnostics, versions, serial numbers, the automatic list change (never used by the print
  controller), and freeing the DLL when the program ends.

What the model assumes of numbers and input:

- `float` and `double` are reals: rounding of floating-point operations, infinities and NaN are not modelled. The
  generated hatch heights therefore do not accumulate rounding errors.
- Handlers.GeometryHandler.ProcessVectorBlock: requires coordinates and focus shifts whose bit value fits a 32-bit int,
  an even number of line coordinates and a multiple of four hatch coordinates, because the source casts and indexes
  without checking them.
- OvfFileGenerator.GeneratedLayer: requires half the square's size to fit that int, for the same reason.
- LutCodec.LutMessage.InternalSerialize: requires the cached size of the packed data to be up to date, as the library
  does of its callers. The library file that sizes packed fields is not part of this model; the size of a length field
  is taken to be that of the length cast to a 32-bit int.
- LutCodec.BadTag: groups are not modelled, so a group start, which the library would skip, fails the parse of the model.
- LutCodec.RoundTrip: requires packed data no longer than the Protocol Buffers library reads back in one field (just
  under 2 GiB); the same bound appears wherever a length is announced.
- Mark speed uses a factor of 1000 bits per mm while coordinates use 4000; the model keeps both and claims no agreement.

What is kept abstract:

- The codecs of the Job, WorkPlane and VectorBlock messages are arbitrary decode functions; only the look-up tables
  are modelled byte by byte. `JobLUT` and `WorkPlaneLUT` have generated code that differs in names only, and one class
  stands for both. Unknown fields are skipped rather than kept; groups, arenas and reflection are not modelled.
- What a message that failed to parse holds is arbitrary; nothing in the program reads it.
- The read-ahead of the stream adapter: after a message has been read, the stream's position and error bits are
  arbitrary.
- `OVFFileReader` and `OVFFileWriter` are not part of this model: the editor starts from a job value, reloading yields
  the same value, and the saved job is a value. A job without metadata ends the editor before the menu is used.
- The parameter map is a sequence of keyed sets in iteration order. Distinct keys are not assumed, only proved to stay
  distinct.
- The editor's blocks and planes are values in sequences that its methods replace in place, so aliasing between block
  objects is not captured; the job itself is an object.
- Names of parameter sets, jump speeds and other marking parameters, and job metadata other than the name, which
  neither the editor's logic nor the controller reads.
- Console, viewer, logging, command line and exception texts. User answers, DLL answers and file contents are arbitrary
  inputs; an answer the console rejects with an exception is one of them, except in the block dialogue, where the
  console turns a bad answer into a skipped block (OvfParameterModifier/ConsoleUI.cs:129-146).
- `ListHandler::mmToBits` and the constants of GeometryHandler.h, which nothing uses.
