# A verified model of the mechanism index generator and the NCMP command path

This project models two parts of the openCryptoki tree and proves properties of
them with Dafny 4.11. `dafny verify dfyconfig.toml` checks everything.

**The mechanism index generator** (`tools/tableidxgen.c`) turns a table of
mechanism rows into two compressed tries and emits lookup functions that walk
them. Main results:

- A table with distinct keys yields a lookup that returns what a linear scan over
  the rows returns, for every query, *if and only if* its node list is packable:
  it has one node or is not *saturated*, a condition on the node tables alone.
  The packed offsets must fit the `short` cells (`Generate.NumericIndex`,
  `Generate.StringIndex`, `Saturation.ApartIff`).
- The search for the last node stops one offset short, so saturated lists exist.
  Then either the assertion of the emission fails, as for every one-row table
  whose number repeats a byte (`Failures.GenerateOneByte`), or a table is emitted
  that loses a row (`Lost.NameLost`, `Lost.NumberLost`). For the names `a`, `aa`
  and `b` the generator succeeds and its lookup does not find `a`
  (`Failures.GenerateThree`).
- String insertion with displacement terminates and keeps the trie exact
  (`Generator.NodeList.AddString`).

**The NCMP command path** (`ncmp/`) is a lock-free ring between any number of
client threads and one communication thread, a framed wire format, and an
emulated token with containers served round-robin. Ring and threads are a
transition system in which every compare-and-swap, field write and transport call
is one step and steps of different threads interleave freely. Main results:

- Ownership, at-most-once sending and completion, and what is in the buffers, in
  every run, for every transport behaviour (`RingSafety.RunKeeps`,
  `RingRuns.WriteDiscipline`, `RingRuns.SentOnce`, `RingRuns.DoneWasSentOnce`).
- The in-flight counters mean what they say (`InFlight.CounterIsDifference`,
  `InFlight.MaximumIsPeak`).
- With the emulated token the whole path is linearizable: the order of service
  explains every response and respects real time (`Serial.ResponseIsSerial`,
  `Serial.RespectsRealTime`), and a staged request is settled within one round of
  the containers (`Serial.DoneWithinARound`).
- A posted entry is taken within about one round of the containers if its index is
  below the in-flight ceiling and the number of containers
  (`Turns.TakenWithinARound`). From the ceiling on it may wait for ever while
  others are served (`Crowds.LeftWaiting`). With the default limits these are
  entries 0 to 3 and 4 to 31.
- An abandoned entry is reused exactly when the consumer had already settled on
  it (`Recycling.RecycledIff`), and a DONE entry is lost exactly when its client
  passed it by at both attempts to abandon it (`Timeouts.OrphanedIff`). Runs that
  end so are exhibited (`Exhibits.AbandonedWhilePosted`,
  `Exhibits.AnsweredTooLate`).
- The consumer cannot stall. For every transport it returns to the head of its
  dispatch loop within a number of its own steps fixed by the ring
  (`Rounds.HeadSoon`), overlooks no POSTED entry there while there is room below
  the ceiling (`Rounds.NotOverlooked`), and turns to receiving, or finds nothing in
  flight, within a bounded number of steps (`Progress.ReceivesSoon`) and between
  two failed sends (`Progress.BetweenFailures`). With the emulated token a request
  is served between two refused sends (`Progress.ServedBetweenRefusals`), and a
  staged request is completed or given up within a fixed number of consumer steps,
  for every ceiling (`Progress.DoneWithinSteps`).
- Clients cannot stall either: a call with a spin budget returns within a number
  of its client's steps fixed by ring and budget (`Completion.CallReturns`), and a
  client whose entry is DONE is back with its response within five
  (`Completion.AnsweredReturns`).
- A digest spread over any number of updates, on a token with a free context and
  whatever other contexts are live, is the digest of all the data
  (`Sessions.WholeDigest`). Each folded byte can be undone and no change
  of a single byte goes unnoticed (`Hashing.FoldUndone`,
  `Hashing.EveryByteCounts`); the mock ciphers depend on every byte of key, vector,
  data and on the position (`Ciphers.KeyShows`, `Ciphers.IvShows`,
  `Ciphers.DataShows`, `Ciphers.PlaceShows`).
- A command the token does not know comes back to the client unchanged through
  encoding, ring, device and decoding (`EndToEnd.EchoEndToEnd`); one with the fail
  bit comes back refused (`EndToEnd.FailEndToEnd`).
- Replies reach their own clients when no call repeats a key
  (`Keys.FreshIsSound`); two clients under one key may get each other's replies
  (`Exhibits.AnothersReply`).

## Layout

| files | subject |
|---|---|
| `Bytes`, `Bits`, `MechTable` | octets and words; exclusive or, its laws and the machine's; mechanism rows and their keys |
| `Alphabet`, `Trie`, `Generator` | used bytes and their numbers; the trie and its invariant; insertion |
| `Pack`, `Saturation`, `Emit`, `Walk`, `Lookup` | first-fit packing; when it fails; emission; the emitted lookups; that they agree with the scan |
| `Spoilt`, `Lost`, `Generate`, `Failures` | what a saturated list leaves in the table; the row its lookup loses; the whole generator; tables that fail |
| `Wire`, `Codec`, `Layout` | the frame format; encoding, decoding, packing into buffers; every field's place and every error |
| `Token`, `TokenLaws`, `Commands`, `Sessions` | command execution; digest contexts; what each command answers; whole digests |
| `Hashing`, `Ciphers` | the digest and the ciphers of the token, value by value |
| `Device`, `DeviceLaws` | containers and scheduler |
| `Ring`, `RingSafety`, `RingRuns`, `InFlight` | the transition system; its invariant; whole runs; counters |
| `Scans`, `Searches`, `Recycling`, `Timeouts` | the scans alone and under interference; reuse of entries; when a client leaves one behind |
| `System`, `SystemSteps`, `Correlation`, `Keys`, `Serial` | ring, codec and device together; where distinct keys come from; linearizability and bounded service |
| `EndToEnd` | unknown and failing commands, from call to return |
| `Turns`, `Progress`, `Rounds`, `Completion`, `Crowds` | how long an entry stays POSTED; bounds in consumer steps; the consumer's loop; the end of a call; entries that wait for ever |
| `Stories`, `Exhibits` | runs put together phase by phase; runs that end badly |
| `Usb`, `Shm` | receiving over chunked transfers; the shared-memory layout |

## Modelling decisions

- The rows and aliases are parameters. Plain `char` is taken as unsigned, so
  every byte is a character. Row positions and node numbers must fit a `short`:
  the numeric trie has a node for every proper prefix of a key
  (`Generator.NumericFits`), the string trie at most one wherever two names part
  (`Generator.StringFits`, `Generate.NamesFit`).
- The assertion in `buildcompressedtable` is modelled as an aborted generation,
  the error exits for equal keys as a `Duplicate` result.
- `used` is a sort key only; for strings it counts a cell twice when a value
  becomes a link, as the code does.
- Atomic operations are sequentially consistent. A buffer being filled may show
  any contents in between. The constants of the wire format, the entry buffers
  and the containers are those of `ncmp/include/ncmp`; ring depth, in-flight
  ceiling, number of containers and number of threads are arbitrary.
- The fields described as history in `Ring` record which claim an entry belongs
  to and what happened to it; a claim's request and entry index are the client
  thread's own variables. History never influences what a step does to the ring,
  the counters or the device, and `InFlight.HistoryCounts` and
  `RingRuns.ClaimStep` tie it to the steps taken.
- The device is asked to serve only frames whose parameter lengths do not wrap
  when summed in 32 bits (`Device.Parses`); all encoded frames are such. The host
  is little-endian, as the mover's copy of the length prefix assumes.
- `ncmp_slot_wait` ignores the result of decoding. The model keeps it, together
  with the header and lengths that have been stored by then, and
  `Serial.ResponseIsSerial` states exactly when the client's room sufficed.
- The composed results assume that a request is enqueued under the key in its
  header, as `ncmp_client_exec` does, and that no two entries in flight share a
  key. `Keys.FreshAreDistinct` derives the latter from calls that never repeat a
  key. `ncmp/stdll/ncmp_client.c:97-98` numbers the calls of each client process
  separately, all under session 0, so two processes on one slot can repeat one:
  `Exhibits.AnothersReply`.

Where comments and code differ, the model follows the code:

- `ncmp/common/ncmp_slot.c:69-70` says the consumer returns an abandoned entry to
  FREE; `Recycling.RecycledIff` gives the exact condition and
  `Exhibits.AbandonedWhilePosted` a run in which it does not.
- `ncmp/common/ncmp_slot.c:74` takes a failure of both attempts to abandon for a
  completion; `Timeouts.LeftIff` gives the exact condition for the other case and
  `Exhibits.AnsweredTooLate` such a run.
- `stats_total_sent_cmds` also counts attempts whose send failed
  (`InFlight.CounterIsDifference`).
- The comment at `tools/tableidxgen.c:292` expects the mark array to be large
  enough; it is, but the search for the last node does not use all of it
  (`Saturation.LeftOutIff`).

## Model

| member | source | states |
|---|---|---|
| MechTable.NumericKeyIsLow32 | tools/tableidxgen.c:146-173 | the four bytes the numeric trie branches on agree for two numbers exactly when their low 32 bits do |
| MechTable.StringKeyPrefix | tools/tableidxgen.c:191-192 | two names, each read up to and including the NUL, never continue one another: one key is a prefix of the other only if the names are equal |
| Alphabet.Use | tools/tableidxgen.c:240-242 | marking a byte as used keeps the count equal to the number of marked bytes |
| Alphabet.Number | tools/tableidxgen.c:256-260 | used bytes get numbers 0, 1, 2, ... in byte order; the count is the number of used bytes |
| Alphabet.CompressNumeric | tools/tableidxgen.c:230-261 | the used bytes are exactly the bytes of the rows' numbers, and they are numbered |
| Alphabet.CompressString | tools/tableidxgen.c:263-284 | the used bytes are exactly the characters of the names, the NUL included, and they are numbered |
| Alphabet.NumbersDiffer | tools/tableidxgen.c:256-260 | two different used bytes have different numbers, all below the count |
| Trie.StoreKeeps | tools/tableidxgen.c:180-181 | writing a row's value into an empty cell on its way keeps the trie exact: every stored row is reached by its own characters at a slot of its own |
| Trie.GrowKeeps | tools/tableidxgen.c:208-211 | hanging a new node into an empty or value cell keeps the trie exact, the value in that cell being the only row that is no longer stored |
| Trie.Towards | tools/tableidxgen.c:191-196 | following a stored row's characters leads over links to the node of its slot and there to its own value |
| Generator.NodeList.constructor | tools/tableidxgen.c:131-138 | a fresh list holds just the empty root |
| Generator.NodeList.Descend | tools/tableidxgen.c:147-154 | one level of a numeric insertion ends in the node for one more byte of the key, allocating it when the cell is empty |
| Generator.NodeList.AddNumeric | tools/tableidxgen.c:141-182 | refuses a row exactly when a stored row has the same low 32 bits; otherwise the trie then stores exactly one row more |
| Generator.NodeList.BuildNumeric | tools/tableidxgen.c:369-375 | for every table whose positions and node numbers fit a `short`: succeeds exactly when all low 32 bits differ, and then the trie stores every row at its own leaf |
| Generator.InsertKeeps | tools/tableidxgen.c:191-213 | one string insertion, displacement included, keeps the trie exact |
| Generator.NodeList.RecursiveAddString | tools/tableidxgen.c:184-216 | reports a duplicate exactly when the name is stored already; otherwise returns the displaced row (or none) and leaves an exact trie; the error exit at its end cannot be reached |
| Generator.Settle | tools/tableidxgen.c:197-212 | after the first insertion of a row either all rows up to it are stored or exactly one is missing: the row it displaced |
| Generator.Round | tools/tableidxgen.c:218-227 | each re-insertion stores the missing row, or displaces exactly the row inserted before it one character deeper; the common part still to be told apart shrinks strictly |
| Generator.NodeList.AddString | tools/tableidxgen.c:218-227 | terminates; succeeds exactly when the name is new, and then every row so far is stored |
| Generator.NodeList.BuildString | tools/tableidxgen.c:377-383 | for every table whose positions and node numbers fit a `short`: succeeds exactly when all names differ, and then the trie stores every row, with a node only where two names part |
| Pack.TryPlace | tools/tableidxgen.c:320-339 | a trial at an offset succeeds exactly when all cells it needs are free; then exactly those are marked in addition, otherwise the undo restores the marks as they were |
| Pack.Search | tools/tableidxgen.c:318-340 | finds the first offset below the limit at which the node collides with no placed node; the marks are again exactly the cells of the placed nodes |
| Pack.SortNodes | tools/tableidxgen.c:300-313 | the sort table is a permutation of the nodes in descending order of use, earlier nodes first among equals |
| Pack.TopIsFree | tools/tableidxgen.c:318-340 | behind `i` placed nodes the offset `i * usagecount` never collides |
| Pack.SearchSucceeds | tools/tableidxgen.c:316-341 | every node but the last in sort order finds a place below the limit |
| Pack.CompressTable | tools/tableidxgen.c:286-345 | all nodes but possibly the last get their first-fit offset, the `i`-th at most `i * usagecount`; the result is the largest offset; all accesses stay inside the mark array |
| Saturation.SaturatedStacks | tools/tableidxgen.c:316-341 | when every node collides everywhere below the top of its stacked predecessors, first fit stacks the nodes one alphabet apart |
| Saturation.Slack | tools/tableidxgen.c:316-341 | once some node sits lower than its stack position, every later node finds a place below the limit |
| Saturation.LeftOutIff | tools/tableidxgen.c:318-340 | the last node is left without a place exactly when the list is saturated |
| Saturation.ApartIff | tools/tableidxgen.c:286-345 | after packing no two nodes share a cell exactly when there is one node or the list is not saturated |
| Emit.BuildCompressedTable | tools/tableidxgen.c:385-408 | for every list of nodes: the assertion fails exactly when a cell is written over a nonzero one; otherwise each place of the table shows the value of its last writer in node order, and a place nobody writes is 0 |
| Spoilt.SaturatedIsStacked | tools/tableidxgen.c:316-341 | packing a saturated list leaves the last node in packing order at offset 0, where the first one is, and the others one alphabet apart above them |
| Spoilt.OnlyEndsShare | tools/tableidxgen.c:394-404 | of a saturated list only the first and the last node in packing order write to the same place, and they do it for the same byte |
| Spoilt.ValuesDiffer | tools/tableidxgen.c:398-403 | what those two would show at a shared place always differs, whether rows or links |
| Spoilt.NotEmitted | tools/tableidxgen.c:385-408 | so no table shows all cells of a saturated list |
| Spoilt.QuietEnds | tools/tableidxgen.c:397-403 | if the assertion passes nevertheless, the earlier of the two nodes links to the later one at every byte they share |
| Lost.LedAstray | tools/tableidxgen.c:540-565 | in such a table the walk of any name that leads through that link takes the cell of the later node instead and is off by one character from there on |
| Lost.NameLost | tools/tableidxgen.c:540-565 | every string table emitted from a saturated list loses a row: its own name, walked, gives -1 |
| Lost.NumberLost | tools/tableidxgen.c:499-523 | every numeric table emitted from a saturated list loses a row: its own number, walked, gives -1 |
| Generate.EliminateCommonPrefixes | tools/tableidxgen.c:348-366 | finds the longest prefix common to all names |
| Generate.PackAndEmit | tools/tableidxgen.c:702-703 | packing and emission abort exactly when the emission's assertion fails; if the offsets fit a `short`, a table that shows the whole trie is emitted if and only if the list is packable |
| Generate.NumericIndex | tools/tableidxgen.c:699-707 | rejects exactly the tables with equal low 32 bits; otherwise, if the offsets fit a `short`, an index is emitted whose lookup agrees with the scan for every query if and only if the list is packable |
| Generate.StringIndex | tools/tableidxgen.c:712-720 | rejects exactly the tables with equal names; otherwise the trie stores every name behind the longest common prefix and, if the offsets fit a `short`, an index is emitted whose lookup agrees with the scan for every query if and only if the list is packable |
| Failures.OneByteAborts | tools/tableidxgen.c:318-340 | for a table of one row whose number repeats one byte the four nodes compete for one cell, the search stops after three places, and the assertion fails |
| Failures.GenerateOneByte | tools/tableidxgen.c:385-408 | so the generator aborts on every such table |
| Failures.ThreeSaturated | tools/tableidxgen.c:318-340 | for the names a, aa and b the second of the two nodes collides at every offset tried |
| Failures.ThreePasses | tools/tableidxgen.c:397-403 | there the assertion passes all the same, because the link it overwrites is stored as 0 |
| Failures.GenerateThree | tools/tableidxgen.c:712-720 | so for a, aa and b the generator succeeds, and the emitted lookup returns -1 for a, which is row 0 |
| Walk.FindNumber | tools/tableidxgen.c:519-522 | the reference scan: the first row with the full-width number, or -1 when there is none |
| Walk.FindName | tools/tableidxgen.c:562-564 | the reference scan: the first row with the name, or -1 when there is none |
| Lookup.ReadsInside | tools/tableidxgen.c:504-522 | every read of either lookup in any emitted table, for any byte and wherever the walk has strayed, is inside the table; a negative cell names a row, any other an offset from which reading on is safe |
| Lookup.StepTowards | tools/tableidxgen.c:511-517 | on the way of a stored row each read yields the offset of the next node on that way, and at its slot the row itself |
| Walk.IdxFromNumeric | tools/tableidxgen.c:499-523 | on any table whose reads stay inside, the emitted function returns the row that the four reads lead to, if it has the full-width number, and else -1 |
| Lookup.NumberAgrees | tools/tableidxgen.c:499-523 | in a table that shows the trie those reads lead to the row the scan finds, for every full-width query |
| Walk.IdxFromString | tools/tableidxgen.c:540-576 | on any table whose reads stay inside, the emitted function returns the row its walk finds, else what it finds for the target of the first fitting alias, and so on, else -1 |
| Lookup.NameAgrees | tools/tableidxgen.c:540-565 | in a table that shows the trie the walk finds the row the scan finds, for every query |
| Lookup.AliasAgrees | tools/tableidxgen.c:566-576 | so the function returns the row of that name, else what the first fitting alias stands for, whether or not its target is a row, else -1 |
| Wire.GetPut | ncmp/common/ncmp_wire.c:20-32 | reading back a stored word gives the word |
| Wire.PutGet | ncmp/common/ncmp_wire.c:20-32 | storing the word read from four bytes gives the bytes |
| Wire.ValidateParams | ncmp/common/ncmp_wire.c:34-50 | accepts exactly the lengths that each fit and together fit the payload, and names which limit is broken |
| Wire.HeaderRoundTrip | ncmp/common/ncmp_wire.c:152-175 | the header written at the head of a buffer is the header read from it |
| Wire.RoundTrip | ncmp/common/ncmp_wire.c:52-100 | decoding an encoded frame, whatever follows it, returns the message with its payload length filled in |
| Wire.Canonical | ncmp/common/ncmp_wire.c:177-216 | every accepted buffer whose lengths are valid starts with the encoding of the message decoded from it |
| Wire.SameMessageSameBytes | ncmp/common/ncmp_wire.c:177-216 | two accepted buffers with the same message agree byte for byte over the frame |
| Wire.WrappedLengths | ncmp/common/ncmp_wire.c:199-206 | validity is needed: some buffer is accepted although its lengths, summed in 32 bits, wrap around |
| Layout.StoredByte | ncmp/common/ncmp_wire.c:20-26 | byte `i` of a stored word is the word shifted down by 8 `i` bits, modulo 256 |
| Layout.ReadWord | ncmp/common/ncmp_wire.c:28-32 | a word is read with its lowest byte first |
| Layout.FrameLayout | ncmp/include/ncmp/ncmp_wire.h:4-22 | which field is at which place of a frame, byte by byte, with both stated lengths |
| Layout.DecodeErrors | ncmp/common/ncmp_wire.c:152-206 | decoding fails for inconsistent lengths, then for want of room, and for nothing else |
| Layout.DecodedFields | ncmp/common/ncmp_wire.c:177-216 | any other buffer decodes to the fields at their places and the parameter bytes behind them |
| Layout.EncodeErrors | ncmp/common/ncmp_wire.c:64-84 | for every buffer size, each error of encoding occurs exactly when its limit is the first one broken |
| Layout.IngestErrors | ncmp/mock/container.c:14-38 | each error of staging, exactly when it occurs; a refused frame stages nothing |
| Layout.ParsesIff | ncmp/mock/mcu_scheduler.c:393-412 | the staged frames left out of the model are exactly the consistent ones that fit and whose lengths wrap when summed |
| Layout.HeadFilled | ncmp/common/ncmp_wire.c:152-206 | what decoding leaves in the caller's structure, error or not: nothing of a short buffer, else the header, and the lengths once they are in reach |
| Layout.PartErrors | ncmp/common/ncmp_wire.c:114-125 | the first part at fault decides the refusal: too large, missing, or without room, in this order; the parts before it have been copied |
| Layout.PackErrors | ncmp/common/ncmp_wire.c:102-134 | one to eight parts without fault are packed exactly when they fit a payload; any other number is refused |
| Layout.PackedEncodes | ncmp/common/ncmp_wire.c:102-134 | what can be packed is exactly what fits the buffer and can then be encoded |
| Layout.ServeErrors | ncmp/mock/mcu_scheduler.c:393-412 | a staged frame that does not parse is answered with its error and leaves the token alone |
| Codec.PutU32 | ncmp/common/ncmp_wire.c:20-26 | overwrites four bytes with the little-endian word and nothing else |
| Codec.Encode | ncmp/common/ncmp_wire.c:52-100 | fails exactly as and with the error stated by the outcome function, leaving the buffer alone; otherwise the buffer starts with the frame and is otherwise unchanged |
| Codec.DecodeFrame | ncmp/common/ncmp_wire.c:177-216 | the result and parameter bytes are those of the decoding function; the header and lengths are stored as far as they were read, also when the parameters then do not fit, and on an error the payload is untouched |
| Codec.MsgPack | ncmp/common/ncmp_wire.c:102-134 | accepts exactly the packable parts, else the first part at fault decides the error; the buffer then starts with all parts one after the other, on a refusal with those before the one at fault, and is otherwise unchanged |
| Codec.MsgParam | ncmp/common/ncmp_wire.c:136-150 | the slice returned for a parameter holds that parameter's bytes |
| Codec.PartsRoundTrip | ncmp/common/ncmp_wire.c:102-216 | for all packable parts: packed, encoded and decoded, parameter `i` is part `i`, empty beyond the parts; identifiers survive; the frame has exactly prefix, header, length array and parameters |
| Token.DigestFold | ncmp/mock/mcu_scheduler.c:31-36 | the loop computes the fold, which `Hashing` pins down |
| Hashing.FoldUndone | ncmp/mock/mcu_scheduler.c:33-34 | one folded byte can be undone: multiplying by the inverse of the prime modulo 2^32 and the byte again give the accumulator before it |
| Hashing.FoldInjective | ncmp/mock/mcu_scheduler.c:31-36 | under the same data different accumulators stay different |
| Hashing.EveryByteCounts | ncmp/mock/mcu_scheduler.c:31-36 | changing any one byte of the data changes the result |
| Hashing.HashOfA | ncmp/mock/mcu_scheduler.c:28-34 | from the seed the letter a gives 0xE40C292C, the published FNV-1a value |
| Hashing.StartHasBoth | ncmp/mock/mcu_scheduler.c:90-90 | a digest starts from the seed and its mechanism, each recovered from the other |
| Hashing.DigestSizes | ncmp/include/ncmp/ncmp_cmd.h:55-72 | the five mechanisms and the sizes of their digests; every other mechanism has none |
| Bits.XorIsMachineXor | ncmp/mock/mcu_scheduler.c:33-34 | exclusive or of octets is the machine's operator |
| Bits.Xor32Octet | ncmp/mock/mcu_scheduler.c:33-34 | exclusive or of words is that of their octets |
| Bits.XorGroup | ncmp/mock/mcu_scheduler.c:197-201 | exclusive or is commutative and associative, 0 is neutral, everything is its own inverse |
| Token.DigestFinalize | ncmp/mock/mcu_scheduler.c:39-44 | the loop writes exactly the expanded accumulator |
| Hashing.FirstByte | ncmp/mock/mcu_scheduler.c:43-43 | the first expanded byte is the accumulator plus the mechanism, modulo 256 |
| Hashing.NextByte | ncmp/mock/mcu_scheduler.c:42-43 | the next one shows the accumulator shifted by one bit more, 31 further on |
| Hashing.EighthByte | ncmp/mock/mcu_scheduler.c:42-43 | after eight bytes the shifts start again |
| Hashing.MechanismAdds | ncmp/mock/mcu_scheduler.c:43-43 | the mechanism moves every byte by itself |
| Token.FoldAppend | ncmp/mock/mcu_scheduler.c:31-36 | folding in pieces is folding the concatenation |
| Token.CipherInPlace | ncmp/mock/mcu_scheduler.c:197-201 | the overlapping in-place loop writes the out-of-place cipher of the data as it was before, and leaves the rest of the payload alone |
| Ciphers.DataShows | ncmp/mock/mcu_scheduler.c:197-201 | under one key and IV two outputs differ as the texts do |
| Ciphers.IvShows | ncmp/mock/mcu_scheduler.c:198-199 | for one key and text two outputs differ as the IVs do, each repeated to the end |
| Ciphers.KeyShows | ncmp/mock/mcu_scheduler.c:198-199 | for one IV and text two outputs differ as the keys do, each repeated to the end |
| Ciphers.PlaceShows | ncmp/mock/mcu_scheduler.c:198-199 | with nothing but zeros every output byte is its own position |
| Ciphers.NoIv | ncmp/mock/mcu_scheduler.c:300-301 | without an IV the cipher is that with an IV of zeros |
| Token.CipherUndoes | ncmp/mock/mcu_scheduler.c:197-201 | applying the keystream twice restores the data |
| Token.Exec | ncmp/mock/mcu_scheduler.c:54-374 | every command keeps session, sequence and command id, leaves a consistent payload, and answers an encodable request with an encodable response |
| Commands.EchoLaw | ncmp/mock/mcu_scheduler.c:368-372 | a command that is none of the ten leaves the token alone and is answered with its own lengths and parameters and acknowledgement 0 |
| Commands.FailLaw | ncmp/mock/mcu_scheduler.c:400-401 | the fail bit gives acknowledgement 6, with token and parameters unchanged |
| Commands.RefusalLaw | ncmp/mock/mcu_scheduler.c:54-374 | every refused command leaves the token alone and clears nothing but the first length |
| Commands.AnswerLaw | ncmp/mock/mcu_scheduler.c:54-374 | every other answer has one parameter and the identifiers of its request |
| Commands.LowHalf | ncmp/mock/mcu_scheduler.c:56-56 | the opcode is the low half of the command word |
| Commands.RngLaw | ncmp/mock/mcu_scheduler.c:57-72 | as many bytes as asked for, at most one parameter, counting up from 0x5A |
| Commands.DigestAck | ncmp/mock/mcu_scheduler.c:78-88 | the one-shot digest succeeds exactly with a known mechanism, else answers 0x70 |
| Commands.CbcAck | ncmp/mock/mcu_scheduler.c:182-191 | CBC succeeds exactly on the stated sizes, else answers 0x70 |
| Commands.EcbAck | ncmp/mock/mcu_scheduler.c:289-297 | ECB succeeds exactly on the stated sizes, else answers 0x70 |
| Commands.GcmAck | ncmp/mock/mcu_scheduler.c:218-272 | which of its three acknowledgements GCM gives |
| Commands.TagLaw | ncmp/mock/mcu_scheduler.c:240-253 | a tag is the expanded fold of key, IV, associated data and ciphertext one after the other |
| Commands.EcAck | ncmp/mock/mcu_scheduler.c:316-323 | an EC signature is given exactly for a key of 1 to 66 bytes, else 0x70 |
| Commands.EcLaw | ncmp/mock/mcu_scheduler.c:324-332 | it covers curve, data and key and shows the key |
| Commands.RsaAck | ncmp/mock/mcu_scheduler.c:346-353 | an RSA signature is given exactly for a modulus of 1 to 512 bytes, else 0x70 |
| Commands.RsaLaw | ncmp/mock/mcu_scheduler.c:354-359 | it covers exponent and data and shows the modulus |
| TokenLaws.InitLaw | ncmp/mock/mcu_scheduler.c:98-126 | INIT succeeds exactly for a known mechanism with some id not live, and then opens an empty stream under the lowest such id; otherwise it answers 0x70 or 0x31 |
| TokenLaws.UpdateLaw | ncmp/mock/mcu_scheduler.c:127-150 | UPDATE succeeds exactly on a live id, appends its data to that stream only and answers nothing; otherwise it answers 6 |
| TokenLaws.FinalLaw | ncmp/mock/mcu_scheduler.c:151-172 | FINAL succeeds exactly on a live id, returns the digest of its whole stream and closes it; otherwise it answers 6 |
| TokenLaws.OtherLaw | ncmp/mock/mcu_scheduler.c:54-374 | no other command touches a stream |
| TokenLaws.DigestRun | ncmp/mock/mcu_scheduler.c:98-172 | over any sequence of commands the contexts are exactly the accumulators of the live streams |
| TokenLaws.DigestOfStream | ncmp/mock/mcu_scheduler.c:73-172 | after any commands FINAL returns the digest of all data sent to the context since its INIT, however chunked and interleaved |
| TokenLaws.OneShotLaw | ncmp/mock/mcu_scheduler.c:73-97 | the one-shot command returns the same digest for the same data |
| Sessions.WholeDigest | ncmp/mock/mcu_scheduler.c:98-172 | on any token with a free context INIT, any UPDATEs and FINAL all succeed and give the digest of all the data, and the token is as before |
| Sessions.EmptyToken | ncmp/mock/mcu_scheduler.c:110-112 | a token with no context in use is one to start from |
| TokenLaws.CbcOnce | ncmp/mock/mcu_scheduler.c:173-207 | the CBC command returns the cipher of its data for every accepted key, IV and data length |
| TokenLaws.CbcTwice | ncmp/mock/mcu_scheduler.c:173-207 | the CBC command applied to its own output restores the data |
| TokenLaws.EcbOnce | ncmp/mock/mcu_scheduler.c:283-307 | the ECB command returns the cipher of its data for every accepted key and data length |
| TokenLaws.EcbTwice | ncmp/mock/mcu_scheduler.c:283-307 | the ECB command applied to its own output restores the data |
| TokenLaws.GcmOnce | ncmp/mock/mcu_scheduler.c:208-257 | GCM-mode encryption returns ciphertext and tag |
| TokenLaws.GcmRoundTrip | ncmp/mock/mcu_scheduler.c:208-282 | GCM-mode decryption of an encryption under the same key, IV, associated data and tag length always accepts and returns the plaintext |
| Device.FirstVacant | ncmp/mock/container.c:28-36 | the first container that is empty and idle |
| Device.MockDevice.MoverIngest | ncmp/mock/container.c:14-38 | stages the frame in the first vacant container or refuses with the stated error, changing nothing else |
| Device.NextStaged | ncmp/mock/mcu_scheduler.c:383-391 | the first staged container at or after the cursor, cyclically |
| Device.MockDevice.Step | ncmp/mock/mcu_scheduler.c:376-415 | serves and frees the next staged container after the cursor and moves the cursor behind it; an error when nothing is staged |
| DeviceLaws.ServeFrame | ncmp/mock/mcu_scheduler.c:393-406 | serving an encoded request always succeeds, with the encoded reply to that very request and the same identifiers |
| DeviceLaws.Arrives | ncmp/common/ncmp_wire.c:177-216 | an encoded frame decodes in full exactly when its parameters fit the room, else with the no-space error |
| DeviceLaws.IngestFrame | ncmp/mock/container.c:18-37 | an encoded frame is refused only when every container is occupied |
| DeviceLaws.IngestBusy | ncmp/mock/container.c:28-36 | a successful staging occupies exactly one more container, one that was vacant |
| DeviceLaws.StepBusy | ncmp/mock/mcu_scheduler.c:383-412 | with something staged, a scheduler step frees exactly one staged container |
| DeviceLaws.NothingStaged | ncmp/mock/mcu_scheduler.c:414-414 | with nothing staged, a scheduler step changes nothing and reports the state error |
| DeviceLaws.NearerOrServed | ncmp/mock/mcu_scheduler.c:383-411 | a scheduler step serves a given staged container or leaves it staged and strictly nearer to the cursor |
| Ring.EncodableIff | ncmp/common/ncmp_slot.c:34-39 | an enqueue is rolled back exactly when the encoder refuses the message |
| RingSafety.ClaimKeeps | ncmp/common/ncmp_queue.c:17-20 | claiming a FREE entry keeps the invariant: nobody else held it |
| RingSafety.FillKeeps | ncmp/common/ncmp_slot.c:32-50 | each step of filling, posting or rolling back an entry keeps the invariant |
| RingSafety.AbandonKeeps | ncmp/common/ncmp_slot.c:68-73 | giving up on an entry keeps the invariant, also while the consumer handles it |
| RingSafety.WaitKeeps | ncmp/common/ncmp_slot.c:67-87 | each step of waiting, reading and releasing keeps the invariant |
| RingSafety.TakeKeeps | ncmp/daemon/comm_thread.c:58-66 | taking a POSTED entry keeps the invariant |
| RingSafety.DispatchKeeps | ncmp/daemon/comm_thread.c:99-107 | each step of reserving, sending, undoing and requeueing keeps the invariant |
| RingSafety.ReceiveKeeps | ncmp/daemon/comm_thread.c:123-128 | a received response, whatever the transport returns, keeps the invariant |
| RingSafety.ScanKeeps | ncmp/daemon/comm_thread.c:69-80 | each look at an entry while matching, and each other step that changes no entry, keeps the invariant |
| RingSafety.CopyKeeps | ncmp/daemon/comm_thread.c:138-142 | copying the response keeps the invariant |
| RingSafety.PublishKeeps | ncmp/daemon/comm_thread.c:143-149 | publishing a response or freeing an abandoned entry keeps the invariant |
| RingSafety.StepKeeps | ncmp/daemon/comm_thread.c:86-172 | every step of every thread, in any interleaving, keeps the invariant |
| RingSafety.NeverStuck | ncmp/common/ncmp_slot.c:14-88 | in every such state all indices used by the next action of any thread are in range and every copy fits its buffer |
| RingSafety.RunKeeps | ncmp/common/ncmp_slot.c:14-88 | the invariant holds in every state of every run, for any number of producers and any transport |
| RingRuns.WriteDiscipline | ncmp/common/ncmp_slot.c:27-50 | in every step request bytes and key change only while CLAIMED and by the claimant, response bytes only while SENT or ABANDONED and by the consumer, ownership only from FREE, and states only along the transitions of their side |
| RingRuns.HandledIsKept | ncmp/daemon/comm_thread.c:94-107 | an entry the consumer handles cannot be re-claimed and its request cannot change |
| RingRuns.SentBytes | ncmp/daemon/comm_thread.c:94-100 | the bytes handed to the transport are the claimant's encoding, and the claim was not sent before |
| RingRuns.DoneIsAnswered | ncmp/daemon/comm_thread.c:138-147 | every DONE entry holds a frame whose header carries the entry's own session and sequence |
| RingRuns.SentOnce | ncmp/daemon/comm_thread.c:92-108 | in every run each claim is successfully sent at most once, despite requeueing |
| RingRuns.DoneOnce | ncmp/daemon/comm_thread.c:147-147 | in every run each claim becomes DONE at most once |
| RingRuns.DoneWasSentOnce | ncmp/daemon/comm_thread.c:86-150 | a claim that becomes DONE was successfully sent exactly once before |
| RingRuns.ClaimStep | ncmp/daemon/comm_thread.c:86-150 | a step changes what is recorded of a claim exactly when it sends that claim successfully or makes it DONE |
| RingRuns.ClaimLater | ncmp/common/ncmp_slot.c:27-87 | along a run a claim keeps its entry, producer and request, and is never un-sent, un-completed or un-abandoned |
| InFlight.AccountedStep | ncmp/daemon/comm_thread.c:40-55 | every step keeps the accounting, for every transport result |
| InFlight.RunAccounted | ncmp/daemon/comm_thread.c:86-149 | at every point of every run the counter is between 0 and the ceiling and equals sends minus accepted responses, plus one inside the reservation and delivery windows |
| InFlight.HistoryCounts | ncmp/daemon/comm_thread.c:99-128 | the history fields count the successful sends, failed sends and accepted responses of the run |
| InFlight.CounterIsDifference | ncmp/daemon/comm_thread.c:92-149 | at every loop head the counter is the number of successful sends minus the number of responses with a valid header, and the total counts all attempts |
| InFlight.PeakReached | ncmp/daemon/comm_thread.c:40-55 | the recorded peak bounds the counter at all earlier points and was reached at one |
| InFlight.MaximumIsPeak | ncmp/daemon/comm_thread.c:44-48 | the reported maximum bounds the counter at all earlier points and was reached at one, outside the two steps between its update and the reservation |
| Scans.ClaimFinds | ncmp/common/ncmp_queue.c:17-21 | undisturbed, a claim takes the first FREE entry and fails only when there is none |
| Scans.TakeFinds | ncmp/daemon/comm_thread.c:58-66 | undisturbed, a dispatch takes the first POSTED entry and goes on to drain only when there is none |
| Scans.MatchFinds | ncmp/daemon/comm_thread.c:69-80 | undisturbed, a match picks the first SENT entry with the response's session and sequence, or drops the response |
| Scans.AstrayIff | ncmp/daemon/comm_thread.c:69-80 | undisturbed, a reply reaches its entry exactly when no earlier SENT entry has the same key |
| Scans.WaitLasts | ncmp/common/ncmp_slot.c:67-80 | undisturbed, an entry that does not become DONE is looked at exactly budget + 1 times before the client gives up; a budget of 0 waits for ever |
| Searches.ClaimSkips | ncmp/common/ncmp_queue.c:17-20 | in every run a claim passes only entries it has seen occupied during this very search |
| Searches.RefusedWhenFull | ncmp/common/ncmp_queue.c:17-21 | so in every run a call is refused a place only after each entry was occupied at some moment of its search |
| Searches.TakeSkips | ncmp/daemon/comm_thread.c:58-66 | in every run a dispatch passes only entries that were not POSTED when it looked or tried to take them |
| Searches.MatchSkips | ncmp/daemon/comm_thread.c:69-80 | in every run a match passes only entries that were not SENT under the response's key when it looked at them |
| Searches.DroppedUnmatched | ncmp/daemon/comm_thread.c:130-136 | so in every run a response is dropped only after each entry lacked its key at some moment of the match |
| Searches.LooksAsOften | ncmp/common/ncmp_slot.c:67-80 | in every run a client that gives up has found its entry not DONE exactly budget + 1 times; with a budget of 0 it never gives up |
| Recycling.AbandonedStays | ncmp/daemon/comm_thread.c:72-79 | an entry abandoned before the consumer settled on it stays ABANDONED in every continuation |
| Recycling.RecycledIff | ncmp/common/ncmp_slot.c:69-73 | given seven more consumer steps, an abandoned entry was FREE in between exactly when the consumer had already settled on it for a response |
| Recycling.OrphanStays | ncmp/common/ncmp_slot.c:71-77 | a DONE entry whose client has left is never changed again |
| Timeouts.LeftIff | ncmp/common/ncmp_slot.c:68-78 | at any point of any run a claim has timed out without being abandoned exactly when its client found the entry POSTED at the first attempt, SENT at the second and not DONE when looking again |
| Timeouts.OrphanedIff | ncmp/common/ncmp_slot.c:67-88 | in every run a DONE entry has lost its client exactly when that client passed it by in this way |
| Turns.OnlyLowerFirst | ncmp/daemon/comm_thread.c:58-66 | in every run a dispatch passes over an entry that stays POSTED only in favour of a lower one |
| Turns.RefusedWhenFull | ncmp/mock/container.c:28-37 | the device refuses a request only when every container is in use |
| Turns.TakenWithinARound | ncmp/daemon/comm_thread.c:86-113 | an entry whose index is below the ceiling and the number of containers does not stay POSTED while more requests are served than there are containers, whatever other clients post meanwhile |
| Turns.StaysPosted | ncmp/daemon/comm_thread.c:101-107 | between two points at which a claim is POSTED it is POSTED throughout, unless a send failed |
| Crowds.LeftWaiting | ncmp/daemon/comm_thread.c:58-66 | for any number of further calls there is a run in which all of them are served while every entry from the ceiling on stays POSTED |
| Exhibits.AbandonedWhilePosted | ncmp/common/ncmp_slot.c:69-73 | from every fresh slot there is a run in which a client abandons its entry while it is POSTED, so that no delivery is bound to free it |
| Exhibits.AnsweredTooLate | ncmp/common/ncmp_slot.c:71-77 | from every fresh slot in front of the emulated device there is a run in which the entry is taken between the client's two attempts to abandon it and becomes DONE after the client has left |
| Exhibits.AnothersReply | ncmp/stdll/ncmp_client.c:97-98 | from every fresh slot for two clients there is, for any two requests with the same key, a run in which one client is handed the token's reply to the other's request while its own has not been served |
| System.ReturnIsTruthful | ncmp/common/ncmp_slot.c:82-86 | what a waiting client decodes is the reply recorded for its own claim |
| SystemSteps.MatchHand | ncmp/daemon/comm_thread.c:130-136 | with distinct keys the reply in hand matches the entry of its own claim or, when that was abandoned, none |
| SystemSteps.SendDevice | ncmp/daemon/comm_thread.c:100-100 | a request sent to the device occupies a container tagged with its claim; all other containers keep theirs |
| SystemSteps.DeviceAnswers | ncmp/mock/mcu_scheduler.c:383-412 | with something staged the device answers, with the token's reply to the request of the container whose turn it is |
| SystemSteps.ReceiveDevice | ncmp/daemon/comm_thread.c:125-125 | a receive hands the consumer the reply of exactly one claim and frees its container |
| SystemSteps.SystemStep | ncmp/daemon/comm_thread.c:86-150 | every step of producers, consumer and device together keeps the composed invariant while no two entries in flight share a key |
| Keys.FreshAreDistinct | ncmp/stdll/ncmp_client.c:72-73 | in every run whose calls never repeat a (session, sequence) pair no two entries in flight share a key |
| Keys.FreshIsSound | ncmp/stdll/ncmp_client.c:72-73 | so for such runs, with requests addressed by their headers, all results about sound runs hold |
| Correlation.RunSystem | ncmp/daemon/comm_thread.c:86-150 | the composed invariant holds in every state of every sound run: one in which no two entries in flight share a key |
| Correlation.SystemNeverStuck | ncmp/mock/mcu_scheduler.c:396-397 | in the composed system, too, every index is in range and every staged frame parses |
| Correlation.ReplyReachesOwner | ncmp/daemon/comm_thread.c:138-147 | response bytes and completion reach only the entry of the claim the reply answers; a late reply reaches no other entry |
| Correlation.DroppedWasAbandoned | ncmp/daemon/comm_thread.c:131-136 | a reply is dropped only when its claim was abandoned |
| Correlation.CounterIsOccupancy | ncmp/daemon/comm_thread.c:92-93 | at every loop head the in-flight counter is the number of busy containers |
| Correlation.DrainYields | ncmp/daemon/comm_thread.c:123-125 | a drain with something in flight always yields a response |
| Correlation.NoBackpressure | ncmp/mock/container.c:28-37 | with a ceiling no higher than the number of containers the device never refuses a request |
| Serial.Serving | ncmp/mock/mcu_scheduler.c:393-411 | a serving step executes the request of one claim not served before and records its reply |
| Serial.RunSerial | ncmp/mock/mcu_scheduler.c:376-415 | at every point the token's memory, and every recorded reply, are those of a sequential token that executed the served requests in service order |
| Serial.ResponseIsSerial | ncmp/stdll/ncmp_client.c:71-79 | every response a client gets is the sequential token's response to that client's own request at its place in the service order; header and lengths always, the parameters exactly when they fit the client's room |
| Serial.RespectsRealTime | ncmp/stdll/ncmp_client.c:71-79 | a request claimed after another one's response was returned is served later |
| Serial.ServedOnce | ncmp/daemon/comm_thread.c:86-150 | no claim is served twice |
| Serial.DigestEndToEnd | ncmp/mock/mcu_scheduler.c:151-172 | through the whole stack, a FINAL response is the digest of all data sent to its context in service order |
| Serial.ServedOrNearer | ncmp/mock/mcu_scheduler.c:383-411 | a staged request has been served since, or is still staged and nearer by the number of requests served since |
| Serial.ServedWithinARound | ncmp/mock/mcu_scheduler.c:383-411 | a staged request is served before as many further requests are served as there are containers, whatever arrives meanwhile |
| Serial.DoneWithinARound | ncmp/daemon/comm_thread.c:86-150 | and at the next loop head its claim is completed, unless the client abandoned it |
| Completion.CallReturns | ncmp/common/ncmp_slot.c:14-88 | in every run a call with a spin budget returns within a number of its client's own steps fixed by the ring and the budget |
| Completion.AnsweredReturns | ncmp/common/ncmp_slot.c:65-88 | in every run a client whose entry is DONE, even one that is giving up, is back with its response within five steps of its own |
| Rounds.HeadSoon | ncmp/daemon/comm_thread.c:86-162 | in every run, for every transport, the consumer is back at the head of its loop within a number of its own steps fixed by the ring |
| Rounds.HeadBetween | ncmp/daemon/comm_thread.c:156-162 | in every run it passes the head of its loop between two calls for a response |
| Rounds.NotOverlooked | ncmp/daemon/comm_thread.c:86-93 | in every run, with room below the ceiling at the head of the loop, an entry that stays POSTED or a lower one is taken before the next call for a response |
| Progress.ReceivesSoon | ncmp/daemon/comm_thread.c:86-162 | in every run, for every transport, the consumer calls for a response or finds nothing in flight within a stated number of its own steps |
| Progress.BetweenFailures | ncmp/daemon/comm_thread.c:101-107 | in every run it does so between two failed sends |
| Progress.ServedBetweenRefusals | ncmp/daemon/comm_thread.c:101-107 | with the emulated device a request is served between two refused sends |
| Progress.ServesSoon | ncmp/daemon/comm_thread.c:123-125 | while a request is staged the next service is no further than that number of steps |
| Progress.ServedWithinSteps | ncmp/mock/mcu_scheduler.c:383-411 | a staged request is served within a number of consumer steps fixed by the sizes alone, for every ceiling |
| Progress.DoneWithinSteps | ncmp/daemon/comm_thread.c:86-162 | and is completed at the next loop head, unless its client gave up |
| Progress.TakenWithinSteps | ncmp/daemon/comm_thread.c:86-113 | a POSTED entry below the ceiling and the number of containers is taken within a number of consumer steps fixed by the sizes alone |
| EndToEnd.EchoEndToEnd | ncmp/tests/test_loopback.c:70-117 | through the whole stack a client that sends a command the token does not know gets its own lengths and parameters back with acknowledgement 0 |
| EndToEnd.FailEndToEnd | ncmp/mock/mcu_scheduler.c:400-401 | one that sets the fail bit gets them back with acknowledgement 6 |
| Usb.Transport.BulkTransfer | ncmp/daemon/usb_transport.c:166-167 | the scripted foreign call: moves what the script, the request and the stream allow |
| Usb.Transport.BulkExact | ncmp/daemon/usb_transport.c:158-178 | for every script: the result, the bytes moved and the bytes still to come are those of the specification; the buffer holds exactly the bytes moved |
| Usb.Transport.Receive | ncmp/daemon/usb_transport.c:188-219 | for every script: the two-step read returns the frame or the error of its specification |
| Usb.ExactDelivers | ncmp/daemon/usb_transport.c:163-177 | without failing or empty transfers exactly the wanted bytes are delivered, in however many chunks |
| Usb.ExactTells | ncmp/daemon/usb_transport.c:163-178 | for every script: the loop succeeds exactly when no call up to the last wanted byte failed or moved nothing; else the last call, or the lack of one, decides between timeout and error |
| Usb.RecvSound | ncmp/daemon/usb_transport.c:188-219 | for every script: what a successful receive returns is one frame from the front of the stream, no longer than the buffer, and nothing else is consumed |
| Usb.RecvRefuses | ncmp/daemon/usb_transport.c:197-210 | a buffer too small for the fixed part is refused before anything is read, one too small for the frame once its header has been read |
| Usb.ReceivesFrames | ncmp/daemon/usb_transport.c:188-219 | on a stream of frames that fit, `k` receives return the first `k` frames in order and stop at the next boundary, for every error-free chunking |
| Usb.EncodedIsFrame | ncmp/common/ncmp_wire.c:152-175 | every encoded message is such a frame and fits the receive buffer |
| Shm.Create | ncmp/common/ncmp_shm.c:74-105 | for all slot counts, depths and sizes: the buffers of entry `i` of slot `s` are the `i`th pair of that slot's pool, apart from those of all other entries |
| Shm.CreateRing | ncmp/common/ncmp_shm.c:95-104 | the entries of one slot get their buffers, without wrap-around in 64 bits |
| Shm.BuffersDisjoint | ncmp/common/ncmp_shm.c:30-34 | the buffers of any two entries of any slots are disjoint, outside the header and inside the mapping |

## Left out

- tools/tableidxgen.c: files, logging, licence text, argument parsing and the printing of the generated source; only the emitted lookup bodies are modelled.
- Generate.PackAndEmit: offsets above 32767, which the emitted `short` cells cannot hold, are not followed into the lookups.
- Walk.IdxFromString: alias targets that lead back to their own alias are excluded (`Walk.AliasesEnd`), because the emitted function then never returns.
- Scans.ClaimFinds: describes the scan without interference; `Searches.ClaimSkips` is its counterpart in every run.
- Scans.TakeFinds: describes the scan without interference; `Searches.TakeSkips` is its counterpart in every run.
- Scans.MatchFinds: describes the scan without interference; `Searches.MatchSkips` and `SystemSteps.MatchHand` are its counterparts in every run.
- Scans.AstrayIff: describes a match without interference; `Exhibits.AnothersReply` shows a run with a misrouted reply.
- Scans.WaitLasts: describes a wait without interference; `Searches.LooksAsOften` is its counterpart in every run.
- Token.Exec: messages whose lengths wrap when summed in 32 bits are excluded, because the C code then indexes past the payload and has no defined result.
- Device.MockDevice.Step: staged frames with such lengths are excluded for the same reason; `Correlation.SystemNeverStuck` shows that clients never stage one.
- InFlight.RunAccounted: the counter is an unbounded integer; it is proved never to go below zero or above the ceiling.
- Serial.DoneWithinARound: speaks of requests staged in the emulated device, `Turns.TakenWithinARound` of those still POSTED; the thread scheduler and the time a client waits are not modelled.
- Crowds.LeftWaiting: assumes a ceiling no higher than the number of containers, as by default; with a higher one an entry from the number of containers on is taken and given back in between.
- Usb.Transport.Receive: the IN endpoint only; sending over USB, probing, opening and closing devices are foreign calls.
- ncmp/common/ncmp_shm.c: mapping, locks and attaching are left out; only sizes and offsets are modelled.
- ncmp/stdll/ncmp_client.c: IPC, the slot mask and allocation are left out; a client is a producer that enqueues and waits.
- ncmp_ipc.c, conn_thread.c, main.c, ncmp_mutex.c, ncmp_session.c: sockets, signals, thread start-up and thin wrappers, which would add easy members only.
- ncmp_ckr.c, ncmp_specific.c, fx3_dma.c and the PKCS#11 test cases: constant mappings, scaffolding and drivers.
- Null pointers passed for buffers, messages, slots and out-parameters, which the C functions refuse with an error; a null payload or part, which they accept, is modelled.
- C11 memory orders weaker than sequential consistency.
- A thread that stops for ever in the middle of an operation is allowed by the runs, but no claim is made about recovering its entry.
