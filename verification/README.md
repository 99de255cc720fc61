# A model of lservice3: messages between Lua services, and what carries them

lservice3 runs Lua services in separate threads. A service calls another by packing Lua values into bytes, putting a
message into the other's inbox, waking its event loop, and suspending the coroutine that asked until the answer comes
back under its session number. This project models the five parts that have to be right for that to work and proves
what they promise.

**The value serializer** (`src/lua-seri.c`). `LuaValues` is a Lua heap: tables with a border and their entries in any
`lua_next` order; `Doubles` says which number a double stands for and ties the conversions to and from integers to it.
`SeriFormat` is the byte format of every code, `SeriWalk` what the writer emits as a list of items (plain value, first
visit, short reference, extended reference, terminator), and `SeriRead` the reader as a function that is total on
every byte string. `SeriBlocks`, `SeriRefs`, `SeriMarks` and `SeriWriter` are the writer as it works in place: a chain
of 128-byte blocks, an index of tables that moves from an array to two tables at the 33rd object, and tags patched
after they were written. `SeriReader` is the reader's own state. `SeriSimulation` and `SeriReplay` run the reader over
the writer's bytes; `SeriFacts`, `SeriCopy`, `SeriRoundTrip`, `SeriExactly`, `SeriPaths` and `SeriEndToEnd` draw the
conclusions. `SeriCodes` has the format once more in plain numbers, writer and reader apart, and `SeriSamples` whole
messages. The test on extended references is a parameter: `Intended` is the commented-out original at
src/lua-seri.c:703, `AsWritten` the one at src/lua-seri.c:712. Where the notes at CODEX-LUA_SERI.md:99 say the
inverted test concerns only references past `MAX_REFERENCE`, the code refuses every extended reference, and the model
follows the code.

- A graph comes back as the same graph, table identity included, exactly when the test lets its extended references
  through and every short reference uses a slot of the ancestor stack that is the same on both sides
  (`RoundTripExactly`, `PackThenUnpack`). Graphs without tables as keys always use such slots (`PlainKeysRoundTrip`).
- The two stacks differ because the reader lowers its depth around keys, so that a table used as a key takes the slot
  of its owner (`TableKeyMisread`). `SeriFrame`, `SeriSpoil`, `SeriDrift`, `SeriPositions` and `SeriBreak` show that a
  reference through such a slot is never made good by what is read later, whatever that is: `SeriSpoil` counts and
  orders the stores of a table, `SeriDrift` reads on while the sides disagree, `SeriPositions` knows what the slots
  hold, and `SeriExactly` concludes. The graphs are compared under the numbering by first visit.
- Under the test as written extended references are all refused, so a graph comes back exactly when besides it is a
  forest with back links at most 30 tables deep (`AsWrittenReadsForests`, `NoExtExactly`).
- A number key above 1 with a fraction and less than 1 above the border is dropped (`FractionDropped`); nothing else
  is (`RoundTripExactly`).

**The session protocol** (`lua/lservice3.lua`). `SessionTables` holds one service's tables and what each entry point
does to them; `SessionProtocol` is a transition system over any number of services with bounded inboxes;
`SessionService` drives it through the tables. `SessionSteps` proves of its nine steps exactly when each keeps one
invariant, and `SessionRuns` what follows for whole runs: every call is in exactly one of three states (answered,
lost, under way), at most one message or handler carries it, its caller stays suspended in that very call until the
answer arrives, and the branch that discards an answer is taken for calls made outside a coroutine and for no others.
`SessionRest` shows that there is no deadlock: when nothing moves any more, every call still under way is held up by
one that was lost, so if none was lost all are answered. `SessionEffects` tells what each step does from the fields
alone; from that `SessionMail` has that requests are handled in the order in which they were sent, each once, and
`SessionSleep` that a sleeper is woken by its own timer and by nothing else. The invariant needs every session number
to fit into the 32 bits of a message. `SessionWrap` has what happens otherwise, with a run in which a caller is handed
the answer to another call.

**The inbox** (`src/queue.c`, `src/service.c`). `Ring` is the queue called by one thread at a time. `Inbox` makes
every atomic load, atomic store and slot access a step of its own, together with the coalescing signal and the drain:
the ring is a bounded queue of capacity 2^k - 1 under every interleaving, no assertion fails, no slot is overwritten
while it is being read, no wake-up is lost, and each wake-up uses up a signal.

**The hash index** (`src/uthash.h`, `src/registry.c`). `HashChains` has the items with their two sets of links and the
arithmetic of doubling, `HashExpand` the doubling loops, `HashIndex` the table with find, add, delete and sort,
`MergeSort` and `HashSort` the in-place list sort, `HashFsck` the integrity check, `Registry` the client. Every
operation keeps what `HASH_FSCK` checks and more, so that check, which finds every fault it looks for (`Check`), never
fails (`Fsck`); for every hash function and every sequence of operations the registry answers as a finite map would
(`Replay`); the sort is a stable sorted permutation that leaves every bucket chain alone.

**Line framing** (`service/remote.lua`). `Framing` proves that the lines handed on depend on the byte stream and not
on how it was cut into chunks, that they are the lines the client sent with either line end taken off, and that
splitting and joining are inverse.

`Bits` holds bytes, masks and little-endian integers shared by the others.

## Model

| member | source | states |
|---|---|---|
| Bits.AndMask | src/queue.c:53-56 | masking an unsigned number with 2^k - 1 keeps exactly its k low-order bits |
| Bits.IsPow2Test | src/queue.c:5-6 | for positive numbers the test x & (x-1) == 0 accepts the powers of two and nothing else |
| Bits.LowIsRemainder | src/queue.c:53-56 | and-ing with 2^k - 1 is the remainder by 2^k |
| Doubles.ToIntegerTruncates | src/lua-seri.c:302 | for every double of either sign below 2^63 in magnitude the integer is the number the double stands for, truncated toward zero |
| Doubles.OfIntegerExact | src/lua-seri.c:744 | every integer up to 2^53 in magnitude is pushed as the double that stands for it, and comes back from it |
| Doubles.OfIntegerRounds | src/lua-seri.c:744 | every other 64-bit integer is pushed as the nearest number of 53 bits, the even one when there are two |
| Doubles.ValueInjective | src/lua-seri.c:302-303 | two positive normal doubles that stand for the same number are the same |
| SeriFormat.GetIntegerOfBytes | src/lua-seri.c:195-227 | every 64-bit integer written by wb_integer in any of its forms, unsigned dwords included, is read back by get_integer as itself, whatever follows |
| SeriFormat.GetExtendIntegerOfBytes | src/lua-seri.c:642-655 | an array size or object id below 2^31 survives the extended form, whatever follows |
| SeriFormat.GetStringOfBytes | src/lua-seri.c:243-266 | a string below 2^31 bytes comes back unchanged from the short form and from both long forms |
| SeriFormat.GetAtomOfBytes | src/lua-seri.c:722-793 | every non-table value is read back as itself from the tag and bytes written for it, and nothing after them is consumed |
| SeriFormat.BytesConcat | src/lua-seri.c:546-557 | the bytes of two lists of items are the bytes of the first followed by those of the second |
| SeriCodes.IntegerOnWire | src/lua-seri.c:195-227 | each integer has the tag 1, 9, 17, 33 or 49 and its bytes, least significant first, with the boundaries at 0, 255, 65535, 2^31 - 1, -1 and -2^31 |
| SeriCodes.AtomOnWire | src/lua-seri.c:183-266 | nil, false and true are 0, 8 and 16; numbers, pointers and C functions are 65, 2 and 10 with eight bytes; strings have their length in the tag up to 31, behind 20 up to 65535, behind 36 from there |
| SeriCodes.ItemOnWire | src/lua-seri.c:270-557 | a table of size n opens with 5 + 8n up to 30 and with 253 and the size from 31 on, one more if it is referred to; a short reference i is 7 + 8i, an extended one 255 and the object number plus one; a table ends with 0 |
| SeriCodes.AtomIsTaken | src/lua-seri.c:722-793 | for every tag below the table ones and every string of bytes after it, the reader takes exactly the codes listed, for those values, and raises an error on anything else |
| SeriCodes.ExtendedIsTaken | src/lua-seri.c:642-655 | behind an extended tag only the five integer codes are taken, and the high 32 bits are dropped |
| SeriCodes.TableIsTaken | src/lua-seri.c:657-681 | tags 5, 13, .. and 6, 14, .. open a new table of the size in the tag or behind 253 and 254; only the latter kind is registered, under its number |
| SeriCodes.ReferenceIsTaken | src/lua-seri.c:696-720 | tags 7, 15, .. 247 push what the ancestor slot holds, if it is in use, and 255 a registered table, with both tests |
| SeriRead.UnpackOne | src/lua-seri.c:795-804 | on every byte string the reader ends; when it succeeds it has consumed at least one byte, pushed exactly one value, and left the stack below and the depth as they were |
| SeriRead.UnpackTable | src/lua-seri.c:657-694 | reading a table ends on every byte string, whatever array size is announced, and pushes exactly one value |
| SeriRead.UnpackAll | src/lua-seri.c:826-851 | seri_unpack ends in values or an error on every byte string, and reads to the end when it succeeds |
| SeriWalk.FindAncestor | src/lua-seri.c:405-412 | the innermost open table equal to the one searched, if there is one |
| SeriWalk.ShortRef | src/lua-seri.c:397-414 | a short reference is emitted for an open table at depth 1 to 30, so its index is at most 29 and cannot collide with the extended cookie 31 |
| SeriSimulation.EmittedExactly | src/lua-seri.c:294-314 | the hash pass emits an entry exactly when it is in the table and its key is not a number whose integer part lies in 1..array_size |
| SeriCopy.EmittedByValue | src/lua-seri.c:298-306 | told by the number the key stands for: it is not in [1, array_size + 1) |
| SeriCopy.LostIsDropped | src/lua-seri.c:298-306 | an entry is written by neither pass exactly when its key stands for a number above 1 and below array_size + 1 that is not whole |
| SeriSimulation.ReadShort | src/lua-seri.c:715-719 | where the writer emits short reference i, the reader's ancestor slot i holds the table of the same number |
| SeriSimulation.ReadExt | src/lua-seri.c:699-714 | an extended id resolves to the table registered under it under the intended test, and is refused under the test as written |
| SeriReplay.ReplayVisit | src/lua-seri.c:487-544 | unpack_one on the bytes pack_one wrote consumes exactly those bytes whatever follows, pushes the image of the value, numbers new tables as the writer did, and restores depth and ancestor slots; it fails exactly when the test on extended references refuses one of them |
| SeriReplay.ReplayArray | src/lua-seri.c:284-289 | the array part is read back element by element, nil holes included, without being mistaken for the terminator |
| SeriReplay.ReplayPairs | src/lua-seri.c:683-693 | the pairs of the hash part are read back up to the terminator, although the reader lowers its depth around keys |
| SeriFacts.VisitAllCovers | src/lua-seri.c:487-557 | everything reachable is visited: the tables met are closed under the links of their own entries, each numbered once |
| SeriFacts.VisitWithin | src/lua-seri.c:487-557 | nothing unreachable is visited: any closed set holding the starting tables holds all tables met |
| SeriCopy.BuiltIsCopy | src/lua-seri.c:270-314 | array pass and hash pass together store every entry once and nothing else, for any border and any enumeration order, apart from keys that stand for numbers above 1, below border + 1 and not whole |
| SeriCopy.BuiltIsFullCopy | src/lua-seri.c:302-306 | a table comes back whole exactly when it has no such key |
| SeriRoundTrip.PackSucceeds | src/lua-seri.c:540-543 | packing succeeds exactly when no unsupported value is reachable |
| SeriRoundTrip.PlainKeysAgree | src/lua-seri.c:533-537 | when no table is a key, every ancestor slot a short reference uses is the same on both sides, at any depth |
| SeriRoundTrip.Replay | src/lua-seri.c:826-851 | the reader over the whole payload does what the writer did, with object numbers equal to the order of first visit |
| SeriRoundTrip.RoundTrip | src/lua-seri.c:487-557 | under the intended test the values come back in number and order, with the reachable tables numbered one to one and each a copy of its original up to dropped fractional keys; the graph is whole exactly when there are none |
| SeriRoundTrip.PlainKeysRoundTrip | src/lua-seri.c:487-557 | every supported graph with no table key and no dropped key comes back whole |
| SeriRoundTrip.AsWrittenExactly | src/lua-seri.c:707-714 | the reader as written rebuilds the graph if the payload has no extended reference and raises an error if it has one |
| SeriExactly.RoundTripExactly | src/lua-seri.c:657-720 | for every heap that packs without error into fewer than 2^31 bytes, under either test: unpacking gives the graph back exactly when the test lets every extended reference through and every short reference uses a slot in which both ancestor stacks hold the same table; it gives back the whole graph exactly when, besides, no fractional key is dropped |
| SeriExactly.BreakAll | src/lua-seri.c:682-693 | when some short reference uses another slot, the reader raises an error or leaves a table in which an entry of its original is missing or has another value |
| SeriBreak.BreakVisit | src/lua-seri.c:715-719 | reading a value with such a reference in it raises an error, leaves a wrong table, or, when the value is itself that reference, pushes something else |
| SeriPositions.MisreadSlot | src/lua-seri.c:676-678 | what such a slot holds is neither the table the writer meant nor any table of a slot further out that may not be used either |
| SeriDrift.DriftVisit | src/lua-seri.c:657-720 | from any slots whatever, reading the bytes of a value raises an error, leaves a wrong table, or consumes exactly those bytes and pushes the image of the value, or what its slot holds for a short reference |
| SeriSpoil.KeySpoils | src/lua-seri.c:683-693 | of the keys of one table that are misread, the one whose table lies furthest out is stored by none of the pairs |
| SeriSpoil.EntrySpoils | src/lua-seri.c:683-693 | a wrong entry stays wrong through the pairs that follow, or one of their keys is misread and missing |
| SeriSpoil.TooFewStores | src/lua-seri.c:685-687 | a hash part that ends early, at a key misread as nil, leaves an entry out |
| SeriFrame.KeptOne | src/lua-seri.c:657-694 | on every byte string, reading a value changes no older table and no ancestor slot below the depth, and any slot it changes leads above the old top of the stack |
| SeriPaths.NoExtExactly | src/lua-seri.c:473-485 | the writer emits no extended reference exactly when each table has one simple path to it and every link back goes to a table above at depth at most 30 |
| SeriBlocks.BlockChain.Push | src/lua-seri.c:100-120 | pushing any number of bytes appends them to the flat contents, across any number of blocks |
| SeriBlocks.BlockChain.NextAddress | src/lua-seri.c:122-129 | the address returned is where the next byte pushed will land, and nothing written changes |
| SeriBlocks.BlockChain.ChangeMark | src/lua-seri.c:416-420 | patching through an address is a point update of the flat contents, TABLE to TABLE_MARK with the cookie kept |
| SeriBlocks.BlockChain.Seri | src/lua-seri.c:806-824 | the chain copied out is a four-byte length followed by the flat contents |
| SeriRefs.RefIndex.Migrate | src/lua-seri.c:345-364 | the two tables made for the 33rd object hold the same ids, the same addresses and the same cleared addresses as the array |
| SeriRefs.RefIndex.Mark | src/lua-seri.c:339-380 | a new table gets the next number and its tag's address; no other entry and no mark changes, migration included |
| SeriRefs.RefIndex.Lookup | src/lua-seri.c:422-471 | the number of first visit is returned, or zero; the address is handed out the first time only, so no tag is patched twice |
| SeriMarks.MarkPatch | src/lua-seri.c:416-420 | the byte at a table's address is an unmarked table tag until the table is marked, so the assertion holds, and patching it gives the rendering with that one mark more |
| SeriWriter.WriteBlock.WbInteger | src/lua-seri.c:195-227 | appends the bytes of the integer code |
| SeriWriter.WriteBlock.WbString | src/lua-seri.c:243-266 | appends the bytes of the string code |
| SeriWriter.WriteBlock.RefAncestor | src/lua-seri.c:397-414 | appends a short reference exactly when one applies |
| SeriWriter.WriteBlock.RefObject | src/lua-seri.c:473-485 | appends an extended reference exactly when the table was met before, and its tag is then marked, however often it is met |
| SeriWriter.WriteBlock.PutOpen | src/lua-seri.c:270-282 | numbers the table, remembers where its tag is, and appends an unmarked tag with the array size |
| SeriWriter.WriteBlock.PackOne | src/lua-seri.c:487-544 | appends exactly the items of the walk, keeps every mark in step with the extended references written, and restores the stack; it fails exactly when the walk meets an unsupported value |
| SeriWriter.WriteBlock.WbTable | src/lua-seri.c:382-395 | the same for a table met for the first time |
| SeriWriter.WriteBlock.WbTableHash | src/lua-seri.c:294-314 | the same for the pairs of the hash part |
| SeriWriter.SeriPack | src/lua-seri.c:886-905 | the bytes are the length and the payload in which a table's tag is marked exactly when an extended reference leads to it; nothing is returned when an unsupported value is met |
| SeriReader.ReadBlock.Read | src/lua-seri.c:171-181 | takes the next bytes or nothing, with ptr and len always adding up to the length at the start |
| SeriReader.ReadBlock.UnpackOne | src/lua-seri.c:795-804 | the reader's fields change as the reading function says, on every byte string |
| SeriReader.ReadBlock.UnpackTable | src/lua-seri.c:657-694 | the same, through the loops that store array elements and pairs |
| SeriReader.ReadBlock.UnpackRef | src/lua-seri.c:696-720 | the same, for both tests on extended references |
| SeriReader.ReadBlock.UnpackAll | src/lua-seri.c:826-851 | the same, for all values up to the end |
| SeriEndToEnd.SeriUnpack | src/lua-seri.c:826-851 | reads as many bytes as the length in front says, with the outcome of the reading function |
| SeriSamples.PackAtom | src/lua-seri.c:806-824 | the message of one value that is not a table: four bytes of length, least significant first, and the code of the value |
| SeriSamples.UnpackAtom | src/lua-seri.c:826-851 | a message of one tag and what follows is that value, or an error, as the list of codes says |
| SeriSamples.SendAtom | src/lua-seri.c:722-793 | packing and unpacking any value that is not a table gives it back |
| SeriSamples.StringBoundaries | src/lua-seri.c:243-266 | the bytes of a number with eight different ones, and the codes of strings of 0, 31, 32, 65535 and 65536 bytes |
| SeriSamples.SizeBoundaries | src/lua-seri.c:195-227 | the codes of sizes 30, 31, 255, 256, 65535, 65536 and 2^31 - 1 |
| SeriSamples.IntegerBoundaries | src/lua-seri.c:195-227 | the codes of -1, -2^31, 2^31 and -2^31 - 1 |
| SeriSamples.PackTrues | src/lua-seri.c:270-314 | the message of an array of n times true, for every n below 2^30 |
| SeriSamples.PackShared | src/lua-seri.c:473-485 | one empty table passed twice is 6, 0, 255, 9, 1 |
| SeriSamples.UnpackShared | src/lua-seri.c:696-720 | that message gives one table twice under the intended test and an error under the other |
| SeriSamples.PackNested | src/lua-seri.c:382-414 | a table in a table with two short references and a pair: array part before pairs, key before value, references counted from the outermost table |
| SeriSamples.UnpackNested | src/lua-seri.c:657-720 | that message gives the two tables back, with those entries |
| SeriSamples.PairRead | src/lua-seri.c:683-693 | a table of one pair, for any key and value that are not tables: minus zero becomes zero, a NaN key is an error, a nil value leaves no entry |
| SeriEndToEnd.AsWrittenReadsForests | src/lua-seri.c:696-720 | the reader as written rebuilds the graph exactly when it is a forest with shallow back links and no short reference is misread; it raises an error on every other graph whose short references are read right |
| SeriEndToEnd.PackThenUnpack | src/lua-seri.c:826-905 | the writer's bytes given to the reader: the graph comes back exactly when no short reference is misread and, under the test as written, it is such a forest |
| SeriEndToEnd.SharedTableRefused | src/lua-seri.c:712 | one table passed twice is packed and then refused by the reader as written |
| SeriEndToEnd.TableKeyMisread | src/lua-seri.c:682-691 | a table that holds itself under another table packs, uses a slot that differs, and comes back holding the key instead |
| SeriEndToEnd.FractionDropped | src/lua-seri.c:302-306 | a table with the entries 1 and 1.5 and border 1 comes back with the entry 1 alone |
| SessionTables.Sessions.Dispatch | lua/lservice3.lua:376-397 | a request starts a coroutine that owes an answer; an answer resumes and forgets the caller registered under its session, or changes nothing when there is none |
| SessionTables.Sessions.Call | lua/lservice3.lua:265-288 | a request with the next session number goes out and the running coroutine is registered and suspended under it; outside a coroutine nothing is registered |
| SessionTables.Sessions.SendResponse | lua/lservice3.lua:220-232 | an answer is sent exactly when one is owed, to the sender and session of the request, and the coroutine's entries are removed |
| SessionTables.Sessions.Stop | lua/lservice3.lua:199-210 | a handler error ends the coroutine, sends nothing and leaves its entries in place |
| SessionService.Step | lua/lservice3.lua:353-411 | each step of the protocol is one of these operations: after it the tables are those of the next state, and the message sent is the one added to an inbox, unless that is full |
| SessionEffects.SendEffect | lua/lservice3.lua:250-259 | service.send makes the inbox of its target longer by one request under session 0 from the sender with the payload, if fewer than 1023 wait there, and changes nothing else; if not, it changes nothing |
| SessionEffects.CallSendsEffect | lua/lservice3.lua:275-282 | service.call sends a request under its number modulo 2^32 to its target alone, and the call is recorded with its caller, target and payload, and as lost when the inbox is full |
| SessionEffects.CallRegistersEffect | lua/lservice3.lua:284-288 | its running coroutine, if any, is registered under the number and suspended, the number is used up, and no other coroutine or service changes |
| SessionEffects.DispatchRequestEffect | lua/lservice3.lua:380-384 | the request in front starts one new coroutine that runs with it and has its sender and session written down |
| SessionEffects.DispatchResponseEffect | lua/lservice3.lua:386-393 | the answer in front resumes and forgets the coroutine registered under its number, or is dropped when there is none; nothing else changes |
| SessionEffects.RespondEffect | lua/lservice3.lua:220-232 | the handler is over and nothing is written down for it any more; exactly if it owed an answer, one goes to the sender and session of its request, with the payload |
| SessionEffects.HandlerErrorEffect | lua/lservice3.lua:199-210 | the handler is over, nothing is sent, and its entries stay |
| SessionEffects.SleepEffect | lua/lservice3.lua:432-438 | the running coroutine is asleep, nothing runs, and nothing else changes |
| SessionEffects.TimerEffect | lua/lservice3.lua:434-436 | the sleeper whose timer fires runs, and nothing else changes |
| SessionEffects.FullIsRingFull | src/service.c:354 | an inbox refuses a message exactly when the ring of 1024 slots with its waiting messages is full |
| SessionEffects.PushMessage | src/service.c:384-388 | delivery is queue_push_ptr on that ring |
| SessionProtocol.StartInv | lua/lservice3.lua:170-177 | services that have done nothing yet satisfy the invariant |
| SessionSteps.SendKeys | lua/lservice3.lua:250-259 | a message sent under session 0 creates nothing that could be answered and touches no call |
| SessionSteps.SendInv | lua/lservice3.lua:250-259 | sending keeps the invariant, also when the inbox is full |
| SessionSteps.CallSendsInv | lua/lservice3.lua:275-282 | the sending half of a call keeps the invariant if the session number fits into the message, and also if the inbox is full |
| SessionSteps.CallSendsStray | lua/lservice3.lua:275-282 | a call whose number does not fit and whose request gets into the inbox is carried by nothing and settled by nothing, which breaks the invariant |
| SessionSteps.CallRegistersInv | lua/lservice3.lua:284-288 | the registering half keeps the invariant, although the answer may already be in the inbox |
| SessionSteps.DispatchRequestInv | lua/lservice3.lua:380-384 | starting a handler keeps the invariant |
| SessionSteps.RequestKeys | lua/lservice3.lua:380-384 | it passes the call on from the inbox to the new handler, payload included, and touches no other |
| SessionSteps.DispatchResponseInv | lua/lservice3.lua:386-393 | dispatching an answer keeps the invariant |
| SessionSteps.ResponseKeys | lua/lservice3.lua:386-393 | it takes the one call it answers out of the inbox and touches no other |
| SessionSteps.RespondInv | lua/lservice3.lua:220-232 | answering keeps the invariant |
| SessionSteps.RespondKeys | lua/lservice3.lua:220-232 | it passes the call on from the handler to the caller's inbox, with the handler's payload, or takes it away when that is full, and touches no other |
| SessionSteps.RespondLost | lua/lservice3.lua:220-232 | the answer is recorded, and the call is lost exactly when the inbox is full |
| SessionSteps.HandlerErrorInv | lua/lservice3.lua:200-204 | a handler error keeps the invariant |
| SessionSteps.ErrorKeys | lua/lservice3.lua:200-204 | it takes away the one call its handler owed and touches no other |
| SessionSteps.SleepInv | lua/lservice3.lua:432-438 | sleeping keeps the invariant |
| SessionSteps.TimerInv | lua/lservice3.lua:434-436 | waking a sleeper keeps the invariant |
| SessionSteps.QuietPlaces | lua/lservice3.lua:432-438 | a coroutine that starts or stops running without a message, as both do, changes nothing about any call |
| SessionSteps.StepInv | lua/lservice3.lua:353-411 | a step of a service keeps the invariant exactly when it is not a call that gets into an inbox under a number that does not fit into its message |
| SessionSteps.ResponseFinds | lua/lservice3.lua:387-392 | an answer in an inbox belongs to a call made and not yet settled, carries what the handler sent, and finds its caller exactly when the call was made from a coroutine |
| SessionSteps.AnswerPaysDebt | lua/lservice3.lua:221-227 | the answer goes to the service and session that asked |
| SessionRuns.RunInv | lua/lservice3.lua:353-411 | every state of a run in which all numbers fit satisfies the invariant |
| SessionRuns.RunInvExactly | lua/lservice3.lua:353-411 | of all runs, those are the only ones whose states all do |
| SessionRuns.OneTokenPerCall | lua/lservice3.lua:212-232 | in every reachable state a call is carried by at most one thing: its request in an inbox, the handler that owes the answer, or the answer in an inbox |
| SessionRuns.CallsAreConserved | lua/lservice3.lua:265-296 | in every reachable state each call ever made is answered, lost, or under way, and only one of the three |
| SessionRuns.NoStrayTokens | lua/lservice3.lua:212-232 | whatever carries a call was asked for: a request or handler has the payload sent and is at the service called, an answer has the payload its handler gave and is at the caller |
| SessionRuns.CallerWaits | lua/lservice3.lua:284-288 | while a call is under way its caller is registered and suspended in that very call, or just about to register |
| SessionRuns.DiscardedExactly | lua/lservice3.lua:387-392 | the discarding branch is taken for answers to calls made outside a coroutine and for no others; every other answer resumes its caller with the handler's payload |
| SessionRuns.DiscardedRun | lua/lservice3.lua:387-392 | a run of five steps in which a service calls itself from outside any coroutine and discards the answer |
| SessionRuns.ResultsStayInRun | lua/lservice3.lua:265-296 | over a run, what was asked, answered, received or lost is never changed again |
| SessionRuns.DispatchedOnce | lua/lservice3.lua:386-393 | in a run no call's answer is dispatched twice |
| SessionRuns.AnsweredOnce | lua/lservice3.lua:220-232 | in a run no call is answered twice |
| SessionRuns.OnlyTheAnswerResumes | lua/lservice3.lua:288-291 | a coroutine suspended in a call leaves it only by the arrival of that call's answer, which is what the call returns |
| SessionMail.CallsAreNumbered | lua/lservice3.lua:275-285 | in every run the calls of a service are numbered 1, 2, 3 in the order in which it makes them |
| SessionMail.RequestsInOrder | lua/lservice3.lua:376-384 | in every run, the requests for which a service has started coroutines, followed by those in its inbox, are the requests sent to it and let in, in order, each with its sender, number and payload |
| SessionMail.SendsInOrder | lua/lservice3.lua:250-259 | so what one service sends another is handled in order, each message once and with its payload |
| SessionSleep.StepSleepers | lua/lservice3.lua:432-438 | each sleep makes one sleeper more, each timer one fewer, and no other step changes their number |
| SessionSleep.StepStatus | lua/lservice3.lua:432-438 | a sleeper stays asleep through every step but its own timer, which makes it run; a handler that is over stays over |
| SessionSleep.SleepersCounted | lua/lservice3.lua:432-438 | in every state of a run as many coroutines are asleep as have gone to sleep without their timer having fired |
| SessionSleep.WokenByTimer | lua/lservice3.lua:434-436 | in a run a sleeper that is no longer asleep has had its own timer fire, and ran then |
| SessionSleep.OverForGood | lua/lservice3.lua:199-210 | in a run a handler that has returned or failed never runs again |
| SessionRest.HandlerWaits | lua/lservice3.lua:353-411 | when no step is left but calls and sends from outside the coroutines, a call under way is at a handler that is itself suspended in a call without answer |
| SessionRest.OrderedStep | lua/lservice3.lua:212-232 | every step keeps the order of calls: a handler is handed its request before it makes the calls it waits for |
| SessionRest.NoDeadlock | lua/lservice3.lua:265-296 | when no such step is left, a call under way is the first of a chain of calls in which each one's handler waits for the next and the last was lost |
| SessionRest.AllAnsweredAtRest | lua/lservice3.lua:265-296 | a run that comes to rest and has lost no call has answered every call |
| SessionWrap.NumberOnTheWire | lua/lservice3.lua:275-285 | the number in the message is the number registered exactly as long as it is below 2^32; the answer carries the number in the message, and there is none when that is 0 |
| SessionWrap.AnswerResumesAnother | lua/lservice3.lua:387-392 | an answer whose number is that of a later call modulo 2^32 resumes the caller registered under it, with the payload meant for the later call, whose own caller stays suspended |
| SessionWrap.WrongAnswerReached | lua/lservice3.lua:275-293 | a run in which a coroutine suspended in call 1 receives the answer to call 2^32 + 1 while the handler of call 1 is still at work |
| Ring.PositionWraps | src/queue.c:53-56 | for indices up to the size the mask wraps the size to zero and nothing else |
| Ring.FullAndEmpty | src/queue.c:58-79 | the two index tests are true exactly when the ring holds size - 1 values and when it holds none |
| Ring.Queue.PushPtr | src/queue.c:111-121 | appends to a first-in first-out queue, or reports exactly the full one and leaves it |
| Ring.Queue.PopPtr | src/queue.c:123-132 | removes the oldest value, or reports exactly the empty queue |
| Ring.Queue.Length | src/queue.c:134-140 | the number of values held, also when tail has wrapped below head |
| Inbox.StepConserves | src/service.c:384-388 | every step keeps each message sent stored, refused or in flight, once |
| Inbox.StepRefines | src/queue.c:58-86 | every load, store and slot access keeps the invariant and is a step, or no step, of a bounded queue |
| Inbox.RunRefines | src/queue.c:111-132 | under every interleaving of one writer and one reader the ring is a bounded queue of capacity size - 1: what is popped is a prefix of what was pushed, neither assertion fails, and every message is delivered once, queued, or was refused by a full ring |
| Inbox.NothingLeftBehind | src/service.c:384-401 | when all senders have signalled and the consumer sleeps with no signal pending, everything stored has been delivered |
| Inbox.WakesAreSignalled | src/service.c:384-388 | in every run each push, refused or not, has been signalled once or is about to be, and there are no more wake-ups than signals |
| Inbox.WakeNeedsSignal | src/service.c:384-388 | between two wake-ups there is a signal |
| Inbox.LengthIsHonest | src/service.c:390-394 | once queue_length has seen more than zero the pop that follows succeeds |
| Inbox.OpenSlotKept | src/queue.c:73-86 | the writer never stores into a slot between the reader's open and close |
| HashChains.DoublingSplits | src/uthash.h:433-436 | an item of bucket i of b goes to bucket i or i + b when the buckets double |
| HashChains.BucketIsRemainder | src/uthash.h:433-436 | the bucket of an item is the remainder of its hash by the number of buckets |
| HashChains.ShareHas | src/uthash.h:853-873 | a new chain has exactly the items of its old bucket whose hash selects it |
| HashChains.IdealIsCeiling | src/uthash.h:849-851 | shift and mask compute the least chain length that fits all items into the new buckets |
| HashChains.MultCountsIdealChains | src/uthash.h:859-864 | expand_mult is the chain's length counted in ideal chains, rounded up, but one behind on the first item over and when the ideal length is one |
| HashChains.NonIdealCounts | src/uthash.h:859-860 | the number of non-ideal items is the number of places in the chains beyond the ideal length |
| HashExpand.LinkFirst | src/uthash.h:774-779 | an item linked in front of a chain leaves all links of the longer chain right in both directions |
| HashExpand.DoublingPlaces | src/uthash.h:853-873 | each item of bucket i is in bucket i or i + b of the doubled table |
| HashExpand.DoublingCovers | src/uthash.h:853-873 | doubling loses no item, repeats none, and leaves each in the bucket of its hash |
| HashExpand.Redistribute | src/uthash.h:836-873 | the loops build exactly the doubled chains, with links, counts, multipliers and the number of non-ideal items right |
| HashIndex.HashTable.Find | src/uthash.h:156-176 | returns the item with the key if there is one and null otherwise, whatever the hash function |
| HashIndex.FindInBucket | src/uthash.h:748-767 | the walk down a chain finds an item with the hash and key exactly when the chain has one |
| HashIndex.HashTable.MakeTable | src/uthash.h:215-245 | a new table has 32 empty buckets |
| HashIndex.HashTable.AppendToList | src/uthash.h:281-287 | the application-order list grows at its tail, with all links right |
| HashIndex.HashTable.AddToTable | src/uthash.h:340-348 | the item is first in the chain of its hash, and the buckets double exactly when that chain has reached ten times its multiplier and expansion is not inhibited |
| HashIndex.HashTable.Add | src/uthash.h:399-418 | the item becomes last in application order and the only one under its key; all invariants hold, across the making of the table and across doubling; multipliers, ideal length, non-ideal count and inhibition change only when the buckets double, and then follow from the new chains |
| HashIndex.HashTable.ExpandBuckets | src/uthash.h:836-886 | all items are kept, num_buckets stays 2^log2, the ideal length and the non-ideal count are as defined, and two ineffective expansions in a row inhibit further ones |
| HashIndex.HashTable.Unlink | src/uthash.h:464-474 | the list without the item is linked right, with head and tail moved when it was first or last |
| HashIndex.DelInBucket | src/uthash.h:792-805 | the chain without the item is linked right, with head and count adjusted |
| HashIndex.HashTable.Delete | src/uthash.h:453-480 | exactly the item's key goes; all other items keep their order and chains, also when the head, the tail or the last item is deleted, and nothing that steers expansion changes |
| HashIndex.HashTable.SortItems | src/uthash.h:893-975 | the list is relinked in the order of the sort, and no bucket, chain or lookup changes |
| HashFsck.BucketsCountEveryItem | src/uthash.h:526-548 | the bucket counts add up to the number of items in application order |
| HashFsck.Check | src/uthash.h:519-566 | on any table whose forward links are all there the check succeeds exactly when all back links, all bucket counts and the number of items are right |
| HashFsck.Fsck | src/uthash.h:519-566 | no test of the integrity check fails on a table used through its operations, and its walks end |
| MergeSort.SortFromPermutes | src/uthash.h:893-975 | the sort permutes the list whatever the comparison function |
| MergeSort.PassRuns | src/uthash.h:901-965 | one pass turns sorted stable runs of n into sorted stable runs of 2n |
| MergeSort.SortedAndStable | src/uthash.h:890-975 | the result is a permutation, sorted, with ties in their original order |
| HashSort.MergeRuns | src/uthash.h:918-960 | the inner loop relinks two runs into their merge behind what is already output, with prev and next inverse |
| HashSort.OnePass | src/uthash.h:899-965 | one pass relinks the whole list, and makes at most one merge exactly when the run length has reached half the list |
| HashSort.SortList | src/uthash.h:893-975 | the loop ends and leaves a correctly linked list in sorted order with its head and tail |
| Registry.Get | src/registry.c:7-13 | the entry bound to the key, or null |
| Registry.Put | src/registry.c:14-31 | the first binding of a key wins and is returned; a new key is bound to the pointer |
| Registry.Del | src/registry.c:33-42 | the key and no other is unbound; the result is always null |
| Registry.Replay | src/registry.c:7-42 | for every hash function and every sequence of put, get and delete the answers are those of a finite map |
| Registry.FirstBindingLasts | src/registry.c:17-21 | a binding lasts until its own key is deleted |
| Framing.Find | service/remote.lua:13 | the first occurrence of the separator from a position on, if there is one |
| Framing.StringSplit | service/remote.lua:8-22 | the loop ends for every non-empty separator with the pieces of the recursive split |
| Framing.SplitEnds | service/remote.lua:12-21 | the loop ends exactly when the separator is not empty |
| Framing.SplitJoins | service/remote.lua:8-22 | the pieces joined by the separator give the string back |
| Framing.PiecesFree | service/remote.lua:8-22 | no piece contains the separator |
| Framing.SplitUnique | service/remote.lua:8-22 | a list of pieces is the split of its join exactly when each separator is the first one found |
| Framing.LinesAreTheSplit | service/remote.lua:73-85 | the lines are the newline split of the stream with one trailing carriage return removed, and what is kept is the text after the last newline |
| Framing.OneLineMore | service/remote.lua:75-84 | a line that ends in a newline, or in a carriage return and a newline, is handed on without that end and with everything else, whatever follows |
| Framing.LinesOfTyped | service/remote.lua:73-85 | the lines of a stream are the lines the client sent, each with either end, and what is kept is the beginning of the next |
| Framing.Connection.OnRead | service/remote.lua:60-86 | a chunk hands on the lines of buffer and chunk together and keeps the rest; an error or the end of the stream closes the connection and hands on nothing |
| Framing.FrameInParts | service/remote.lua:72-85 | framing a stream is framing its first part and then what was kept together with the second |
| Framing.FramingIgnoresChunks | service/remote.lua:72-85 | lines and kept text depend on the stream, not on where it was cut |
| Framing.ReadAll | service/remote.lua:60-86 | the same for a connection reading chunk after chunk |
| Framing.FirstRead | service/remote.lua:60-86 | the first chunk of a connection, made of one such line and more, hands on the line and the lines of the rest |
| Framing.ReadTyped | service/remote.lua:60-86 | the lines a client sent are handed on one by one, however the stream was cut into chunks |

## Left out

- SeriFormat.GetStringOfBytes: a four-byte string length of 2^31 or more is read as an error, where the C code passes a negative length on.
- SeriWriter.SeriPack: payloads of 2^31 bytes or more are written with an unbounded length, where the C code's int overflows; reading them back is outside the domain of the round trip.
- SeriExactly.RoundTripExactly: the copy is compared under the numbering by first visit; that a misread graph is not the original under some other numbering either is not stated.
- SessionRuns.RunInv: runs in which a call gets into an inbox under a number that does not fit are excluded here and in the theorems that follow; RunInvExactly shows that they all break the invariant, and WrongAnswerReached what can happen in one.
- Framing.StringSplit: the empty separator is excluded, since by SplitEnds there is no result then.
- Inbox.RunRefines: pushes to one ring come one at a time, as the comment in src/queue.h asks; service_send itself takes no lock.
- The `__pairs` path of the writer, which calls arbitrary Lua; light userdata and C functions are eight opaque bytes, and functions with upvalues count as unsupported.
- `lua_tointeger` on a double outside 64 bits gives the minimum integer, as on x86-64, and integers are laid out little-endian.
- Lua stack growth, allocation failure, garbage collection, and freed memory: an entry deleted from the registry is no longer reachable but not marked as freed.
- Object numbers, item counts and bucket counts are unbounded where the C code has 32-bit ints; a NUL in a registry key cannot occur and keys are shorter than 32 characters.
- Message kinds other than request and response, and service.send_message, which passes no pool; messages to services that do not exist; the idle callback, which is covered only as code outside a coroutine.
- The handler of a service is installed before its event loop first runs; service_new, service_stop, quit, and the lookup of services by name would add a counter, I/O and a linear scan.
- The uthash bloom filter, HASH_SELECT, ordered inserts, HASH_REPLACE and the hash functions themselves.
- The int variant of the queue, src/log.c, sockets, dynamic loading, and service/gateway.lua, whose reassembly loop repeats that of service/remote.lua.
