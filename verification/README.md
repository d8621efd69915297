# Silly, modelled and proved

Silly is a server runtime in C: worker, socket and timer threads around a Lua virtual machine, with
codecs for HTTP/2, protobuf, DNS and its own cluster protocol. This project models the parts of it
whose correctness is hardest to see, in the form the code has (objects whose fields change, loops,
in-place updates, interleaved threads), and proves what they are for.

| module | what it models | main result |
|---|---|---|
| TimerWheel | the hierarchical timing wheel | it refines a bag of deadlines: in every run of adds, cancels and ticks every timer fires in its tick, through four cascade levels and 32-bit wrap-around |
| TimerLifecycle | timer nodes, sessions and counters, as interleaved steps | each session ends exactly once, and an assertion can fail exactly for cancels of sessions nobody was given |
| PbChains, PbTable | the protobuf hash table with relative links and relocation | it refines a map over nonzero keys |
| PbVarint | unrolled varint readers and writers, length prefixes in place | the unrolled forms equal the loop and invert each other |
| PbNames | the name table and its cache keyed by address | the cache is invisible |
| BitStrings, HuffmanTable, HuffmanEncode, HuffmanTrie, HuffmanTree, HuffmanDecode | Huffman coding through a byte-wide trie built in a node pool | decoding accepts exactly the encodings and inverts them |
| HpackWire, HpackTable, HpackEncoder | the HPACK encoder with eviction and renumbering | an RFC 7541 decoder stays in step over every run of header blocks |
| WriteList, SocketThread, SocketManager | connections, write lists, dirty set, operations and events | bytes go out in order, no data is stranded, every buffer is freed once |
| SocketPool | slots, versions and ids | an id reaches a slot only between its allocation and its free |
| CommandChannel | double buffer, pipe and flag between threads | no wake-up is lost, operations are processed once and in order |
| ClusterFraming, ClusterQueue | packet reassembly and the growing ring | chunking and interleaving do not matter, up to and including the first error |
| Gc | Lua's incremental collector with barriers | only unreachable objects are freed, in every interleaving with the mutator |
| Jumps | jump lists and the final jump pass of Lua's code generator | where every instruction leads is preserved, and patched tests decide as before |
| LineTable | Lua's compressed line table | every line saved is decoded, over every run of saves and removals with the exact condition |
| DnsNames | validating, writing and reading domain names | reading equals expanding pointers, and inverts writing, compressed or not |

Conventions. A struct whose fields the code updates is a class; lists and tables inside it are
sequences and maps that its methods reassign. Code that several threads execute is a state machine
whose steps are the atomic or locked regions of the code, and the theorems are about every sequence
of enabled steps. System calls return any value in their range. Ghost fields carry what the proofs
need (histories, positions, counts) and never influence the rest. Unsigned arithmetic that wraps is
written out.

Findings. Where the code does not have the property one might expect, the exact condition is stated.

- Growing the protobuf table marks key 0 as present, since its slot is rehashed like any other
  (`PbTable.Table.Resize`); the map it stands for is over the nonzero keys.
- A name of 65536 bytes or more does not fit the length of its entry and is never found again
  (`PbNames.FoundAgain`).
- Looking up id -1 finds the last socket slot while that is free (`SocketPool.Pool.Get`), and an id
  may be handed out again once the slot has been freed 2^32 times (`SocketPool.Pool.Alloc`).
- A session that was not returned but carries its node's present version passes the test in
  `timer_cancel` and can fail the assertion behind it; so can one that names no node of the pool, and
  no other (`TimerLifecycle.CancelFailsExactly`).
- The HPACK encoder confuses fields whose names contain a colon and a space, unless they are too long
  to be looked up (`HpackTable.SafeNames`, `HpackTable.ConfusedRun`); such names are not valid in HTTP.
- Removing the line of an absolute entry leaves the saver without the last line. Two removals in a row
  are always made good by the next save, three need not be (`LineTable.TwoAreSafe`,
  `LineTable.ThreeAreNot`, with the exact condition in `LineTable.RightExactly`); the code generator
  saves a line after every removal.
- A valid name of 127 labels can be read where it was written but not through a compression pointer,
  since labels, pointer and zero have to fit 128 steps (`DnsNames.TooManyLabels`, with the exact
  condition in `DnsNames.CompressedRoundTrip`).
- Compression pointers that lead backward can still form a loop, so the bound of 128 steps is what
  ends the reading of a name (`DnsNames.Endless`).

## Model

| member | source | states |
|---|---|---|
| TimerWheel.FiresExactlyWhenDue | src/timer.c:401-451 | For every sequence of adds, cancels and ticks, a timer that is not cancelled fires exactly once, in the tick in which the time reaches its deadline (in the next tick if it was late when added), and stays scheduled until then. |
| TimerWheel.GoneNeverFires | src/timer.c:401-464 | A timer that has fired, was cancelled or was never added does not fire in any later sequence of adds, cancels and ticks. |
| TimerWheel.DueIsDeadline | src/timer.c:257-283 | A deadline less than 2^31 ticks away is recovered from its 32-bit field, across wrap-around. |
| TimerWheel.AfterFits | src/timer.c:300-318 | For every 32-bit timeout the expire tick is never before the timeout has passed and less than one tick after it, and stands for that deadline when it is filed, unless 2^31 ticks pass in between. |
| TimerWheel.DueIsStable | src/timer.c:435-451 | Advancing the time by one tick changes the deadline of no timer that is still ahead. |
| TimerWheel.LevelIsAhead | src/timer.c:257-283 | The level and slot chosen for a lead lie strictly ahead of the current slot of that level. |
| TimerWheel.CascadeSplit | src/timer.c:417-433 | At a multiple of a level's span, the timers in the current slot of that level are exactly those due within the span; all others are already placed for the next coarser level. |
| TimerWheel.CascadeOne | src/timer.c:417-433 | The assertion in the cascade holds: the expiry of every timer taken from a slot agrees with the current time above the level's bits, in 32-bit arithmetic. |
| TimerWheel.TickRefines | src/timer.c:435-451 | Expiring, advancing, cascading and expiring again is one tick of the bag of deadlines: the same timers fire and the same deadlines remain. |
| TimerWheel.Wheel.constructor | src/timer.c:550-567 | An empty wheel stands for the empty bag at the start time. |
| TimerWheel.Wheel.Link | src/timer.c:238-246 | A timer goes to the front of one slot list and nowhere else. |
| TimerWheel.Wheel.Take | src/timer.c:401-433 | Detaching a slot takes out exactly the timers filed there. |
| TimerWheel.Wheel.Unlink | src/timer.c:248-255 | A cancelled timer leaves the list it is in, the others keep their order, and the bag loses its deadline and nothing else. |
| TimerWheel.WithoutJoins | src/timer.c:248-255 | Unlinking a timer joins what is in front of it and what is behind it. |
| TimerWheel.Wheel.SlotFor | src/timer.c:257-283 | The slot computed from the 32-bit lead is one from which the timer will come up at its deadline. |
| TimerWheel.Wheel.AddNode | src/timer.c:257-283 | Adding a timer adds its deadline to the bag and keeps every placement right. |
| TimerWheel.Wheel.ExpireTimer | src/timer.c:401-415 | Exactly the timers due by now leave the wheel, each once, and the assertion in the loop holds: none of them lies in the future, in 32-bit arithmetic; the current root slot is empty afterwards. |
| TimerWheel.Wheel.CascadeTimer | src/timer.c:417-433 | Refiling the current slot of a level places all its timers in finer slots and loses none. |
| TimerWheel.Wheel.Advance | src/timer.c:435-451 | Moving to the next tick with all needed cascades keeps every timer and every deadline, through all four levels and 32-bit wrap-around. |
| TimerWheel.Wheel.UpdateTimer | src/timer.c:435-451 | One tick of the wheel is one tick of the bag of deadlines: it fires exactly the timers that are due, each once. |
| TimerWheel.Wheel.Run | src/timer.c:401-464 | A run of the wheel through any adds, cancels and ticks goes as the bag of deadlines does, and every timer fires in exactly the ticks the bag says. |
| TimerLifecycle.AssertsNeverFail | src/timer.c:300-540 | In every reachable state, as long as cancels are for sessions that were returned, the assertions on node states and on tick time hold: a node taken from the pool is free, a session names a node of the pool, an added node is being added, a cancelled one is ticking, and tick time matches the tick count modulo 2^32. |
| TimerLifecycle.ClockKeeps | src/timer.c:501-540 | Tick time stays the tick count times the resolution modulo 2^32, counting the ticks still to be made. |
| TimerLifecycle.AdvanceCatchesUp | src/timer.c:501-540 | An update brings the tick time to the tick the clock is in, and makes as many ticks as that takes. |
| TimerLifecycle.CountsKeep | src/timer.c:300-318 | Scheduled is pending plus fired plus cancelled, up to workers between the two counters; pending counts exactly the live timers, those about to be created and the cancels not yet counted. |
| TimerLifecycle.NodesKeep | src/timer.c:129-216 | Every node is in exactly one of free list, a worker's hand, queued add, wheel, and chain of freed nodes, in the state that goes with it, and its sessions issued, ended and returned are exactly those of its versions so far. |
| TimerLifecycle.QueueKeeps | src/timer.c:475-499 | A cancel that still matters always comes behind the add of its node, and a node is added by one command only. |
| TimerLifecycle.StepKeeps | src/timer.c:129-540 | Every atomic step of workers and timer thread keeps the invariant, and no assertion of the code fails in it, as long as cancels are for sessions that were returned. |
| TimerLifecycle.RunKeeps | src/timer.c:129-540 | Over every interleaving in which cancels are for sessions returned by then, each session handed out is live or has ended exactly once, the counters add up, and between updates tick time agrees with the tick count. |
| TimerLifecycle.StaleCancel | src/timer.c:453-464 | A cancel of a session that has ended changes nothing, however often it is repeated. |
| TimerLifecycle.LiveCancel | src/timer.c:453-464 | Processing the cancel of a session that has not ended ends it: the node leaves the wheel, its version goes up and the cancel is counted. |
| TimerLifecycle.AddTakesEffect | src/timer.c:466-473 | Processing the add of a node puts its session, already returned and live, into the wheel and ends none. |
| TimerLifecycle.RunAccounts | src/timer.c:300-540 | Over every interleaving the sessions that end are exactly those fired and those cancelled, and each is counted as what it was. |
| TimerLifecycle.EndsOnce | src/timer.c:352-540 | Over every interleaving a session is fired or cancelled at most once in all: one cancelled before it fires never fires. |
| TimerLifecycle.AtRest | src/timer.c:501-540 | Between updates, with no command waiting, every session returned is in the wheel or has ended once. |
| TimerLifecycle.CanStart | src/timer.c:300-318 | From every reachable state a timer can be started: it gets a session never issued before, live, with its add as the last command written. |
| TimerLifecycle.CancelFailsExactly | src/timer.c:320-464 | For every session anybody may come up with: cancelling it now can lead to a failing assertion, all other cancels being for returned sessions, exactly if it names no node of the pool or carries its node's present version without having been returned. |
| TimerLifecycle.FailingRun | src/timer.c:320-464 | The run that fails: the version test, the timer thread finishing what it has, the command, the next update, the exchange of the buffers, and the cancel finds its node not ticking. |
| TimerLifecycle.Settles | src/timer.c:501-540 | Left alone, the timer thread reaches a rest with no command waiting, and on the way leaves alone every node that is neither in the wheel nor waiting to be added. |
| TimerLifecycle.InitialInv | src/timer.c:550-567 | The invariant holds at the start, whatever the clock shows, with the tick time in the clock's tick. |
| PbTable.Table.Get | luaclib-src/pb.h:926-937 | A nonzero key is found, at its slot, exactly if it was inserted; key 0 is reported exactly if it is marked present. |
| PbTable.Table.Walk | luaclib-src/pb.h:926-937 | Following relative links from the main position ends and finds the key exactly if it is in the table. |
| PbTable.Table.FindFree | luaclib-src/pb.h:872-901 | Scanning down from the last free slot finds a free slot, or shows that all but slot 0 are taken. |
| PbTable.Table.Predecessor | luaclib-src/pb.h:872-901 | The walk from the occupant's own main position finds the slot that links to it. |
| PbTable.InsertMain | luaclib-src/pb.h:872-901 | Taking a free main position keeps all chains and adds just the new key. |
| PbTable.InsertSecond | luaclib-src/pb.h:872-901 | Linking a colliding key in behind its main position keeps all chains and adds just the new key. |
| PbTable.InsertDisplacing | luaclib-src/pb.h:872-901 | Moving a misplaced occupant to the free slot and taking its place keeps all chains, moves no other key and adds just the new key. |
| PbTable.Table.Relocate | luaclib-src/pb.h:872-901 | The relocation of the occupant, link by link, does what moving it means. |
| PbTable.Table.Append | luaclib-src/pb.h:872-901 | The insertion behind the main position, link by link, does what chaining it means. |
| PbTable.Table.TryNewKey | luaclib-src/pb.h:872-901 | With a free slot the map gains the key with value 0 and nothing else; without one nothing changes and the table is full up to slot 0. |
| PbTable.Table.Adopt | luaclib-src/pb.h:903-924 | Rehashing one entry never finds the new table full, and adds its key with its value. |
| PbTable.Table.Rehash | luaclib-src/pb.h:903-924 | The rehashed table stands for the same map; key 0 is marked present whenever the old table had any slots. |
| PbTable.Table.Resize | luaclib-src/pb.h:903-924 | Growing keeps the map and reaches the size asked for without a nested resize, or fails for want of memory or at the largest size and changes nothing. |
| PbTable.Table.NewKey | luaclib-src/pb.h:872-901 | A new key is added with value 0, through any number of collisions and growths, or nothing changes. |
| PbTable.Table.Set | luaclib-src/pb.h:939-944 | The table refines a map over nonzero keys: setting returns the slot of the key, adds it only if absent, and keeps every other key and value; what happens to key 0 is stated exactly. |
| Gc.ReachableByPath | deps/lua/lgc.c:727-746 | The reachability used by the collector's contracts is the existence of a path of references from a root. |
| Gc.Collector.ReallyMarkObject | deps/lua/lgc.c:339-372 | Marking a white object keeps the marking invariant and marks only what is reachable from it. |
| Gc.Collector.PropagateMark | deps/lua/lgc.c:727-740 | Traversing a gray object keeps the invariant that no black object points to a white one and every gray object is in a gray list once. |
| Gc.Collector.AtomicStep | deps/lua/lgc.c:1543-1581 | After the atomic step every object is black or of the old white, the black ones hold the roots and are closed under references, and nothing beyond the reachable and the already marked is black. |
| Gc.Collector.SweepOne | deps/lua/lgc.c:892-909 | Sweeping one object frees it only if dead, and leaves the rest of the heap as it is. |
| Gc.Collector.SweepList | deps/lua/lgc.c:892-909 | Sweeping a number of objects frees only dead ones and finishes the list when the number covers it. |
| Gc.Collector.EnterSweep | deps/lua/lgc.c:1504-1509 | Starting the sweep frees only dead objects and leaves the sweep pointer where new objects do not disturb it. |
| Gc.Collector.RestartCollection | deps/lua/lgc.c:440-447 | A new cycle starts with the roots marked and nothing marked that is not reachable. |
| Gc.Collector.SingleStep | deps/lua/lgc.c:1617-1686 | Whatever the state of the collector, one step frees only objects that cannot be reached, keeps all others as they are, and makes its progress: the next gray object is traversed, twenty objects are swept, or the next phase is entered. |
| Gc.Collector.BarrierForward | deps/lua/lgc.c:246-261 | After a store into a black object the forward barrier restores the invariant: while marking the stored object is marked, while sweeping the black one becomes white. |
| Gc.Collector.BarrierBack | deps/lua/lgc.c:268-279 | After a store into a black object the backward barrier restores the invariant: the object is gray again and to be visited in the atomic step. |
| Gc.Collector.Write | deps/lua/lgc.h:17-29 | Every store of the mutator, followed by its barrier, keeps the collector's invariant in every phase; colours change exactly where a black object now holds a white one. |
| Gc.Collector.WriteStack | deps/lua/lgc.h:17-29 | Stores to a thread's stack need no barrier. |
| Gc.Collector.SetRoots | deps/lua/lgc.c:440-447 | Changing registry, metatables or running thread to live objects keeps the invariant. |
| Gc.Collector.NewObject | deps/lua/lgc.c:297-306 | A new object is of the current white, is linked in front of the sweep, and disturbs no phase. |
| Gc.Collector.FullInc | deps/lua/lgc.c:1770-1778 | A full collection keeps exactly the reachable objects, with their references. |
| Gc.DeadIsUnreachable | deps/lua/lgc.c:892-909 | Whatever the sweep may free cannot be reached. |
| Gc.FreeKeepsReachable | deps/lua/lgc.c:892-909 | Freeing dead objects changes reachability for no object. |
| HuffmanTable.TableIsCanonical | luaclib-src/http2_table.h:69-345 | Every entry of the code table is the canonical code for its length: codes of a length are consecutive, in the order of their symbols' ranks. |
| HuffmanTable.PrefixFree | luaclib-src/http2_table.h:69-345 | No code is the beginning of another. |
| HuffmanTable.NotAllOnes | luaclib-src/http2_table.h:69-345 | No code is all ones, so padding never looks like a symbol. |
| HuffmanEncode.HuffmanLen | luaclib-src/lhttp.c:117-124 | The computed length is that of every encoding of the string. |
| HuffmanEncode.PutCode | luaclib-src/lhttp.c:126-160 | Packing one code into the output appends exactly its bits. |
| HuffmanEncode.HuffmanEncode | luaclib-src/lhttp.c:126-160 | The output, bit by bit, is the codes of the string followed by ones up to the byte boundary. |
| HuffmanEncode.EncodingIsUnique | luaclib-src/lhttp.c:126-160 | A string has one encoding. |
| HpackWire.DecodingIsUnique | luaclib-src/lhttp.c:162-209 | A byte string encodes at most one string. |
| HuffmanTree.Tree.Alloc | luaclib-src/lhttp.c:70-83 | Taking a node appends it to the pool; the pool moves exactly when it is used up. |
| HuffmanTree.Tree.Descend | luaclib-src/lhttp.c:96-107 | Walking down the whole bytes of a code, with inner nodes added where missing, ends at the node its last byte belongs to, and the pool does not move. |
| HuffmanTree.Tree.Fill | luaclib-src/lhttp.c:108-115 | Linking the leaf under every byte that completes the code overwrites nothing and files the symbol. |
| HuffmanTree.Tree.AddNode | luaclib-src/lhttp.c:85-115 | Filing a symbol keeps every other symbol filed and every child pointing where its path says. |
| HuffmanTree.CreateTree | luaclib-src/lhttp.c:223-238 | The finished trie represents the whole code table, in a pool of 270 nodes that is never moved. |
| HuffmanTrie.InnerCount | luaclib-src/lhttp.c:223-238 | The codes have at most 15 inner nodes including the root, which is why the pool is large enough. |
| HuffmanTrie.EndBlock | luaclib-src/lhttp.c:108-115 | The children to fill are exactly the bytes that begin with the rest of the code. |
| HuffmanDecode.ChildTells | luaclib-src/lhttp.c:162-209 | Where the bits read agree with a code, the trie leads to its leaf or to the inner node on its path. |
| HuffmanDecode.Decode | luaclib-src/lhttp.c:162-209 | Decoding succeeds exactly on the byte strings that are the encoding of some string, padding included, and then returns that string. |
| HuffmanDecode.DecodeLast | luaclib-src/lhttp.c:192-209 | The bits after the last whole byte are symbols that still fit and then at most seven ones, or the input is refused. |
| HuffmanDecode.RoundTrip | luaclib-src/lhttp.c:126-209 | Decoding the encoding of any string gives the string back. |
| HpackWire.WriteVarint | luaclib-src/lhttp.c:262-277 | The prefix integer written is the one section 5.1 of RFC 7541 describes. |
| HpackWire.ReadPrefixInt | luaclib-src/lhttp.c:262-277 | A decoder reads back the integer and what follows it, for every prefix in use. |
| HpackWire.WriteLiteral | luaclib-src/lhttp.c:298-308 | A string literal is written Huffman-coded exactly if that is shorter. |
| HpackWire.ReadWritten | luaclib-src/lhttp.c:298-308 | A decoder of section 5.2 of RFC 7541 reads back the string and what follows it. |
| HpackWire.ReadWire | luaclib-src/lhttp.c:293-331 | A decoder of section 6 of RFC 7541 reads back every field representation the encoder writes. |
| HpackTable.KeyIsInjective | luaclib-src/lhttp.c:333-342 | Fields whose names do not contain the separator have the same lookup key only if they are the same. |
| HpackTable.SafeNames | luaclib-src/lhttp.c:429-479 | A field of a given name is read back after every run of blocks with safe names under every limit exactly if the name does not contain the separator or is too long to be looked up with a value. |
| HpackTable.ConfusedRun | luaclib-src/lhttp.c:429-548 | From empty tables, two header blocks whose fields share a key and a size come out as the first field twice. |
| HpackTable.EvictInStep | luaclib-src/lhttp.c:376-406 | Evicting entries older than the oldest one used in the block leaves the live entries the newest of the decoder's table. |
| HpackTable.AddInStep | luaclib-src/lhttp.c:408-427 | Adding an entry, or failing to, keeps the live entries the newest of the decoder's table and both within the limit. |
| HpackTable.FieldInStep | luaclib-src/lhttp.c:429-479 | Whatever representation is chosen for a field, a decoder of section 4.4 of RFC 7541 in step with the encoder reads that very field and stays in step. |
| HpackTable.FieldsInStep | luaclib-src/lhttp.c:489-548 | The bytes of a header block decode to the fields of the block. |
| HpackTable.RunInStep | luaclib-src/lhttp.c:489-548 | Over every run of header blocks under a fixed limit, with names free of the separator or too long to be looked up, the decoder sees exactly the fields packed, and the encoder's live entries are the newest of its table, in order and within the limit. |
| HpackEncoder.CreateStaticTable | luaclib-src/lhttp.c:794-834 | The static lookup table finds every name, under the number of its first entry, and every name with value, and nothing under a wrong number. |
| HpackEncoder.TableIsAppendixA | luaclib-src/http2_table.h:5-67 | The encoder's static table is, number by number, that of appendix A of RFC 7541, which a decoder uses. |
| HpackEncoder.Encoder.constructor | luaclib-src/lhttp.c:246-260 | A new encoder has no live entries. |
| HpackEncoder.Encoder.EvictOne | luaclib-src/lhttp.c:381-401 | Evicting takes off the oldest entry, its key and its size. |
| HpackEncoder.Encoder.Prune | luaclib-src/lhttp.c:344-374 | Renumbering the entries from one changes neither the live entries nor which of them are in use. |
| HpackEncoder.Encoder.TryEvict | luaclib-src/lhttp.c:376-406 | Eviction frees exactly the entries not used in this block, and only when space runs short; the size stays the sum of the entries; numbers no longer used do not pile up. |
| HpackEncoder.Encoder.AddToTable | luaclib-src/lhttp.c:408-427 | Adding to the numbered table is adding to the list of live entries. |
| HpackEncoder.Encoder.DynamicId | luaclib-src/lhttp.c:279-284 | The index sent for an entry is its place in the decoder's address space, newest first behind the static table. |
| HpackEncoder.Encoder.PackField | luaclib-src/lhttp.c:429-479 | The bytes and the new table are those of the abstract encoder, for every field and every numbering of the entries. |
| HpackEncoder.Encoder.Pack | luaclib-src/lhttp.c:489-548 | A block packed field by field is the block of the abstract encoder. |
| WriteList.Gather | src/socket.c:1118-1139 | The pieces handed to writev are the unsent bytes from the front, at most 64 pieces, all of them if the list is no longer. |
| WriteList.Consume | src/socket.c:1147-1162 | Taking written bytes off leaves exactly the rest unsent and frees, in order, the buffers sent completely. |
| SocketThread.NoStranded | src/socket.c:1177-1209 | With the dirty set empty, every connected socket with data waiting is polled for writing. |
| SocketThread.PushSend | src/socket.c:1614-1640 | A queued send counts at once, and its buffer is accounted for. |
| SocketThread.PopSend | src/socket.c:1642-1661 | A send that reaches its connection extends its stream by the payload, in order, and leaves the connection marked unless it is still connecting. |
| SocketThread.PopConnect | src/socket.c:1456-1494 | A connect that succeeds, is in progress or fails leaves the socket connected, polled for writing or free. |
| SocketThread.Sent | src/socket.c:1118-1175 | Written bytes followed by unsent bytes stay the payloads in push order, the byte count goes down by what was written, and freed buffers leave the list for good. |
| SocketManager.FreedOnce | src/socket.c:396-451 | A buffer handed over once is at any time in exactly one of the queue, a write list and the freed ones. |
| SocketManager.WrittenInOrder | src/socket.c:1118-1175 | What a live connection has written is the beginning of what it was given, the rest is its write list, and the byte count is the unsent bytes plus those in queued sends, modulo 2^32. |
| SocketManager.Manager.constructor | src/socket.c:474-495 | All slots are free at the start and nothing is queued. |
| SocketManager.Manager.FreeSocket | src/socket.c:766-772 | Freeing a slot frees its buffers, resets it and gives it the next version. |
| SocketManager.Manager.ZombineSocket | src/socket.c:774-786 | A failed connection drops its list and its events, and is freed if it was waiting to be closed. |
| SocketManager.Manager.DrainTcp | src/socket.c:1118-1175 | For every result of writev exactly the bytes it took go out, from the front, and leave the list and the count; the write event is on exactly if something is left; the connection is freed exactly if all its data went out and it was waiting to be closed, and otherwise keeps its id. |
| SocketManager.Manager.TryWrite | src/socket.c:1118-1175 | The same for every live TCP connection, whose list is in order by the invariant. |
| SocketManager.Writev | src/socket.c:915-955 | The kernel takes some of the first 64 pieces, nothing, or reports an error. |
| SocketManager.Manager.Take | src/socket.c:1147-1175 | The bytes taken off list and count are the ones written, and the write event stays on exactly if some are left. |
| SocketManager.Manager.FlushDirty | src/socket.c:1190-1209 | Flushing empties the dirty set, touches no slot outside it and strands no data; unless a write fails, no connection is lost but those waiting to be closed. |
| SocketManager.Manager.FlushOne | src/socket.c:1195-1209 | A slot with data is written; a failing write kills the connection, or frees it if it was waiting to be closed; a slot that is free, dead, empty or not TCP stays as it is. |
| SocketManager.Manager.OpTcpConnect | src/socket.c:1456-1494 | Its assertion on the socket state is its precondition and holds wherever it is called; the socket is freed when refused or not taken by the poller, up, or polled for writing while in progress. |
| SocketManager.Manager.OpClose | src/socket.c:1591-1612 | A socket with nothing to send is freed, any other waits for its data to go out and reads no more. |
| SocketManager.Manager.OpTcpSend | src/socket.c:1642-1661 | The payload joins the stream and the list, a connected socket is marked, and a full dirty set is flushed without losing a connection unless a write fails. |
| SocketManager.Manager.RefuseSend | src/socket.c:1642-1661 | A send to something that is not a TCP connection frees its buffer and takes its bytes off the count. |
| SocketManager.Manager.DropOp | src/socket.c:1757-1768 | An operation for a socket that is gone is dropped, and the buffer of a send is freed once. |
| SocketManager.Manager.ProcessOne | src/socket.c:1740-1805 | The next operation is processed once: a send reaches the stream of the connection it names or has its buffer freed, and nobody is lost over it unless a write fails; a connect, close or read request takes effect on its slot or finds it gone. |
| SocketManager.Manager.OpProcess | src/socket.c:1740-1805 | Exactly the operations queued at the start are processed, in order, each after the calls of workers that precede it and with exactly their effect; afterwards the dirty set is empty and no data is stranded. |
| SocketManager.Manager.Workers | src/socket.c:1562-1640 | Any sequence of calls by workers has its effect on slots and collected operations, one by one. |
| SocketManager.Manager.TcpSend | src/socket.c:1614-1640 | A buffer handed over is queued and counted, or freed here if the socket is gone or the data empty. |
| SocketManager.Manager.CloseSocket | src/socket.c:1562-1589 | A close is queued, refused for a socket gone or closing, or done at once for a dead one. |
| SocketManager.Manager.TcpConnect | src/socket.c:1415-1454 | A free slot becomes a socket waiting for its connect, which is queued behind everything else. |
| SocketManager.Manager.SetReadEnable | src/socket.c:1087-1100 | The request is queued exactly for a live socket. |
| SocketManager.Manager.Accept | src/socket.c:809-849 | An accepted connection starts polled, with an empty stream and nothing of an earlier socket; a slot the poller does not take is freed again. |
| SocketManager.Manager.CheckConnected | src/socket.c:896-913 | A connect that completes keeps the write event exactly if data is waiting; one that fails frees the socket. |
| SocketManager.Manager.Event | src/socket.c:1842-1919 | A connect completes or fails; a connection is freed exactly if its data is out, or it failed, and it was waiting to be closed; a read, write or pending error kills it unless there is more to read; otherwise it keeps its id and reads on until the end of the stream; no event touches another socket or leaves data stranded. |
| SocketManager.Manager.Poll | src/socket.c:1842-1919 | A whole round processes the queued operations in order and then every event, arrivals among them, with the calls of workers before each, and each has exactly its effect; no data is stranded and every invariant of slots, queue and buffers is in place. |
| SocketPool.HandedOut | src/socket.c:497-518 | A slot handed out shows a version it had before exactly once its version has wrapped. |
| SocketPool.Pool.constructor | src/socket.c:474-495 | All slots are free, linked in order. |
| SocketPool.Pool.Alloc | src/socket.c:497-518 | The slot free longest is handed out under an id never used before, exactly until its 32-bit version wraps; with none free it fails. |
| SocketPool.Pool.Free | src/socket.c:520-529 | The slot goes to the end of the free list, its id becomes invalid and its version goes up. |
| SocketPool.Pool.Get | src/socket.c:531-538 | An id is found exactly while it is live, and then at its own slot; the one exception is -1, which finds the last slot while that is free. |
| CommandChannel.Array.Grow | src/array.h:25-36 | Growing keeps the contents and at most doubles beyond what is needed. |
| CommandChannel.Array.Write | src/array.h:25-36 | Writing appends the bytes, in place if they fit. |
| CommandChannel.StepKeeps | src/trigger.h:54-90 | Every atomic step of any number of producers and the consumer keeps the invariant: one wake-up stands for a non-empty buffer, and it is in exactly one place. |
| CommandChannel.RunKeeps | src/flipbuf.h:30-52 | Over every interleaving at most one byte is in the pipe, a consumer that saw the flag finds it there, and operations are processed once each in push order. |
| CommandChannel.Behind | src/socket.c:1072-1085 | A buffered operation always has a fire pending, a byte in the pipe or a flip under way behind it. |
| CommandChannel.SlotsApart | src/flipbuf.h:43-52 | Writers never touch the slot being read, and the reader never the slot being written. |
| CommandChannel.RankDrops | src/trigger.h:72-90 | Every step but a push brings the channel closer to being drained. |
| CommandChannel.StepAhead | src/trigger.h:72-90 | As long as something pushed is not processed, a step other than a push can be taken. |
| CommandChannel.EveryRunDrains | src/socket.c:1740-1757 | No wake-up is lost: without further pushes every run ends within a bound known at its start, and one that cannot go on has processed everything pushed. |
| CommandChannel.Drains | src/socket.c:1740-1757 | From every reachable state there is a run without pushes after which everything pushed so far is processed. |
| CommandChannel.InitialInv | src/flipbuf.h:15-21 | The invariant holds at the start, for any number of producers. |
| ClusterFraming.ParseSplit | luaclib-src/lcluster.c:219-300 | A stream may be cut anywhere: parsing the first part and going on with the rest is parsing the whole. |
| ClusterFraming.ChunkingDoesNotMatter | luaclib-src/lcluster.c:282-300 | Parsing any chunking of a stream gives the packets, the remainder and the error of the whole stream. |
| ClusterFraming.RestIsPartial | luaclib-src/lcluster.c:190-217 | What is left over is always the valid start of one incomplete packet. |
| ClusterFraming.ParseMeans | luaclib-src/lcluster.c:190-280 | What parsing means, apart from the parser: the stream is one frame for each packet, every packet is a complete response or request within the hard limit, and the parse stops with the hard-limit error exactly if the next length exceeds it, with the size error exactly if the next packet is too short, and otherwise exactly where more bytes are needed. |
| ClusterFraming.RestFits | luaclib-src/lcluster.c:190-280 | Never more than one packet within the hard limit and its length is held back. |
| ClusterFraming.FourBytes | luaclib-src/lcluster.c:226-250 | The length field is four bytes, the lowest first. |
| ClusterFraming.BodyRoundTrip | luaclib-src/lcluster.c:348-393 | The body of a request or response is popped with the session, command, trace id and payload it was made from. |
| ClusterFraming.Layout | luaclib-src/lcluster.c:410-479 | Where session, command, trace id and payload lie in a request, and session, its top bit and payload in a response. |
| ClusterFraming.PackIsFrame | luaclib-src/lcluster.c:395-479 | A message is packed exactly if its body is within the hard limit, and then as one frame. |
| ClusterFraming.MessageRoundTrip | luaclib-src/lcluster.c:410-479 | A packed request or response within the limit arrives as one packet that unpacks to it, whatever follows in the stream, and what follows is parsed as on its own, its error included. |
| ClusterQueue.NetPacket.GetIncomplete | luaclib-src/lcluster.c:118-134 | The partial packet of a connection is taken out of its bucket and no other is touched. |
| ClusterQueue.NetPacket.PutIncomplete | luaclib-src/lcluster.c:136-147 | A partial packet goes into the bucket of its connection. |
| ClusterQueue.NetPacket.ExpandQueue | luaclib-src/lcluster.c:149-166 | The packets move to a larger ring in their order. |
| ClusterQueue.NetPacket.PushComplete | luaclib-src/lcluster.c:168-188 | A packet goes to the end of the queue, around the end of the ring and through growth. |
| ClusterQueue.NetPacket.PopPacket | luaclib-src/lcluster.c:324-337 | Packets come out in the order they went in. |
| ClusterQueue.Feed | luaclib-src/lcluster.c:219-280 | The bytes at hand complete one packet, go wrong, or extend the partial one, exactly as the bytes of the stream do, and something is always taken in. |
| ClusterQueue.NetPacket.PushOnce | luaclib-src/lcluster.c:219-280 | One step takes in bytes up to the end of one packet, delivers it or reports its error, and leaves other connections alone. |
| ClusterQueue.NetPacket.Push | luaclib-src/lcluster.c:282-300 | A chunk delivers exactly the packets its connection's stream completes with it, reports the stream's error, holds back no more than one packet within the hard limit, and terminates. |
| ClusterQueue.NetPacket.PushAll | luaclib-src/lcluster.c:282-300 | Any interleaving of chunks from many connections delivers what the streams, taken one by one, say, and reports every push's error. |
| ClusterQueue.EachStreamIsItsOwn | luaclib-src/lcluster.c:118-300 | However connections interleave and chunks are cut, each connection gets the packets of its own whole stream, in order and error or not; with no error in the stream exactly those, and what is held back is its rest. |
| ClusterQueue.FirstError | luaclib-src/lcluster.c:219-300 | The push with which a connection's stream first goes wrong leaves the connection with exactly the packets before the error, reports the error of the whole stream and holds nothing back; a push that keeps the stream sound reports none. |
| ClusterQueue.NoErrorBefore | luaclib-src/lcluster.c:219-300 | As long as the stream of a connection is sound, none of its pushes reports an error, whatever the streams of others do. |
| LineTable.FuncState.SaveLineInfo | deps/lua/lcode.c:331-346 | Whatever the saver remembers, the table encodes the lines before and one more, which is the line given or, for a relative entry, as far from the line before as the given one is from the line remembered; absolute entries are never more than 128 instructions apart. |
| LineTable.FuncState.RemoveLast | deps/lua/lcode.c:355-377 | The table encodes the lines without the last one, with no condition on what was removed before. |
| LineTable.FuncState.FixLine | deps/lua/lcode.c:1868-1871 | When the saver remembers the last line, the last instruction gets the new line and all others keep theirs. |
| LineTable.SavesExactly | deps/lua/lcode.c:331-346 | The next line saved is encoded exactly if the saver remembers the line before, an absolute entry is due, or the difference from the line remembered does not fit. |
| LineTable.OneReading | deps/lua/ldebug.c:62-97 | A table is a compressed form of one list of lines only. |
| LineTable.RightExactly | deps/lua/lcode.c:331-377 | A run of saves and removals keeps the table encoding the lines meant at every point exactly if at every save the saver remembers the line before or writes an absolute entry. |
| LineTable.TwoAreSafe | deps/lua/lcode.c:331-377 | Every run with at most two removals in a row keeps the table right. |
| LineTable.ThreeAreNot | deps/lua/lcode.c:331-377 | Three removals in a row can lose a line: after saving 10, 11 and 1000 and removing all three, saving 1000 writes a relative entry that reads as 11. |
| LineTable.EstimateIsLow | deps/lua/ldebug.c:62-77 | The estimate for the absolute entry is within the table and never beyond the instruction. |
| LineTable.GetBaseLine | deps/lua/ldebug.c:62-77 | The base found is at or before the instruction with its right line, and no absolute entry lies in between. |
| LineTable.GetFuncLine | deps/lua/ldebug.c:85-97 | The line decoded for every instruction is the one saved for it. |
| LineTable.ChangedLine | deps/lua/ldebug.c:881-899 | The quick comparison agrees with comparing the two lines. |
| Jumps.NoRepeats | deps/lua/lcode.c:155-161 | A jump list that ends contains no jump twice. |
| Jumps.FuncState.FixJump | deps/lua/lcode.c:168-176 | A jump is set to its target exactly if the distance fits, and nothing else changes. |
| Jumps.FuncState.Concat | deps/lua/lcode.c:182-193 | The result is one list with the jumps of both in order, and only the last jump of the first list was changed. |
| Jumps.FuncState.PatchTestReg | deps/lua/lcode.c:261-273 | The test in front of a jump gets its register or becomes a plain test; the result tells whether it makes a value. |
| Jumps.FuncState.PatchListAux | deps/lua/lcode.c:290-300 | Exactly the listed jumps go to their targets, tests among them to the value target; every other instruction but their tests is untouched; it fails exactly if a target is out of reach. |
| Jumps.ValueTestRuns | deps/lua/lcode.c:261-300 | For every register file, a patched test that made a value goes to the value target exactly when it took its jump before; then the register asked for holds the tested value and no other changes, and without one none changes; otherwise it goes on as before. |
| Jumps.OtherTestRuns | deps/lua/lcode.c:245-300 | For every register file, any other test in front of a patched jump goes to the default target exactly when it took its jump before, a jump on its own always, and no register changes. |
| Jumps.RestRuns | deps/lua/lcode.c:290-300 | Every instruction that is neither a listed jump nor in front of one runs as before. |
| Jumps.SameLanding | deps/lua/lcode.c:1911-1971 | Sending a jump further along its own chain changes no instruction's final destination, nor whether there is one. |
| Jumps.FuncState.FinalTarget | deps/lua/lcode.c:1911-1921 | The target found lies on the jump's own chain, at its end or a hundred hops along. |
| Jumps.FuncState.Finish | deps/lua/lcode.c:1929-1971 | After the pass, in place and even if it is cut short, every instruction leads to the same first instruction that is not a jump as before, or to none as before; every jump whose chain ends within a hundred hops goes straight there; it is cut short only at a jump that cannot reach a place on its own chain. |
| PbVarint.Slice.ReadVarintSlow | luaclib-src/pb.h:411-425 | The loop reads the varint at the cursor modulo 2^64 and moves behind it, or reports failure and stays. |
| PbVarint.Slice.ReadVarint64Fallback | luaclib-src/pb.h:448-466 | Without a loop and without leaving the buffer, the same value, length and failure as the loop. |
| PbVarint.Slice.ReadVarint32Fallback | luaclib-src/pb.h:427-446 | Without a loop and without leaving the buffer, the low 32 bits of the loop's value and the same length and failure. |
| PbVarint.Slice.ReadVarint64 | luaclib-src/pb.h:487-493 | On every buffer the same value, length and failure as the loop. |
| PbVarint.Slice.ReadVarint32 | luaclib-src/pb.h:475-485 | On every buffer the low 32 bits of the loop's value and the same length and failure. |
| PbVarint.Slice.ReadBytes | luaclib-src/pb.h:533-545 | A length and that many bytes are read, or nothing moves. |
| PbVarint.Write32 | luaclib-src/pb.h:690-700 | The unrolled writer writes the base-128 encoding of every 32-bit number. |
| PbVarint.Write64 | luaclib-src/pb.h:702-717 | The unrolled writer writes the base-128 encoding of every 64-bit number. |
| PbVarint.RoundTrip | luaclib-src/pb.h:690-717 | Wherever the encoding of a 64-bit number stands in a buffer, the readers find its length and its value. |
| PbVarint.Buffer.AddLength | luaclib-src/pb.h:746-762 | The buffer becomes what was before the reserved bytes, the length of the payload, and the payload, moved up in place as needed; it fails without change exactly if the position is beyond the end or memory runs out. |
| PbVarint.PayloadRoundTrip | luaclib-src/pb.h:533-545 | A payload with its length put in front of it is read back whole. |
| PbNames.CalcHash | luaclib-src/pb.h:988-995 | The loop computes the hash whose dependence HashSamples states. |
| PbNames.HashSamples | luaclib-src/pb.h:988-995 | The hash of a name depends only on its length and on fewer than 32 sampled bytes. |
| PbNames.FoundAgain | luaclib-src/pb.h:1022-1067 | A stored name matches under its own hash exactly if it is shorter than 65536 bytes. |
| PbNames.NameTable.GetName | luaclib-src/pb.h:1056-1067 | A name is found under a hash exactly if it is stored and that is its hash. |
| PbNames.NameTable.Resize | luaclib-src/pb.h:997-1020 | Rehashing keeps every name, stored once under its own hash, or fails and changes nothing. |
| PbNames.NameTable.NewName | luaclib-src/pb.h:1022-1039 | The name is added under its own hash and no other is touched; it fails without change only for want of memory or at the largest size. |
| PbNames.NameTable.DelName | luaclib-src/pb.h:1041-1054 | The name is removed and no other is touched. |
| PbNames.StoreName | luaclib-src/pb.h:1077-1092 | A name is stored only if it was not there. |
| PbNames.Name | luaclib-src/pb.h:1094-1114 | Whatever the cache holds, stale addresses and stale hashes included, the lookup finds what it finds without the cache, and the cache then knows the hash for the address. |
| DnsNames.ValidName | luaclib-src/ldns.c:98-125 | A name is accepted exactly if it has 1 to 253 bytes and consists of labels of 1 to 63 bytes with at most one dot at the end. |
| DnsNames.WriteName | luaclib-src/ldns.c:143-159 | The name is written label by label behind its length, with a zero at the end. |
| DnsNames.ReadName | luaclib-src/ldns.c:228-272 | On every message, within 128 steps and within the bounds of message and buffer, the name is accepted exactly if it expands through backward pointers in at most 128 steps to less than 256 bytes, and the result is that expansion in lower case and the end of the field. |
| DnsNames.MoreSteps | luaclib-src/ldns.c:228-272 | The expansion does not depend on the number of steps allowed, once they are enough. |
| DnsNames.Lower | luaclib-src/ldns.c:258-258 | No byte of the result is a capital letter; capitals become their small letter and every other byte stays. |
| DnsNames.Endless | luaclib-src/ldns.c:228-272 | Backward pointers alone do not rule out loops: a label and a pointer back to it never expand, so the bound on steps is needed. |
| DnsNames.NameRoundTrip | luaclib-src/ldns.c:143-159 | Every valid name, wherever it was written in a message, is read back in lower case without a dot at the end, and reading stops right behind its zero. |
| DnsNames.CompressedRoundTrip | luaclib-src/ldns.c:228-272 | Labels followed by two bytes pointing to a valid name written earlier, at any offset below 2^14, expand to those labels under that name in lower case, and the field ends behind the pointer; they do so exactly if labels, pointer and zero take at most 128 steps. With no labels this is the name itself. |
| DnsNames.TooManyLabels | luaclib-src/ldns.c:228-272 | The longest valid name, of 127 labels, is read where it was written but not through a pointer. |

## Left out

- System calls, the event poller, sockets of the operating system and clocks: their results are arbitrary values in their range; polling is level-triggered and the clock does not go back.
- The Lua C API around the codecs: Lua tables are maps, string buffers are byte sequences.
- Memory order and data races: atomics and locked regions are single steps. In `socket_tcp_send`, finding the socket, counting the bytes and queueing the operation is one step.
- Events of one batch for a slot that was freed and taken again before its turn: the model looks at events of sockets that are polled at that moment. Releasing a socket while draining it ends its event.
- SocketManager.Manager.DrainTcp: writev is taken not to accept bytes on a connection that is still being set up.
- SocketManager.Manager.TcpSend: takes every id but -1, the mark of a free slot, which is the subject of SocketPool; versions do not wrap in this module.
- SocketManager.Manager.CloseSocket: takes every id but -1, as TcpSend does.
- SocketManager.Manager.SetReadEnable: takes every id but -1, as TcpSend does.
- UDP sockets, listening sockets and their operations, and the cache of write-list nodes.
- TimerLifecycle.RunKeeps: versions of nodes are unbounded, so the statement is up to 2^32 uses of one node; which timers of the wheel fire in a tick is left to TimerWheel; stopping the timer thread is not modelled; the free list is a sequence.
- TimerLifecycle.StepKeeps: versions of nodes are unbounded, as for RunKeeps.
- TimerLifecycle.NodesKeep: versions of nodes are unbounded, as for RunKeeps; a page joins the free list in one step.
- TimerLifecycle.CancelFailsExactly: versions of nodes are unbounded, as for RunKeeps.
- PbTable.Table.Resize: the request is not smaller than the present table, as in both calls of pb.h; a smaller one would have to grow the new table while filling it.
- PbTable.Table.Set: there are no deletions, whose tombstones the rehash takes for key 0.
- PbNames.NameTable.DelName: reference counts, which have sixteen bits, are not modelled.
- PbNames.NameTable.NewName: names are shorter than 65536 bytes, as for StoreName.
- PbNames.StoreName: names are shorter than 65536 bytes, the range in which FoundAgain shows them to be found.
- HpackTable.RunInStep: the limit is fixed, so size updates do not occur; the repository's own decoder, which evicts differently, is not used.
- ClusterQueue.NetPacket.Push: sizes are unbounded integers, as for a hard limit small enough for an int; the machine is little-endian; connection ids are nonnegative.
- The reuse of session numbers in `lrequest` after 2^31 requests, and logging of soft limits.
- Gc.Collector.SingleStep: weak and ephemeron tables, finalizers, open upvalues, string tables, generational mode and memory accounting are not modelled; the lists with finalizers are empty.
- Jumps.FuncState.Finish: only the treatment of jumps is modelled; the adjustments to return and vararg instructions change no jump.
- Zigzag and fixed-width protobuf values, tags, groups and type information.
- DnsNames.ReadName: the records around a name, and the rest of the message format.
- HTTP/2 frames, header fragmentation, TLS, compression, metrics, logging, the process pool and the debugger.
