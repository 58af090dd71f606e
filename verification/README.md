# The mingfwq core, modelled and proved

mingfwq is a C++ server framework: a chunked serialization buffer, coroutines
scheduled over epoll and timers, and a URI type. This project models three of its
components in Dafny and proves what they are for.

**ByteArray.** `ByteArray.dfy` is the linked list of fixed-size nodes with its cursor
node, position, size and capacity, updated in place and copied byte by byte; `Flat.dfy`
is its specification, one byte sequence with a cursor. Every operation refines its flat
counterpart, over arbitrary runs (`Runs.dfy`), through sockets and files
(`Streams.dfy`), and under the typed codecs (`Varints.dfy`, `Codec.dfy`,
`Serializer.dfy`).

**The wake-up runtime.** `Timers.dfy` and `TimerManager.dfy` model the ordered timer
set; `Events.dfy` and `IOManager.dfy` the event tables against the kernel's interest
list; `Dispatching.dfy` and `Scheduler.dfy` the run queue, the fibers and a worker's
turn. In each pair the first is the value model with the theorems, the second the class
that updates its fields and is proved to do what the value model says. `Runtime.dfy`,
`RuntimeSafety.dfy`, `RuntimeRuns.dfy`, `RuntimeEffects.dfy` and `RuntimeTimeouts.dfy`
put workers, fibers, `do_io`, sleeping, epoll and timers into one step system and prove,
for every interleaving, that no assertion fires but the one a report beyond the
registration trips, that wake-up references are conserved, that execution is exclusive
and that quiescence is stable; what each move does, field by field; and that a call that
timed out gives up. The steps are: a yield together with the worker's post-processing,
an evaluation of `stopping()`, a timer callback, an `addEvent` with its lookup, and each
of the other operations.

**URI.** `Uri.dfy` holds the transition table of the generated automaton for
`scheme "://" authority path ["?" query] ["#" fragment]` (section 3 of RFC 3986) and the
printer; `UriRoundTrip.dfy` proves what the parser makes of every string of the grammar
and of every printed URI, `UriGrammar.dfy` and `UriLanguage.dfy` that nothing else is
accepted, `UriParser.dfy` that the loop with `p`, `cs` and `mark` runs this automaton.

## Where the code and its promises differ

- `addCapacity` is documented to make room for `size` bytes (mingfwq/bytearray.h:138);
  it compares the remainder with the old room and does so only under `Fits`
  (`Flat.AddCapacityIffFits`, `Flat.AddCapacityFallsShort`). `write` and
  `getWriteBuffers` then step onto a null node; the model returns `ok == false` there.
- `writeToFile` subtracts the offset in the first node from a short last chunk too
  (mingfwq/bytearray.cpp:475-476): it is right exactly under `Flat.FileSafe`.
- `readInt64` decodes a 32-bit varint (mingfwq/bytearray.cpp:269): `Varints.Int64RoundTripIff`.
- `read` of 0 bytes at the very end of the capacity touches the null cursor; an empty
  string read there does too (`Serializer.EndsOnNull`). The model calls this `Crash`.
- The ERR/HUP widening of the dispatch loop can trip the assertion of `triggerEvent`:
  `Events.DispatchKeeps` gives the exact condition, `Events.HangUpAborts` an input.
- A refresh, or the re-keying of a recurring timer, whose deadline wraps around can put a
  timer in front without calling the hook: `Timers.RefreshIff` and `Timers.ExpireIff` give
  the exact condition, `Timers.RefreshOverflowMisses` an input. Additions and resets may
  overflow.
- `idle` converts the time left to int before it compares it with 3000
  (mingfwq/iomanager.cpp:327): from 2^31 milliseconds on it can sleep without limit.
  `Timers.IdleWaitIff` gives the exact condition, `Timers.LongTimeoutBlocks` an input.
- A timeout that fires after it was armed and before `do_io` registers marks the call and
  wakes nobody; the call then gives up only once its event arrives
  (`RuntimeEffects.TimeoutEffect`, mingfwq/hook.cpp:132-157).
- A digit after the first ':' of user information moves the parser's mark:
  `UriRoundTrip.RoundTrip` states exactly when user information survives.
- An empty port, which the grammar allows, loses the mark and the path is then taken
  from a null pointer; a port beyond the range of int is undefined in `atoi`.
  `UriRoundTrip.ParseExact` gives the exact condition.

## Modelling conventions

- Bytes are integers 0 to 255; shifts and masks are division and remainder by powers of
  two; fixed-width words wrap explicitly. Sizes and positions are unbounded.
- `Abort` stands for a failed assertion of the source, `Crash` and `Undefined` for a
  dereferenced null or another undefined operation.
- The clock, the answers of `epoll_ctl` and `epoll_wait`, the bytes a socket delivers, the
  contents of new memory, the address of the probe timer and what user code does next are
  parameters, so every statement holds for all of them.
- In `Runtime.dfy` a timer may expire at any moment and events may be reported at any
  moment; a batch of expired callbacks is queued one by one. The components of a task that
  only record history are named in the module's header.
- The discipline the runtime theorems ask of user code is the predicate
  `RuntimeRuns.Legal`: one waiter per descriptor and event, a yield to HOLD only after a
  registration or a sleep timer, no `delEvent` for a waiting fiber (`RuntimeSafety.DelEventLoses`
  shows what it would do). The kernel may report anything.

## Model

| member | source | states |
|---|---|---|
| `Flat.AddCapacityIffFits` | mingfwq/bytearray.cpp:504-515 | after addCapacity there is room for `size` bytes if and only if `Fits`: the room was enough, or the remainder of the missing bytes is 0 or larger than the old room |
| `Flat.AddCapacityIsLeast` | mingfwq/bytearray.cpp:504-515 | whenever `Fits` holds, no smaller number of new nodes would make enough room |
| `Flat.AddCapacityFallsShort` | mingfwq/bytearray.cpp:514 | the documented promise fails: 6 free bytes in a 4096-byte node, 8 wanted, no node added |
| `Flat.FitsAlways` | mingfwq/bytearray.cpp:504-515 | base size 1, requests of at most one byte and a full buffer are always safe |
| `Flat.FitsRunAppend` | mingfwq/bytearray.cpp:343-378 | whether a sequence of writes fits, and the capacity it leads to, composes over concatenation of the sequences |
| `Flat.WroteWrote` | mingfwq/bytearray.cpp:343-378 | two writes one after the other are the write of the concatenation, with everything outside unchanged |
| `Flat.WriteThenRead` | mingfwq/bytearray.cpp:343-409 | moving back over a write and reading as many bytes returns them and restores the cursor |
| `Flat.AlignedBlocksFit` | mingfwq/bytearray.cpp:496-500 | from a node-aligned position every block readFromFile writes fits, for any base size and file length |
| `Flat.FileBlocksMeans` | mingfwq/bytearray.cpp:496-500 | readFromFile writes full blocks of the base size and then the rest, even if it is empty |
| `Bytes.FlattenSplice` | mingfwq/bytearray.cpp:355-372 | overwriting a part of one node overwrites the corresponding part of the flat contents and nothing else |
| `ByteArray.ByteArray.constructor` | mingfwq/bytearray.cpp:38-46 | one node, empty, big-endian |
| `ByteArray.ByteArray.AddCapacity` | mingfwq/bytearray.cpp:504-536 | adds exactly the computed nodes, keeps every byte, position and size, leaves the cursor non-null for a non-empty request, and makes room exactly when `Fits` |
| `ByteArray.ByteArray.CursorNode` | mingfwq/bytearray.h:145-160 | capacity = nodes × base; the cursor is node number position / base, and null exactly at the end of the capacity |
| `ByteArray.ByteArray.Find` | mingfwq/bytearray.cpp:446-458 | the walk of setPosition ends at the node that holds the offset, or null at the end |
| `ByteArray.ByteArray.SetPosition` | mingfwq/bytearray.cpp:442-459 | throws beyond the capacity and changes nothing; otherwise moves the cursor and extends the size to it |
| `ByteArray.ByteArray.Fill` | mingfwq/bytearray.cpp:349-372 | the copy loop overwrites the flat contents with the buffer across node boundaries, and steps onto null exactly when the room is too small |
| `ByteArray.ByteArray.Write` | mingfwq/bytearray.cpp:343-378 | succeeds exactly when `Fits`, and then is the flat write: bytes at the cursor replaced, everything else kept, cursor and size advanced, capacity as computed |
| `ByteArray.ByteArray.Take` | mingfwq/bytearray.cpp:385-409 | the copy loop of both read overloads returns the flat bytes across nodes and aims the cursor behind them |
| `ByteArray.ByteArray.Read` | mingfwq/bytearray.cpp:380-409 | returns the next n bytes and advances; out of range when fewer are left; a read of nothing at the very end touches null |
| `ByteArray.ByteArray.ToString` | mingfwq/bytearray.cpp:538-546 | exactly the unread bytes, nothing moves |
| `ByteArray.ByteArray.Clear` | mingfwq/bytearray.cpp:330-341 | back to the first node with position, size 0 |
| `ByteArray.ByteArray.GetWriteBuffers` | mingfwq/bytearray.cpp:635-664 | succeeds exactly when `Fits`; the slices tile the next `len` offsets in order; contents, size and cursor are kept |
| `ByteArray.ByteArray.Receive` | mingfwq/socket_stream.cpp:39-43 | filling the slices in order with received bytes overwrites the flat contents from the first offset on |
| `ByteArray.ByteArray.WriteToFile` | mingfwq/bytearray.cpp:461-485 | the chunks concatenate to exactly the unread bytes if and only if nothing is unread, the position is node-aligned or at least a node's worth is unread |
| `ByteArray.ByteArray.ReadFromFile` | mingfwq/bytearray.cpp:487-502 | appends exactly the file's bytes, if and only if every block fits when it is written |
| `Runs.Perform` | mingfwq/bytearray.cpp:330-459 | one call on the chunked buffer is one step of the flat buffer, or one of the exactly characterised crashing calls |
| `Runs.Run` | mingfwq/bytearray.cpp:330-546 | every sequence of write, read, setPosition, toString and clear is answered as by one flat sequence with a cursor, up to the first call that crashes |
| `Streams.SocketRead` | mingfwq/socket_stream.cpp:35-48 | the scatter receive of rt bytes leaves the same contents, size and cursor as writing those bytes |
| `Streams.ReadFixSize` | mingfwq/stream.cpp:20-30 | over any short receives only the first request can fail to fit; the buffer gains the concatenation of all pieces; returns the length or 0 |
| `Streams.GatherAll` | mingfwq/stream.cpp:20-30 | pieces without an end of stream deliver the beginning of their concatenation, as much as is wanted and there is |
| `Streams.GatherEnds` | mingfwq/stream.cpp:20-30 | an empty piece ends the delivery |
| `Streams.ThroughFile` | mingfwq/bytearray.cpp:461-502 | a buffer written to a file and read into a fresh buffer of any base size arrives unchanged, exactly when writeToFile is safe |
| `Varints.UnvarVarint` | mingfwq/bytearray.cpp:254-284 | a reader of n groups decodes an encoding to the value modulo 128^n and consumes min(n, its length) bytes, whatever follows |
| `Varints.VarintBytes` | mingfwq/bytearray.cpp:144-172 | byte i of an encoding is bits 7i to 7i+6 of the value with the high bit on all but the last, and no group of leading zeros |
| `Varints.UnvarAny` | mingfwq/bytearray.cpp:254-284 | on any bytes the readers return the seven-bit groups up to the first byte without the high bit, or of the most bytes they take, and throw if the bytes run out before |
| `Varints.ReadersAny` | mingfwq/bytearray.cpp:254-284 | five bytes cut to 32 bits, ten bytes cut to 64 |
| `Varints.RoundTrip32` | mingfwq/bytearray.cpp:144-156 | a 32-bit varint fits its 5-byte array and reads back, consuming exactly its bytes |
| `Varints.RoundTrip64` | mingfwq/bytearray.cpp:162-172 | a 64-bit varint fits its 10-byte array and reads back, consuming exactly its bytes |
| `Varints.EncodingIsMinimal` | mingfwq/bytearray.cpp:144-172 | no sequence of bytes that decodes to the same value is shorter than the encoding |
| `Varints.ZigzagIsStandard` | mingfwq/bytearray.cpp:116-129 | the wrapping two's complement encoders give the zigzag numbers of the Protocol Buffers encoding, at the extremes too |
| `Varints.ZigzagRoundTrip` | mingfwq/bytearray.cpp:116-138 | decoding undoes encoding for every signed word |
| `Varints.ZigzagInverse` | mingfwq/bytearray.cpp:116-138 | encoding undoes decoding for every word, so the map is a bijection |
| `Varints.Int32RoundTrip` | mingfwq/bytearray.cpp:140-142 | writeInt32 then readInt32 returns every 32-bit value |
| `Varints.Int64RoundTripIff` | mingfwq/bytearray.cpp:158-160 | writeInt64 then readInt64, which decodes a 32-bit varint, returns the value if and only if it lies in the 32-bit range |
| `Codec.WireOrder` | mingfwq/endian.h:36-65 | on either machine order, swapping when the orders differ puts the bytes in the configured order |
| `Codec.LoadOrder` | mingfwq/bytearray.cpp:221-249 | loading and swapping reads the configured order on either machine |
| `Codec.ImageBytes` | mingfwq/bytearray.cpp:70-112 | byte k of a word is first to last in little-endian order, last to first in big-endian order |
| `Codec.NumberOfLow` | mingfwq/bytearray.cpp:70-112 | the n bytes of a fixed-width value determine it modulo 256^n |
| `Codec.LowOfNumber` | mingfwq/bytearray.cpp:211-249 | every n bytes are the image of the number they denote |
| `Codec.FixedRoundTrip` | mingfwq/bytearray.cpp:70-112 | fixed-width values of 1, 2, 4, 8 bytes, signed or not, read back in either endianness |
| `Codec.WireFormat` | mingfwq/bytearray.cpp:70-204 | the wire bytes of each kind of value: two's complement bytes in the buffer's order, varints, varints of zigzag numbers, prefix and string |
| `Codec.LengthFormat` | mingfwq/bytearray.cpp:186-204 | the four length prefixes, byte by byte |
| `Codec.LengthRoundTrip` | mingfwq/bytearray.cpp:186-204 | a length prefix reads back as the length cut to the prefix type |
| `Codec.TextRoundTripIff` | mingfwq/bytearray.cpp:300-327 | a length-prefixed string reads back if and only if its length fits the prefix |
| `Codec.RoundTripIff` | mingfwq/bytearray.cpp:211-327 | any value reads back, whatever follows it, if and only if it is faithful: 64-bit signed varints in the 32-bit range, strings no longer than the prefix can tell |
| `Codec.ListRoundTrip` | mingfwq/bytearray.cpp:70-327 | a mixed list of faithful values reads back in order and uses up exactly its bytes |
| `Serializer.WriteFixed` | mingfwq/bytearray.cpp:70-112 | writes the bytes of the configured order at the cursor |
| `Serializer.EncodeVarint` | mingfwq/bytearray.cpp:144-155 | the encoding loop produces the varint and stays inside its array |
| `Serializer.WriteVarint` | mingfwq/bytearray.cpp:144-172 | writes the varint at the cursor |
| `Serializer.WriteText` | mingfwq/bytearray.cpp:186-204 | writes prefix and string, succeeding exactly when both writes fit |
| `Serializer.WriteValue` | mingfwq/bytearray.cpp:70-204 | any typed write puts exactly the value's wire bytes at the cursor |
| `Serializer.ReadFixed` | mingfwq/bytearray.cpp:211-249 | loads the value in the configured order, or throws and moves nothing |
| `Serializer.ReadVarint` | mingfwq/bytearray.cpp:254-284 | the decoding loop returns the value cut to its word and the cursor behind the bytes it used; it throws exactly when the bytes run out |
| `Serializer.ReadText` | mingfwq/bytearray.cpp:300-327 | length, then that many bytes; throws when they run out |
| `Serializer.ReadValue` | mingfwq/bytearray.cpp:211-327 | any typed read parses the unread bytes and advances by what it used |
| `Serializer.WriteAll` | mingfwq/bytearray.cpp:70-204 | a list of typed writes puts the concatenated wire bytes at the cursor, if and only if every write fits |
| `Serializer.ReadAll` | mingfwq/bytearray.cpp:211-327 | a list of typed reads parses the unread bytes in order |
| `Serializer.ReadAllEndWire` | mingfwq/bytearray.cpp:300-327 | reading back a written list fails only for an empty string that ends exactly at the end of the capacity |
| `Serializer.RoundTrip` | mingfwq/bytearray.cpp:70-327 | write a list, set the position back, read: the same list, and nothing left to read |
| `Timers.OrderedInsert` | mingfwq/timer.cpp:79-97 | inserting at the lower bound keeps the set ordered by deadline, then address |
| `Timers.OrderedRemove` | mingfwq/timer.cpp:79-97 | removing keeps the order |
| `Timers.SearchFinds` | mingfwq/timer.cpp:32-48 | the search for a member's key always stops at that member: the not-found branches are unreachable |
| `Timers.FrontIff` | mingfwq/timer.cpp:116-119 | a timer is inserted at the front exactly when it precedes every pending one |
| `Timers.StartedAt` | mingfwq/timer.cpp:66-73 | the new deadline of a reset: now or the start of the old period, plus the new period, in 64-bit arithmetic |
| `Timers.ZeroMeansDue` | mingfwq/timer.cpp:144-193 | for the same clock value, getNextTimer returns 0 exactly when listExpiredCb returns something |
| `Timers.InsertKeeps` | mingfwq/timer.cpp:116-127 | an insertion through addTimer keeps the promise whatever its deadline, overflowing or not |
| `Timers.RefreshIff` | mingfwq/timer.cpp:32-48 | a refresh keeps the promise if and only if the timer is not pending, the idle thread was told anyway, or the new deadline does not wrap around to before the one it saw |
| `Timers.ResetKeeps` | mingfwq/timer.cpp:50-76 | a reset keeps the promise whatever it overflows |
| `Timers.ExpireIff` | mingfwq/timer.cpp:160-193 | listExpiredCb keeps the promise if and only if no recurring timer it re-keys wraps around to before the deadline the idle thread saw |
| `Timers.StepKeepsInv` | mingfwq/timer.cpp:20-193 | every operation, whatever its deadlines, keeps the hook count exact and every deadline one period after some past moment; a promise that held is kept exactly when the step is harmless |
| `Timers.HookOnce` | mingfwq/timer.cpp:116-127 | over every run the hook is called at most once between two calls of getNextTimer, overflow or not |
| `Timers.NoMissedWakeup` | mingfwq/timer.cpp:116-193 | a run with a non-decreasing 64-bit clock never misses a wake-up (at every moment m_tickled is set or no pending deadline is before the earliest one the last getNextTimer saw) if and only if each refresh and each re-keying in it is harmless |
| `Timers.NoMissedWakeupFromStart` | mingfwq/timer.cpp:100-193 | the same from an empty manager |
| `Timers.CancelledNeverFires` | mingfwq/timer.cpp:20-30 | after cancel, whatever is done with the timer short of adding it again, it is in no later list of expired timers |
| `Timers.NoOverflowIsHarmless` | mingfwq/timer.cpp:20-193 | steps whose refresh or re-keyed deadlines do not overflow are harmless; additions and resets always are |
| `Timers.RefreshOverflowMisses` | mingfwq/timer.cpp:32-48 | an input: a wrapped refresh puts a timer in front without a hook; the exact condition is `Timers.RefreshIff` |
| `Timers.IdleWaitIff` | mingfwq/iomanager.cpp:324-333 | the timeout idle passes to epoll_wait lies between 0 and both the time left and 3000 if and only if the time left is all ones or its low 32 bits are below 2^31 |
| `Timers.SleepEnds` | mingfwq/iomanager.cpp:324-335 | where the conversion is not negative: no sleep past a deadline that is due, exactly to one at most three seconds away, else three seconds, or less where the conversion cuts the time left |
| `Timers.SleepWithoutTimer` | mingfwq/iomanager.cpp:327-332 | without a timer the sleep is three seconds |
| `Timers.LongTimeoutBlocks` | mingfwq/iomanager.cpp:327-328 | an input: 2^31 milliseconds left give a negative timeout, which blocks without limit |
| `Timers.AwakeInTime` | mingfwq/iomanager.cpp:313-340 | between getNextTimer and the return of epoll_wait, unless told, no pending timer becomes due before the thread is awake again, exactly under that condition; where it fails the thread sleeps past the deadline it saw |
| `TimerManager.TimerManager.SetIntegrity` | mingfwq/timer.cpp:79-97 | a timer is in the set exactly when it has a callback; the set is ordered by deadline, then address |
| `TimerManager.TimerManager.LowerBound` | mingfwq/timer.cpp:79-97 | the first element not before the key |
| `TimerManager.TimerManager.Erase` | mingfwq/timer.cpp:20-30 | find and erase removes exactly this timer; it is always there |
| `TimerManager.TimerManager.InsertTimer` | mingfwq/timer.cpp:116-119 | inserts in order, the others keeping theirs, and tells exactly whether the timer is now first |
| `TimerManager.TimerManager.Detach` | mingfwq/timer.cpp:41-46 | a timer's fields change only while it is out of the set |
| `TimerManager.TimerManager.AddTimer` | mingfwq/timer.cpp:108-127 | a new timer with deadline (now + ms) mod 2^64, its period, kind and callback, put into the order of the set; the hook is called exactly if it is first and m_tickled was not set, which then is |
| `TimerManager.TimerManager.CancelTimer` | mingfwq/timer.cpp:20-30 | true exactly for a timer with a callback; afterwards it has none and is not in the set, its other fields and the order of all others are as before |
| `TimerManager.TimerManager.RefreshTimer` | mingfwq/timer.cpp:32-48 | a timer with a callback gets the deadline (now + period) mod 2^64 and moves to its place in the set; no other field, no other timer and no flag changes |
| `TimerManager.TimerManager.ResetTimer` | mingfwq/timer.cpp:50-76 | false without effect for the same period not from now, or without a callback; otherwise new period and deadline (now, or old deadline minus old period, plus the new period), moved to its place, the hook called as for a new timer |
| `TimerManager.TimerManager.GetNextTimer` | mingfwq/timer.cpp:144-158 | clears m_tickled; all ones without timers; else the first timer has the earliest deadline and now plus the answer is that deadline, or now if it has passed |
| `TimerManager.TimerManager.CountDue` | mingfwq/timer.cpp:171-178 | lower_bound of the probe plus the loop over equal deadlines counts exactly the timers with m_next <= now, whatever the probe's address |
| `TimerManager.TimerManager.ListExpiredCb` | mingfwq/timer.cpp:160-193 | the callbacks of exactly the timers with one and m_next <= now, each once, by deadline; one-shot ones lose the callback, recurring ones get now + period, all others are untouched, and the set holds exactly the timers with a callback |
| `Events.AddEventKeeps` | mingfwq/iomanager.cpp:89-152 | aborts exactly for an event already registered; otherwise keeps exact count, bits and contexts in agreement and kernel interest equal to the bits; a failing epoll_ctl changes nothing but the table's length |
| `Events.AddEventFields` | mingfwq/iomanager.cpp:103-147 | after a successful addEvent: bit, context with scheduler and exactly the callback or the current fiber, kernel interest, count; everything else as before; a failed one only fills the table up |
| `Events.AddEventWaiter` | mingfwq/iomanager.cpp:131-147 | exactly the new waiter appears, every other waiter stays |
| `Events.DelEventKeeps` | mingfwq/iomanager.cpp:164-201 | keeps the invariant; true exactly when the event was registered and the kernel agreed |
| `Events.DelEventFields` | mingfwq/iomanager.cpp:176-200 | after a successful delEvent: bit and context empty, kernel told, count one less, everything else as before |
| `Events.DelEventWaiter` | mingfwq/iomanager.cpp:164-201 | exactly the waiter of that event disappears, without being handed over |
| `Events.CancelEventKeeps` | mingfwq/iomanager.cpp:203-236 | never trips an assertion; hands over exactly the waiter of that event or changes nothing |
| `Events.CancelAllKeeps` | mingfwq/iomanager.cpp:238-277 | never trips an assertion; hands over exactly the registered waiters and leaves no bit |
| `Events.DispatchKeeps` | mingfwq/iomanager.cpp:363-403 | aborts if and only if the kernel call succeeds and the report names a registered and an unregistered event; otherwise hands over exactly the reported waiters |
| `Events.HangUpAborts` | mingfwq/iomanager.cpp:366-368 | the ERR/HUP widening on a descriptor with one waiter trips the assertion of triggerEvent |
| `Events.NoBits` | mingfwq/iomanager.cpp:297-302 | when nothing is pending no descriptor has an event bit |
| `Events.StepKeeps` | mingfwq/iomanager.cpp:89-403 | an operation aborts exactly when an event is registered twice or the kernel reports beyond the registration; otherwise the invariant holds again |
| `Events.EveryRunKeeps` | mingfwq/iomanager.cpp:89-403 | after every run of operations, with any answers of epoll_ctl: m_pendingEventCount equals the number of bits, a bit is set exactly when its context holds a scheduler and one of fiber and callback, kernel interest equals the bits |
| `Events.EveryRunFromStart` | mingfwq/iomanager.cpp:48-74 | the same from the constructor's tables |
| `IOManager.IOManager.ContextResize` | mingfwq/iomanager.cpp:154-162 | exactly the wanted length: contexts beyond it are cut off, the others kept, missing ones fresh |
| `IOManager.IOManager.Ctl` | mingfwq/iomanager.cpp:120-129 | the kernel refuses to add what it watches and to change or remove what it does not; otherwise it watches what it was told |
| `IOManager.IOManager.TriggerEvent` | mingfwq/iomanager.cpp:33-46 | fails exactly without the bit or the scheduler; otherwise the bit and the scheduler go, and the callback if there is one, else the fiber, is handed over |
| `IOManager.IOManager.AddEventFor` | mingfwq/iomanager.cpp:89-152 | does what the value model says, aborts included |
| `IOManager.IOManager.DelEventOf` | mingfwq/iomanager.cpp:164-201 | does what the value model says |
| `IOManager.IOManager.CancelEventOf` | mingfwq/iomanager.cpp:203-236 | does what the value model says; returns true exactly when one waiter was handed over |
| `IOManager.IOManager.CancelAllOf` | mingfwq/iomanager.cpp:238-277 | does what the value model says; returns true exactly when a waiter was handed over |
| `IOManager.IOManager.DispatchOne` | mingfwq/iomanager.cpp:363-403 | does what the value model says |
| `IOManager.IOManager.DispatchAll` | mingfwq/iomanager.cpp:350-403 | over all reports of one epoll_wait (one per descriptor): an assertion fires if and only if some report goes beyond its registration and epoll_ctl succeeds; otherwise the tables stay consistent and the count drops by exactly the waiters handed over |
| `Dispatching.AddKeeps` | mingfwq/scheduler.h:41-66 | scheduling one or many entries keeps order, conservation, pinning and no overtaking |
| `Dispatching.DequeueKeeps` | mingfwq/scheduler.cpp:167-191 | so does a dequeue, whichever fibers are executing |
| `Dispatching.EveryRunIsOrderly` | mingfwq/scheduler.cpp:160-191 | over every history: each scheduled entry is queued or was dequeued, never both, at most once; a pinned entry only by its thread; nothing scheduled after an unpinned callback is dequeued before it |
| `Dispatching.BatchTogether` | mingfwq/scheduler.h:53-66 | a batch stays contiguous in the queue, and its callbacks are dequeued in order however many threads scan |
| `Dispatching.StepsExplained` | mingfwq/scheduler.cpp:170-191 | a schedule appends its entries with the next numbers; a dequeue takes an entry unpinned or of this thread that is no executing fiber, every entry before it being pinned elsewhere or an executing fiber, and records it |
| `Scheduler.BatchAll` | mingfwq/scheduler.h:53-66 | a batch without empty callbacks keeps every callback, in its place |
| `Scheduler.BatchSkips` | mingfwq/scheduler.h:88-97 | an empty callback adds nothing to a batch, wherever it stands |
| `Scheduler.BatchFree` | mingfwq/scheduler.h:53-66 | every entry of a batch is an unpinned callback |
| `Scheduler.Fiber.Reset` | mingfwq/fiber.cpp:99-113 | accepted exactly in TERM, INIT, EXCEPT; then INIT with the new callback |
| `Scheduler.Fiber.SwapIn` | mingfwq/fiber.cpp:114-123 | accepted exactly when the fiber is not EXEC; afterwards the state its code left behind |
| `Scheduler.Scheduler.ScheduleNoLock` | mingfwq/scheduler.h:88-97 | appends a non-empty entry; asks for a tickle exactly when the queue was empty |
| `Scheduler.Scheduler.Schedule` | mingfwq/scheduler.h:40-50 | the same, with the tickle |
| `Scheduler.Scheduler.ScheduleBatch` | mingfwq/scheduler.h:52-66 | the non-empty callbacks stand at the end of the queue in order, the caller's storage is emptied, one tickle exactly when the queue was empty and the range was not |
| `Scheduler.Scheduler.Scan` | mingfwq/scheduler.cpp:163-195 | the entry taken is unpinned or pinned to this thread and no executing fiber; every entry before it, or every entry if none is taken, is pinned to another thread or an executing fiber; the others keep their order, the worker counts as active, another one is tickled exactly when a pinned entry was passed or something follows |
| `Scheduler.Scheduler.RunFiber` | mingfwq/scheduler.cpp:198-213 | an ended fiber is dropped; otherwise resumed, re-queued when READY, put on HOLD when neither ready nor ended; the worker is no longer active |
| `Scheduler.Scheduler.RunCallback` | mingfwq/scheduler.cpp:214-234 | runs the callback in the worker's fiber; the assertions of reset and swapIn hold; the fiber is kept, fresh, exactly when its code has ended, else given up |
| `Scheduler.Scheduler.RunEntry` | mingfwq/scheduler.cpp:198-234 | running a taken entry alone: no assertion fires, the worker is no longer active, at most one entry is appended |
| `Scheduler.Scheduler.Turn` | mingfwq/scheduler.cpp:160-238 | a whole turn of a lone worker: the earliest entry not pinned elsewhere is run, the others keep their order, no assertion fires, the callback fiber kept is fresh and not queued |
| `Scheduler.Scheduler.Work` | mingfwq/scheduler.cpp:160-255 | the same over any number of turns; it stops early only when nothing can be taken |
| `RuntimeSafety.SpawnSafe` | mingfwq/scheduler.h:41-50 | scheduling a new fiber or callback keeps the invariant |
| `RuntimeSafety.ScanTakeSafe` | mingfwq/scheduler.cpp:167-191 | a dequeue moves the one reference from the queue to the worker |
| `RuntimeSafety.ScanNoneSafe` | mingfwq/scheduler.cpp:235-248 | going idle keeps the invariant and the idle count |
| `RuntimeSafety.BackSafe` | mingfwq/scheduler.cpp:247-253 | so does coming back |
| `RuntimeSafety.ResumeFiberSafe` | mingfwq/scheduler.cpp:198-203 | swapIn's assertion cannot fire: what a worker holds is never executing |
| `RuntimeSafety.ResumeCallSafe` | mingfwq/scheduler.cpp:214-225 | reset's assertion cannot fire: a worker's callback fiber is never a suspended one |
| `RuntimeSafety.YieldReadySafe` | mingfwq/fiber.cpp:162-166 | yielding ready re-queues the fiber once |
| `RuntimeSafety.YieldHoldSafe` | mingfwq/fiber.cpp:167-171 | parking after a registration keeps the one reference, wherever it already is |
| `RuntimeSafety.FinishSafe` | mingfwq/fiber.cpp:176-205 | a fiber that ends, normally or by exception, leaves no reference behind |
| `RuntimeSafety.EnterIoSafe` | mingfwq/hook.cpp:116-130 | a blocking call that finds no data starts with a free slot |
| `RuntimeSafety.ArmSafe` | mingfwq/hook.cpp:132-143 | so does arming its timeout |
| `RuntimeSafety.RegisterSafe` | mingfwq/hook.cpp:146-154 | addEvent never hits the already-registered assertion, also on retries; on failure the timer is cancelled and the call returns |
| `RuntimeSafety.ContinueSafe` | mingfwq/hook.cpp:159-168 | after the park: cancel the timer, give up when cancelled, else retry |
| `RuntimeSafety.ReturnSafe` | mingfwq/hook.cpp:173 | returning ends the call; a late timeout finds it dead |
| `RuntimeSafety.SleepSafe` | mingfwq/hook.cpp:185-235 | a sleeping fiber is referenced by its timer callback alone |
| `RuntimeSafety.ExpireSafe` | mingfwq/iomanager.cpp:343-348 | an expired callback moves from the timers to the queue |
| `RuntimeSafety.DeliverSafe` | mingfwq/iomanager.cpp:363-403 | any epoll report: the assertion of triggerEvent fires if and only if the report goes beyond the registration next to something registered and the kernel accepts the change; otherwise each reported waiter moves from its context to the queue, once |
| `RuntimeSafety.CancelEventSafe` | mingfwq/iomanager.cpp:203-236 | so does cancelEvent for its waiter |
| `RuntimeSafety.CancelAllSafe` | mingfwq/iomanager.cpp:238-277 | so does cancelAll for both |
| `RuntimeSafety.AddCallSafe` | mingfwq/iomanager.cpp:89-152 | registering a user callback keeps the invariant |
| `RuntimeSafety.DropCallSafe` | mingfwq/iomanager.cpp:164-201 | so does delEvent where no fiber waits |
| `RuntimeSafety.DelEventLoses` | mingfwq/iomanager.cpp:164-201 | delEvent of an event a fiber waits for leaves no reference to the fiber anywhere |
| `RuntimeSafety.TimeoutSafe` | mingfwq/hook.cpp:133-142 | a timeout callback marks a live call and cancels its event at most once; on a finished call it does nothing |
| `RuntimeSafety.WakeUpSafe` | mingfwq/hook.cpp:191-193 | a sleep callback schedules its fiber, once |
| `RuntimeEffects.SpawnEffect` | mingfwq/scheduler.h:40-50 | a scheduled fiber or callback is last in the queue with its thread, and nothing else changes |
| `RuntimeEffects.TakeEffect` | mingfwq/scheduler.cpp:167-191 | a dequeue: which entry, what stood before it, and that only this entry, its task and this worker change |
| `RuntimeEffects.RestEffect` | mingfwq/scheduler.cpp:235-248 | a worker goes idle exactly when every entry is pinned elsewhere or an executing fiber |
| `RuntimeEffects.WakeWorkerEffect` | mingfwq/scheduler.cpp:247-253 | it comes back scanning |
| `RuntimeEffects.ResumeFiberEffect` | mingfwq/scheduler.cpp:198-203 | a resumed fiber executes on this worker and goes on where it stood: behind its park, behind its sleep, or in its own code |
| `RuntimeEffects.ResumeCallEffect` | mingfwq/scheduler.cpp:214-225 | a user callback is used up and its worker's callback fiber executes |
| `RuntimeEffects.RescheduleEffect` | mingfwq/scheduler.cpp:206-209 | a fiber that yields ready is last in the queue for any thread; a callback fiber is given up |
| `RuntimeEffects.ParkEffect` | mingfwq/scheduler.cpp:209-212 | a fiber that parks is on hold, its one reference where it was; a callback fiber is given up |
| `RuntimeEffects.EndEffect` | mingfwq/scheduler.cpp:226-233 | a fiber keeps how it ended, a callback fiber is fresh and kept |
| `RuntimeEffects.EnterEffect` | mingfwq/hook.cpp:112-130 | a blocking call starts unmarked |
| `RuntimeEffects.ArmEffect` | mingfwq/hook.cpp:132-143 | the timeout is pending and belongs to this call |
| `RuntimeEffects.RegisterEffect` | mingfwq/hook.cpp:146-157 | the fiber waits for exactly its event, once more registered; or the timer is cancelled and the call is over |
| `RuntimeEffects.LeaveEffect` | mingfwq/hook.cpp:173 | a successful call is over |
| `RuntimeEffects.GoOnEffect` | mingfwq/hook.cpp:159-168 | after the park the timer is not pending; the call is over if and only if it was marked as timed out, otherwise it tries again |
| `RuntimeEffects.SleepEffect` | mingfwq/hook.cpp:185-200 | the pending timer callback is the one reference to the sleeping fiber |
| `RuntimeEffects.TimerDueEffect` | mingfwq/iomanager.cpp:343-348 | an expired callback is last in the queue and no longer pending |
| `RuntimeEffects.ReadyEffect` | mingfwq/iomanager.cpp:376-403 | exactly the waiters of the reported events go from their contexts to the end of the queue, reader first; nobody else moves |
| `RuntimeEffects.CancelOneEffect` | mingfwq/iomanager.cpp:203-236 | the same for the one waiter of cancelEvent |
| `RuntimeEffects.CancelBothEffect` | mingfwq/iomanager.cpp:238-277 | the same for the waiters of cancelAll |
| `RuntimeEffects.AddUserCallEffect` | mingfwq/iomanager.cpp:89-152 | a user callback waits for exactly its event, or nothing happens |
| `RuntimeEffects.DelUserCallEffect` | mingfwq/iomanager.cpp:164-201 | its registration and the callback are gone, or nothing happens |
| `RuntimeEffects.TimeoutEffect` | mingfwq/hook.cpp:133-142 | a timeout marks a live unmarked call and wakes exactly its waiter, if registered; otherwise it does nothing |
| `RuntimeEffects.WakeUpEffect` | mingfwq/hook.cpp:191-193 | the end of a sleep puts the fiber last in the queue |
| `RuntimeTimeouts.TimeoutMarks` | mingfwq/hook.cpp:133-142 | after its timeout a live call is marked |
| `RuntimeTimeouts.TimedOutGivesUp` | mingfwq/hook.cpp:159-168 | over every run, a call that timed out past its registration never registers again |
| `RuntimeRuns.MoveSafe` | mingfwq/hook.cpp:116-168 | in every state of the invariant, a move of a worker, a fiber, the kernel or a timer meets a failed assertion if and only if it is a report beyond the registration, and otherwise leads to such a state |
| `RuntimeRuns.RunSafe` | mingfwq/hook.cpp:116-168 | over every interleaving: an assertion fires if and only if the kernel reports beyond the registration somewhere along the run; until then the invariant holds |
| `RuntimeRuns.EveryRunIsSafe` | mingfwq/scheduler.cpp:154-255 | the same from any set of workers and an empty queue |
| `RuntimeRuns.ParkedOnce` | mingfwq/hook.cpp:146-168 | a fiber parked by do_io is referenced by exactly one of its event context, the queue and the worker about to resume it, and was woken once per registration but the one it still waits on |
| `RuntimeRuns.NothingLost` | mingfwq/iomanager.cpp:33-46 | every suspended or ready fiber and every callback not yet used up has exactly one reference |
| `RuntimeRuns.ExclusiveExecution` | mingfwq/scheduler.cpp:183-203 | a fiber is EXEC exactly when some worker executes it, and only one does |
| `RuntimeRuns.ExactCounters` | mingfwq/scheduler.cpp:186-252 | m_activeThreadCount is the number of workers holding or executing an entry, m_idleThreadCount the number of idle ones, m_pendingEventCount the number of event bits |
| `RuntimeRuns.QuiescenceIsStable` | mingfwq/iomanager.cpp:297-302 | once stopping() is true, no move but an outside one dequeues, triggers or expires anything, and stopping() stays true |
| `RuntimeRuns.QuiescentForever` | mingfwq/scheduler.cpp:276-280 | the same over every run without outside moves: tasks and registrations never change again |
| `Uri.PlainCodes` | mingfwq/uri.rl.cpp:5566-5600 | the alphabets of the components by character code |
| `UriRoundTrip.DecimalValue` | mingfwq/uri.rl.cpp:10912-10917 | the decimal print of a port reads back as the port and has no leading zero |
| `UriRoundTrip.Defaults` | mingfwq/uri.rl.cpp:10879-10910 | the default ports 80 and 443 with their schemes, and the slash for an empty path |
| `UriRoundTrip.PrintedText` | mingfwq/uri.rl.cpp:10912-10924 | the printed text, part by part; an empty path prints as a slash does |
| `UriRoundTrip.Scan` | mingfwq/uri.rl.cpp:5566-5600 | a component with its percent-encodings is read through by its place, into the text since the mark |
| `UriRoundTrip.UserPart` | mingfwq/uri.rl.cpp:5876-5979 | user information up to '@' is saved whole, unless its first ':' is followed by a digit: then only what follows the ':' is |
| `UriRoundTrip.AfterAuthority` | mingfwq/uri.rl.cpp:5566-5635 | after an authority a path, a query and a fragment, each present or not, are saved as written |
| `UriRoundTrip.PortThen` | mingfwq/uri.rl.cpp:5876-5906 | after the ':' of an authority: digits in the range of int are saved, leading zeros included; none, or a number beyond, is undefined |
| `UriRoundTrip.HostPart` | mingfwq/uri.rl.cpp:6017-6060 | from the host on: host, port, path, query and fragment are saved, or the port makes the outcome undefined |
| `UriRoundTrip.SchemePart` | mingfwq/uri.rl.cpp:5264-5355 | the scheme up to "://" is saved |
| `UriRoundTrip.ParseExact` | mingfwq/uri.rl.cpp:21-10873 | for every scheme, optional user information, host, optional port digits, path, optional query and optional fragment of the grammar: the written string is accepted, component by component, if and only if the port is absent or a non-empty number in the range of int; otherwise the outcome is undefined |
| `UriRoundTrip.PrintThenParse` | mingfwq/uri.rl.cpp:10912-10924 | parsing the print of a well-formed URI succeeds and returns it component by component, default port and empty path normalised |
| `UriRoundTrip.KeptUserMeans` | mingfwq/uri.rl.cpp:5876-5906 | what is kept of user information: all, or what follows its first ':' if that is a digit |
| `UriRoundTrip.RoundTrip` | mingfwq/uri.rl.cpp:10879-10924 | the parse agrees on scheme, host, getPath, getPort, query and fragment, its path is the original or a slash, and user information agrees if and only if its first ':' is not directly followed by a digit |
| `UriGrammar.StepGood` | mingfwq/uri.rl.cpp:42-10600 | every transition keeps: saved components follow the grammar, and the text since the mark fits the place |
| `UriGrammar.ParsePrintParse` | mingfwq/uri.rl.cpp:21-10924 | printing a parse and parsing again succeeds exactly when the first parse found a scheme, and then agrees with it |
| `UriGrammar.NoScheme` | mingfwq/uri.rl.cpp:42-69 | a URI without scheme prints as something that is rejected |
| `UriGrammar.EmptyPortNeverAccepted` | mingfwq/uri.rl.cpp:5876-5900 | "scheme://[user@]host:" followed by the end, '/', '?' or '#', whether or not the rest is of the grammar, is undefined or rejected; on strings of the grammar `UriRoundTrip.ParseExact` says undefined |
| `UriLanguage.StepTracks` | mingfwq/uri.rl.cpp:42-10600 | every transition keeps: what was read so far is spelled by the components saved, the text since the mark and the separators, or nothing can be accepted any more |
| `UriLanguage.AcceptedIsSpelled` | mingfwq/uri.rl.cpp:21-10873 | an accepted string with a scheme is `scheme:`, `scheme:/` or the written form of grammatical parts with a port absent or in range, and exactly those parts are returned |
| `UriLanguage.AcceptedExactly` | mingfwq/uri.rl.cpp:21-10873 | the strings accepted with a scheme are exactly these |
| `UriParser.Atoi` | mingfwq/uri.rl.cpp:10619-10625 | reads the maximal run of digits from the mark and returns its value |
| `UriParser.Act` | mingfwq/uri.rl.cpp:98-140 | an action on positions has the effect it has on captured text |
| `UriParser.Create` | mingfwq/uri.rl.cpp:21-10873 | the loop over `p`, `cs` and `mark` returns exactly what the automaton on captured text returns, error and undefined outcomes included |

## Left out

- `getReadBuffers` (both overloads): subtracts the next node's size and runs past the last node, so no general contract holds.
- `readBouble`, and the const `read` at a position other than the cursor: same copy loop from a cursor that does not match the position.
- Floating-point meaning: floats and doubles travel as the raw 4 or 8 bytes of the fixed-width codecs.
- `toHexString`, `writeStringFWithoutLength` and other one-line wrappers: only easy members.
- Overflow of `size_t` in sizes, positions and capacities.
- The deletion of nodes in `clear` and in the destructor: here they become unreachable.
- Real epoll, pipes, sockets, `ucontext` switching, locks, file streams and the system clock.
- Races inside a step: a state written before the context switch, non-atomic reads in `stopping()`, two concurrent `contextResize` calls.
- The idle fiber is a phase of its worker, not a fiber of its own; how a worker leaves `run` after `stopping()` is not modelled.
- `start`, `stop` beyond its two flags (one flag here), thread creation and joining, the root fiber of a `use_caller` scheduler.
- `do_io` and the sleep hooks are steps on values (`Runtime.dfy`), since other threads act between any two of them; updates in place are modelled in the classes of the components they call.
- `connect_with_timeout`: the same register, arm, park protocol as `do_io`, not modelled separately.
- The `close`, `fcntl`, `ioctl` and socket-option hooks and `FdManager`.
- Timers added with an empty callback, and removal of a manager that still has timers.
- `Stream` calls that return negative values; they are stored in an unsigned variable.
- URI relative references, IP literals, paths without authority, and the control character 2 that the IPv4 rule of the grammar admits: the automaton model answers `Unmodelled` there. States that only track IPv4 digits are merged with the registered-name states, whose actions they share.
- `createAddress`, the HTTP parsers and servers, addresses, sockets, configuration and logging.
- Scheduler.Scheduler.Work: a lone worker; interleavings of several are the subject of `RuntimeRuns`.
- Timers.AwakeInTime: one uninterrupted `epoll_wait`; after a signal the loop in `idle` starts the whole timeout again (mingfwq/iomanager.cpp:336), which no bound on the sleep covers.
