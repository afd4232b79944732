# QuantumGate core: a Dafny model

This project models the lower layers of QuantumGate, a C++ library for peer-to-peer networking, and
proves the properties those layers exist for. Each module follows one or two source files.

- **Locks.** `RecursiveSharedMutex` (critical section, two condition variables, recursion, a pending
  writer) and `SharedSpinMutex` (one word changed by compare-and-exchange) are step protocols. Every stay in
  the critical section, every load and every exchange is one step of one thread; any thread may move next,
  notifications are sent after the critical section is left, sleepers may wake spuriously, and the number
  of threads is unbounded.
- **Allocators.** `LinearPoolAllocator` bumps an offset over 4 MB slabs; `PoolAllocator` caches buffers in
  size classes above it. A ghost map of live blocks states who owns what across both.
- **Handshake.** `HandshakeExtender` is two endpoints, a lossy FIFO link, timeouts, key wiping and chat.
- **Scheduling.** `DequeMap` is a round robin over deques.
- **Wire formats.** `BufferIO`, `BufferWriter` and `BufferReader` are the field codec; `Message` is a
  header and data that may be compressed; `MessageTransport` hides sizes, adds random padding and prefixes and
  runs over a stream cut anywhere. `ByteStream` is the theory of such streams, for any pieces that the
  receiver recognises; `MessageStream` puts all of it together.
- **Smaller cores.** `ThreadLocalCache`, `VerificationQueue` and `PublicEndpoints`, `RingBuffer`,
  `BinaryIPAddress` and `Checksum`.

The code's objects are classes whose methods change their fields; each method is proved against a function or
relation of the old state, and the properties are lemmas about those. The model is of release behaviour,
in which a failing `assert` is ignored. Compression, HMAC, encryption, key exchange, randomness, clocks and
running out of memory are parameters; the algebraic laws the first four must obey are the `Lawful`
hypotheses of each module.

## What turned out not to hold

Each of these is proved with its exact condition:

- `RecursiveSharedMutex`: when the shared count reaches its maximum, two releases can wake only one of two
  waiting readers. Some run loses a wake-up if and only if there are three threads or more
  (`LosesAWakeUpIff`); in runs that never fill the count none is lost (`NoWakeUpIsLost`).
- `SharedSpinMutex`: the shift in `MakeState` drops the top bit, so the true bound on shared locks is
  2^31 - 1, not `MaxNumSharedLocks`. The word is exact all through a run if and only if the run stays
  below 2^31 (`ExactIffWithin`); at 2^31 a writer walks in on the readers (`BoundIsTight`).
- `LinearPoolAllocator`: an allocation is given an address that is already live if and only if a condition on
  the state before it holds (`AddressIsLiveOverAnyRun`): a live empty allocation lies where it will go, or it is
  empty, its slab is full and a live block begins where that ends, or the like for a new slab. Where all that
  is live has bytes only the second is left (`LiveBlockIsSharedIff`, and a state in `EmptyOnLiveBlock`); of two
  allocations in a row see `SharesItsAddressIff`. The pool above never asks for zero bytes.
- `ThreadLocalCache`: the comment says a wrap of the flag is harmless. A flag matches a copy if and only if no
  update raised it since, or a whole number of cycles did (`FlagMatchesIff`); passing zero, the flag of a
  copy never made, it hands a reader a default-constructed value. A stale value can be served if and only if
  the starting flag and the number of updates add up to 2^32 or more (`StaleIffWrapped`).
- `PublicEndpoints`: a report makes the tables forget its network, known before, if and only if the reporter is
  trusted and there is no record for the address and none can be made (`KnownNetworkForgottenIff`).
- `CalculateChecksum`: right if and only if no carry is lost from the 32-bit sum, or 65535 of them or a multiple
  and something is left (`ExactlyWhenRight`); up to 65537 words none is.
- `BinaryIPAddress`: the range check means "same network" if and only if the range starts at a network
  address (`RangeIsNetworkIff`).

## Model

| member | source | states |
|---|---|---|
| RecursiveSharedMutexModel.RecursiveSharedMutex.Lock | QuantumGateLib/Concurrency/RecursiveSharedMutex.cpp:11-49 | the first stay of `lock` in the critical section: re-entry, refusal at full depth, sleeping, or taking ownership |
| RecursiveSharedMutexModel.RecursiveSharedMutex.ResumeLock | QuantumGateLib/Concurrency/RecursiveSharedMutex.cpp:36-47 | what a woken `lock` does, sleeping again while another writer owns |
| RecursiveSharedMutexModel.RecursiveSharedMutex.TryLock | QuantumGateLib/Concurrency/RecursiveSharedMutex.cpp:51-82 | never waits; succeeds by re-entry or when nobody holds anything |
| RecursiveSharedMutexModel.RecursiveSharedMutex.Unlock | QuantumGateLib/Concurrency/RecursiveSharedMutex.cpp:84-108 | the last release clears the owner and owes a notify-all |
| RecursiveSharedMutexModel.RecursiveSharedMutex.LockShared | QuantumGateLib/Concurrency/RecursiveSharedMutex.cpp:110-127 | a reader enters, or sleeps behind a writer or a full count |
| RecursiveSharedMutexModel.RecursiveSharedMutex.TryLockShared | QuantumGateLib/Concurrency/RecursiveSharedMutex.cpp:129-144 | refused behind a writer or a full count |
| RecursiveSharedMutexModel.RecursiveSharedMutex.UnlockShared | QuantumGateLib/Concurrency/RecursiveSharedMutex.cpp:146-176 | which notification a reader that leaves owes |
| RecursiveSharedMutexModel.SafeStep | QuantumGateLib/Concurrency/RecursiveSharedMutex.cpp:11-176 | every step of every thread keeps the counters equal to what the threads hold |
| RecursiveSharedMutexModel.InvStep | QuantumGateLib/Concurrency/RecursiveSharedMutex.cpp:11-176 | every step keeps safety and owed notifications together |
| RecursiveSharedMutexModel.ExclusiveHolderIsAlone | QuantumGateLib/Concurrency/RecursiveSharedMutex.cpp:11-176 | in every reachable state a thread whose lock returned is the only holder, its depth is the exclusive count, and the shared count is the number of shared locks held |
| RecursiveSharedMutexModel.PendingWriterBlocksReaders | QuantumGateLib/Concurrency/RecursiveSharedMutex.cpp:40-47 | while a writer is pending the shared count only falls |
| RecursiveSharedMutexModel.NoWakeUpIsLost | QuantumGateLib/Concurrency/RecursiveSharedMutex.cpp:97-107 | in runs that never fill the shared count, a sleeper whose condition may hold is owed a notification, and at most one thread sleeps on the second condition |
| RecursiveSharedMutexModel.QuietSleepersWaitForHolders | QuantumGateLib/Concurrency/ConditionVariable.h:42-63 | once every owed notification is delivered, a thread still asleep is waiting for someone who holds the lock |
| RecursiveSharedMutexModel.LosesAWakeUpIff | QuantumGateLib/Concurrency/RecursiveSharedMutex.cpp:117-175 | some run leaves a reader asleep with the lock free for readers and nothing owed exactly when there are three threads or more, and then even with no other call under way |
| RecursiveSharedMutexModel.LockOutcome | QuantumGateLib/Concurrency/RecursiveSharedMutex.cpp:11-49 | the owner gains a level below the maximum; anyone else sleeps just when another thread has or is halfway into the lock, waits for the readers just when there are some, and otherwise has it |
| RecursiveSharedMutexModel.TryLockOutcome | QuantumGateLib/Concurrency/RecursiveSharedMutex.cpp:51-82 | `try_lock` gets the lock just where `lock` would without sleeping, and otherwise changes nothing |
| RecursiveSharedMutexModel.LockSharedOutcome | QuantumGateLib/Concurrency/RecursiveSharedMutex.cpp:110-127 | a reader gets in just when nobody has or is halfway into the exclusive lock and one more reader can be counted |
| RecursiveSharedMutexModel.TryLockSharedOutcome | QuantumGateLib/Concurrency/RecursiveSharedMutex.cpp:129-144 | the same without sleeping |
| RecursiveSharedMutexModel.ResumeOutcome | QuantumGateLib/Concurrency/RecursiveSharedMutex.cpp:36-47 | a woken sleeper gets what it came for just when what it waited for has come about |
| RecursiveSharedMutexModel.UnlockOutcome | QuantumGateLib/Concurrency/RecursiveSharedMutex.cpp:84-176 | one lock less, and a notification owed for the last exclusive one, for the last shared one a writer waits for, and for the one that kept the count full |
| RecursiveSharedMutexModel.ReachableIsSafe | QuantumGateLib/Concurrency/RecursiveSharedMutex.cpp:11-176 | every reachable state is one to which these apply |
| SharedSpinMutexModel.AtomicState.CompareExchange | QuantumGateLib/Concurrency/SharedSpinMutex.h:23-121 | the word changes only from the value the thread saw, and weak exchanges may fail anyway |
| SharedSpinMutexModel.BodyKeeps | QuantumGateLib/Concurrency/SharedSpinMutex.h:23-121 | one access, with a snapshot of any age, keeps the word equal to who claims and who reads |
| SharedSpinMutexModel.InvStep | QuantumGateLib/Concurrency/SharedSpinMutex.h:23-121 | every step of any thread keeps it, below 2^31 readers |
| SharedSpinMutexModel.WordIsExactAndWriterIsAlone | QuantumGateLib/Concurrency/SharedSpinMutex.h:23-121 | in every reachable state the word encodes exactly the claim and the readers, and a writer inside excludes all others |
| SharedSpinMutexModel.ClaimBlocksReaders | QuantumGateLib/Concurrency/SharedSpinMutex.h:23-50 | after the claim the reader count only falls |
| SharedSpinMutexModel.CountFitsIff | QuantumGateLib/Concurrency/SharedSpinMutex.h:141-181 | one more reader is counted exactly when the count stays below 2^31 |
| SharedSpinMutexModel.BoundIsTight | QuantumGateLib/Concurrency/SharedSpinMutex.h:84-103 | a run in which 2^31 readers and a writer are inside together |
| SharedSpinMutexModel.ExactIffWithin | QuantumGateLib/Concurrency/SharedSpinMutex.h:23-181 | the word is exact in every state of a run exactly when every state has fewer than 2^31 shared locks |
| SharedSpinMutexModel.LockGetsThere | QuantumGateLib/Concurrency/SharedSpinMutex.h:23-50 | a thread alone claims an unclaimed lock in its second step, and without readers has it after four |
| SharedSpinMutexModel.DrainEnds | QuantumGateLib/Concurrency/SharedSpinMutex.h:39-49 | once the readers have left, two more steps of the draining writer bring it in, whatever the others do in between |
| SharedSpinMutexModel.LockSharedGetsThere | QuantumGateLib/Concurrency/SharedSpinMutex.h:79-103 | a thread alone is counted as one more reader in two steps, while nobody claims the lock |
| SharedSpinMutexModel.UnlockGetsThere | QuantumGateLib/Concurrency/SharedSpinMutex.h:64-121 | a thread alone clears the flag, or takes one reader off, in two steps |
| SharedSpinMutexModel.TryLockOutcome | QuantumGateLib/Concurrency/SharedSpinMutex.h:52-62 | alone it succeeds just when nobody claims or reads, and otherwise changes nothing |
| SharedSpinMutexModel.ReturnsOnlyWithSuccess | QuantumGateLib/Concurrency/SharedSpinMutex.h:23-121 | however often an exchange fails, a call returns only with what it is for, a try perhaps without and then with nothing changed |
| LinearPoolAllocatorModel.LinearPool.Allocate | QuantumGateLib/Memory/LinearPoolAllocatorImpl.h:123-193 | first fit over the slabs, a new slab if none fits, refusal above the slab size |
| LinearPoolAllocatorModel.LinearPool.Deallocate | QuantumGateLib/Memory/LinearPoolAllocatorImpl.h:195-237 | the first slab that knows the address forgets it, and goes if it was its last |
| LinearPoolAllocatorModel.LinearPool.DeallocateAll | QuantumGateLib/Memory/PoolAllocatorImpl.h:362-406 | giving back a set of buffers one by one, in any order, has one outcome |
| LinearPoolAllocatorModel.PlaceKeeps | QuantumGateLib/Memory/LinearPoolAllocatorImpl.h:123-193 | a new block lies in a live slab and apart from every other block |
| LinearPoolAllocatorModel.ReleaseKeeps | QuantumGateLib/Memory/LinearPoolAllocatorImpl.h:195-237 | no slab goes while a block that stays lies in it |
| LinearPoolAllocatorModel.AllReleasable | QuantumGateLib/Memory/LinearPoolAllocatorImpl.h:195-237 | owned blocks can be given back in any order, each known when its turn comes |
| LinearPoolAllocatorModel.AddressIsLiveOverAnyRun | QuantumGateLib/Memory/LinearPoolAllocatorImpl.h:123-237 | after any run of allocations, empty ones among them, and deallocations, the next allocation is given a live address exactly when the state says so beforehand |
| LinearPoolAllocatorModel.LiveBlockIsSharedIff | QuantumGateLib/Memory/LinearPoolAllocatorImpl.h:123-193 | where all that is live has bytes: exactly for an empty allocation when the first slab is full and a live block begins where it ends |
| LinearPoolAllocatorModel.EmptyOnLiveBlock | QuantumGateLib/Memory/LinearPoolAllocatorImpl.h:123-237 | such a state, and what giving the address back once and twice does |
| LinearPoolAllocatorModel.SharesItsAddressIff | QuantumGateLib/Memory/LinearPoolAllocatorImpl.h:123-193 | two allocations in a row have one address exactly when the first is empty and the second finds room in its slab, or is put just where that slab is full |
| LinearPoolAllocatorModel.DeallocForgets | QuantumGateLib/Memory/LinearPoolAllocatorImpl.h:195-237 | after one deallocation an address stays live exactly where a later slab knows it too |
| LinearPoolAllocatorModel.SharedAddressIsFreedOnce | QuantumGateLib/Memory/LinearPoolAllocatorImpl.h:195-237 | freeing the address of an empty allocation and the next one frees both, and leaves it live exactly if an older block has it |
| LinearPoolAllocatorModel.PlaceOutcome | QuantumGateLib/Memory/LinearPoolAllocatorImpl.h:123-193 | the first slab with room is used at its offset, and only where none has room a new one; no other slab changes |
| PoolAllocatorModel.GetAllocationDetails | QuantumGateLib/Memory/PoolAllocatorImpl.h:175-193 | the doubling loop finds the size class of a managed size |
| PoolAllocatorModel.SizeClassIsLeast | QuantumGateLib/Memory/PoolAllocatorImpl.h:175-193 | the class is the least minimum times a power of two that holds the size, and fits a slab |
| PoolAllocatorModel.PoolAllocator.AllocateFromPool | QuantumGateLib/Memory/PoolAllocatorImpl.h:196-283 | the new state and address, from the free list or a new buffer |
| PoolAllocatorModel.PoolAllocator.FreeToPool | QuantumGateLib/Memory/PoolAllocatorImpl.h:286-359 | the buffer is kept, or destroyed when enough are kept already |
| PoolAllocatorModel.PoolAllocator.FreeUnused | QuantumGateLib/Memory/PoolAllocatorImpl.h:362-406 | sweeps every class: no free buffer is left, classes without live blocks go, live blocks stay |
| PoolAllocatorModel.AllocatedKeeps | QuantumGateLib/Memory/PoolAllocatorImpl.h:196-283 | allocating keeps the invariant of both levels and hands out a block nobody holds |
| PoolAllocatorModel.FreedKeeps | QuantumGateLib/Memory/PoolAllocatorImpl.h:286-359 | freeing a live block keeps the invariant and is never refused |
| PoolAllocatorModel.SizeTestDecides | QuantumGateLib/Memory/PoolAllocatorImpl.h:368-393 | free list and buffer map have equal size exactly when no buffer of the class is live |
| PoolAllocatorModel.SweptKeeps | QuantumGateLib/Memory/PoolAllocatorImpl.h:362-406 | a sweep keeps the invariant and gives up exactly the blocks that are not live |
| PoolAllocatorModel.InvRun | QuantumGateLib/Memory/PoolAllocatorImpl.h:196-406 | the invariant holds over any run of allocations, frees and sweeps |
| PoolAllocatorModel.LiveBlocksAreExclusive | QuantumGateLib/Memory/PoolAllocatorImpl.h:196-406 | over any run live blocks are disjoint, large enough and inside live slabs |
| PoolAllocatorModel.ClassesPartition | QuantumGateLib/Memory/PoolAllocatorImpl.h:292-340 | over any run, per class: free list without duplicates, buffers minus free list is the live set, retention limits kept |
| PoolAllocatorModel.FreedIsKeptIff | QuantumGateLib/Memory/PoolAllocatorImpl.h:286-359 | a block given back goes to the front of its free list just when that has at most 20 entries and 16 MB, and otherwise is known nowhere any more; nothing else changes |
| PoolAllocatorModel.ServedFromFreeList | QuantumGateLib/Memory/PoolAllocatorImpl.h:196-283 | a class with free buffers serves the first of them and leaves the slabs alone; one without gets a new buffer of its size |
| PoolAllocatorModel.LastFreedIsReused | QuantumGateLib/Memory/PoolAllocatorImpl.h:196-359 | the next request of a class gets the block last kept there, and all else is as before |
| HandshakeExtenderModel.Peer.ProcessPublicKeyMessage | Examples/QuantumGateExtenderHandshake/HandshakeExtender.cpp:212-259 | which side acts on a public key, in which state, and what it sends |
| HandshakeExtenderModel.Peer.ProcessReadyMessage | Examples/QuantumGateExtenderHandshake/HandshakeExtender.cpp:261-303 | either side becomes ready once and wipes its key pair |
| HandshakeExtenderModel.Peer.ProcessChatMessage | Examples/QuantumGateExtenderHandshake/HandshakeExtender.cpp:305-328 | chat is opened only when ready |
| HandshakeExtenderModel.Peer.Visit | Examples/QuantumGateExtenderHandshake/HandshakeExtender.cpp:341-377 | the main thread times a peer out, or starts the handshake on the inbound side |
| HandshakeExtenderModel.StepKeeps | Examples/QuantumGateExtenderHandshake/HandshakeExtender.cpp:212-377 | every step keeps both ends and the link at one stage of the handshake |
| HandshakeExtenderModel.HandshakeIsSafe | Examples/QuantumGateExtenderHandshake/HandshakeExtender.cpp:212-377 | over any run: one handshake message in flight at most, inbound ready only if outbound is, equal shared keys, no wiped key used |
| HandshakeExtenderModel.KeysNeverChange | Examples/QuantumGateExtenderHandshake/HandshakeExtender.cpp:212-303 | after either side is ready no shared key changes |
| HandshakeExtenderModel.ChatIsUnderstood | Examples/QuantumGateExtenderHandshake/HandshakeExtender.cpp:426-503 | what a ready side seals, the other side reads whenever it is ready later |
| HandshakeExtenderModel.HandshakeCompletes | Examples/QuantumGateExtenderHandshake/HandshakeExtender.cpp:212-377 | from every state reached without losing a message, with both ends there, one visit at most and then deliveries make both sides ready |
| HandshakeExtenderModel.PublicKeyOutcome | Examples/QuantumGateExtenderHandshake/HandshakeExtender.cpp:212-259 | a key is taken just by the side whose turn it is, and what it is left with and says if the answer can, or cannot, be sent |
| HandshakeExtenderModel.ReadyOutcome | Examples/QuantumGateExtenderHandshake/HandshakeExtender.cpp:261-303 | just who becomes ready, the outbound side only if it can say so, and which keys are left |
| HandshakeExtenderModel.ChatOutcome | Examples/QuantumGateExtenderHandshake/HandshakeExtender.cpp:305-328 | text is sent just by a ready side and shown, as it was, just by a ready side |
| HandshakeExtenderModel.VisitOutcome | Examples/QuantumGateExtenderHandshake/HandshakeExtender.cpp:341-377 | a side that is not ready after more than ten seconds is given up without a word, no other is, and a new inbound side begins |
| HandshakeExtenderModel.ExceptionIsFinal | Examples/QuantumGateExtenderHandshake/HandshakeExtender.cpp:212-377 | over any run, a side given up stays so and sends nothing |
| HandshakeExtenderModel.HandshakeTimesOut | Examples/QuantumGateExtenderHandshake/HandshakeExtender.cpp:341-377 | a side visited more than ten seconds after it joined, with any run in between, is ready by then or never will be |
| DequeMapModel.DequeMap.PopFrontIf | QuantumGateLib/Concurrency/DequeMap.h:124-145 | offers the front of the next non-empty deque in turn and removes it if accepted |
| DequeMapModel.DequeMap.Push | QuantumGateLib/Concurrency/DequeMap.h:208-296 | all variants: an unknown key or a throwing callback leaves the map unchanged |
| DequeMapModel.DequeMap.Insert | QuantumGateLib/Concurrency/DequeMap.h:111-115 | a new key goes to its place in order, an old one changes nothing |
| DequeMapModel.DequeMap.Erase | QuantumGateLib/Concurrency/DequeMap.h:117-121 | the key and its deque go |
| DequeMapModel.DistanceFalls | QuantumGateLib/Concurrency/DequeMap.h:124-145 | each call brings the turn closer to a non-empty deque that was not offered |
| DequeMapModel.Fairness | QuantumGateLib/Concurrency/DequeMap.h:124-145 | with n keys a deque that stays non-empty is offered within n calls, whatever happens between |
| DequeMapModel.FairnessIsTight | QuantumGateLib/Concurrency/DequeMap.h:124-145 | and the bound cannot be lowered |
| DequeMapModel.PushConserves | QuantumGateLib/Concurrency/DequeMap.h:208-296 | a push that succeeds adds just its element to the whole |
| DequeMapModel.PopConserves | QuantumGateLib/Concurrency/DequeMap.h:124-145 | a pop takes just the accepted front |
| DequeMapModel.PerKeyOrder | QuantumGateLib/Concurrency/DequeMap.h:124-296 | per key, over any run, what was there and came in is what went out and is left, in order |
| DequeMapModel.PushOutcome | QuantumGateLib/Concurrency/DequeMap.h:208-296 | succeeds just when the key exists and the callback returns; the element is then first or last of its deque, and no other deque changes |
| DequeMapModel.PopOutcome | QuantumGateLib/Concurrency/DequeMap.h:124-145 | which deque is offered, that just an accepted front goes, and where the turn is afterwards |
| DequeMapModel.InsertOutcome | QuantumGateLib/Concurrency/DequeMap.h:111-115 | afterwards the key exists, with what it held or nothing; all else is as before |
| DequeMapModel.EraseOutcome | QuantumGateLib/Concurrency/DequeMap.h:117-121 | afterwards the key does not exist; all else is as before |
| BufferWriterModel.BufferWriter.WriteBytes | QuantumGateLib/Memory/BufferWriter.h:171-198 | the loop appends the bytes, reversed for network order |
| BufferWriterModel.BufferWriter.WriteEncodedSize | QuantumGateLib/Memory/BufferWriter.h:141-169 | a size in one, three, five or nine bytes, refused above its maximum |
| BufferWriterModel.BufferWriter.WriteWithPreallocation | QuantumGateLib/Memory/BufferWriter.h:50-63 | writes a list of fields and leaves the buffer exactly as large as was preallocated |
| BufferWriterModel.WrittenSizes | QuantumGateLib/Memory/BufferIO.h:106-176 | the bytes written are as many as `GetDataSizes` says |
| BufferReaderModel.BufferReader.Read | QuantumGateLib/Memory/BufferReader.h:27-37 | reads a list of fields and moves the pointer past them |
| BufferReaderModel.BufferReader.ReadSize | QuantumGateLib/Memory/BufferReader.h:178-216 | an encoded size, refused above its maximum |
| BufferReaderModel.BufferReader.ReadBytes | QuantumGateLib/Memory/BufferReader.h:219-246 | the loop takes bytes, reversed for network order, or refuses |
| BufferReaderModel.EncodedSizeRoundTrip | QuantumGateLib/Memory/BufferReader.h:178-216 | every encoded size reads back, in all four ranges and both byte orders |
| BufferReaderModel.FieldRoundTrip | QuantumGateLib/Memory/BufferReader.h:40-175 | every field, nested as deep as you like, reads back and consumes exactly its bytes |
| BufferReaderModel.FieldsRoundTrip | QuantumGateLib/Memory/BufferReader.h:27-246 | and so does every list of fields |
| BufferReaderModel.WireFormIsUnambiguous | QuantumGateLib/Memory/BufferWriter.h:38-198 | two lists of values written under one schema differ in their bytes, whatever follows them |
| BufferReaderModel.TruncatedIsRefused | QuantumGateLib/Memory/BufferReader.h:27-246 | every part short of the whole of what was written is refused under the same schema |
| BufferReaderModel.OversizedIsRefused | QuantumGateLib/Memory/BufferReader.h:178-216 | an encoded size over the maximum is refused |
| MessageModel.Message.Initialize | QuantumGateLib/Core/Message.cpp:12-37 | the header that options make, with its fragment flag, and validation |
| MessageModel.Message.Validate | QuantumGateLib/Core/Message.cpp:296-347 | valid exactly for a known type, a matching size and at most the maximum of data |
| MessageModel.Message.Write | QuantumGateLib/Core/Message.cpp:225-294 | compression if it helps, header, body, and the size limit |
| MessageModel.Message.Read | QuantumGateLib/Core/Message.cpp:166-223 | header, size check, decompression |
| MessageModel.GetFromBuffer | QuantumGateLib/Core/Message.cpp:349-369 | takes the first whole frame and nothing else |
| MessageModel.HeaderRoundTrip | QuantumGateLib/Core/Message.cpp:55-118 | 21 bits of size, 11 of type, the flags and an extender's UUID read back, whatever follows |
| MessageModel.MessageRoundTrip | QuantumGateLib/Core/Message.cpp:166-294 | type, fragment kind, data and an extender's UUID survive, compressed or not, within the transport's limit |
| MessageModel.FramesSplitBack | QuantumGateLib/Core/Message.cpp:349-369 | any concatenation of written messages splits back into exactly them |
| MessageModel.HeaderOutcome | QuantumGateLib/Core/Message.cpp:55-118 | which bytes are read as a header, and what it says |
| MessageModel.ReadOutcome | QuantumGateLib/Core/Message.cpp:166-223 | which bytes are read as a message, what its data is, and when it is valid |
| MessageModel.CompressionOutcome | QuantumGateLib/Core/Message.cpp:225-294 | a message is compressed just when asked for, of 128 bytes or more, and made smaller by it |
| MessageModel.NoFrameBeforeTheEnd | QuantumGateLib/Core/Message.cpp:349-369 | no part of a message short of the whole is taken for a frame |
| MessageTransportModel.ObfuscationRoundTrip | QuantumGateLib/Core/MessageTransport.cpp:62-108 | a 20-bit size comes back whatever the random bits and XOR mask |
| MessageTransportModel.OffsetLimitIsExact | QuantumGateLib/Core/MessageTransport.h:153 | every 20-bit size comes back exactly when the offset is at most 12 |
| MessageTransportModel.MessageTransport.SetMessageData | QuantumGateLib/Core/MessageTransport.cpp:192-225 | the data, and padding drawn anew within what room is left |
| MessageTransportModel.PaddingFits | QuantumGateLib/Core/MessageTransport.cpp:203-221 | padding never pushes a message over its limit, and keeps to the settings where they fit |
| MessageTransportModel.MessageTransport.Write | QuantumGateLib/Core/MessageTransport.cpp:333-412 | inner header, padding, data, encryption, outer header, prefix, and both size checks |
| MessageTransportModel.MessageTransport.Read | QuantumGateLib/Core/MessageTransport.cpp:253-331 | success, failure, or a retry with another key when the HMAC differs |
| MessageTransportModel.SizeChecksPass | QuantumGateLib/Core/MessageTransport.cpp:350-384 | a message that may be sent is never refused for its size |
| MessageTransportModel.FrameRoundTrip | QuantumGateLib/Core/MessageTransport.cpp:253-412 | a frame read under the seed found in it gives back inner header and data |
| MessageTransportModel.PeekIsExact | QuantumGateLib/Core/MessageTransport.cpp:414-474 | not enough data on every part short of a whole message, complete from there on, and the cut takes exactly it |
| MessageTransportModel.AnyChunking | QuantumGateLib/Core/MessageTransport.cpp:414-474 | after any chunks, in calls of any limits, the first of the messages sent were handed on, what came in is their bytes and what is buffered, and no whole message waits unless the last call reached its limit |
| MessageTransportModel.MessagesRecognised | QuantumGateLib/Core/MessageTransport.cpp:414-474 | messages with chained random prefixes are recognised just when they are whole, one after the other |
| MessageTransportModel.StreamRoundTrip | QuantumGateLib/Core/MessageTransport.cpp:253-474 | a whole stream with chained random prefixes, in any chunks, delivers the sent sequence, however little each call may do |
| MessageTransportModel.Sender.Send | QuantumGateLib/Core/Peer/Peer.cpp:986-1043 | what a sender has sent is always such a stream, and data within the limit is sent if it can be encrypted |
| MessageTransportModel.Receiver.GetFromBuffer | QuantumGateLib/Core/MessageTransport.cpp:440-474 | the first frame leaves the buffer, with the prefix before it |
| MessageTransportModel.Receiver.ReceiveAndProcess | QuantumGateLib/Core/Peer/Peer.cpp:1149-1202 | peek, then take complete messages while there are any and the burst limit is not reached, following the announced prefix lengths |
| MessageTransportModel.ReadOutcome | QuantumGateLib/Core/MessageTransport.cpp:253-331 | for any bytes: a retry just when the size is right and the HMAC differs, success just when both agree and an inner header at least comes out, and failure otherwise |
| MessageTransportModel.ChangedHmacIsNoticed | QuantumGateLib/Core/MessageTransport.cpp:287-317 | a written frame with other bytes for its HMAC is never accepted, under any seed |
| MessageTransportModel.WriteOutcome | QuantumGateLib/Core/MessageTransport.cpp:333-412 | refused just when data and padding are too large together, encryption fails, or what it gives is too large |
| MessageTransportModel.OversizedIsRefused | QuantumGateLib/Core/MessageTransport.cpp:414-438 | a header whose size is above the limit is refused as soon as it is whole |
| MessageTransportModel.BadDataFails | QuantumGateLib/Core/Peer/Peer.cpp:1149-1202 | a receiver that finds something too large, or a frame it cannot accept, has failed |
| ByteStreamModel.ProcessAll | QuantumGateLib/Core/Peer/Peer.cpp:1149-1202 | one call hands on all whole pieces or as many as reach its limit, and at least one if there is one |
| ByteStreamModel.AnyChunking | QuantumGateLib/Core/Peer/Peer.cpp:1117-1222 | the same over any calls, for any pieces the receiver recognises |
| ByteStreamModel.WholeStream | QuantumGateLib/Core/Peer/Peer.cpp:1117-1222 | everything is delivered at once if no limit can be reached, and always after as many more calls as there are pieces |
| MessageStreamModel.MessagesArrive | QuantumGateLib/Core/Message.cpp:349-369 | batches of messages sent over such a stream arrive as the same messages |
| ThreadLocalCacheModel.FlagMatchesIff | QuantumGateLib/Concurrency/ThreadLocalCache.h:106-109 | the flag matches exactly when no update raised it since the copy, or a whole number of cycles did |
| ThreadLocalCacheModel.InvStep | QuantumGateLib/Concurrency/ThreadLocalCache.h:53-104 | every step of writers and readers keeps each copy at least as new as its flag says |
| ThreadLocalCacheModel.GetCacheIsFresh | QuantumGateLib/Concurrency/ThreadLocalCache.h:53-71 | a value at least as new as every update that had returned when the call began, unless the flag wrapped |
| ThreadLocalCacheModel.CopiesNeverGoBack | QuantumGateLib/Concurrency/ThreadLocalCache.h:88-95 | no thread's copy is ever replaced by an older one |
| ThreadLocalCacheModel.WrappedFlagServesNoValue | QuantumGateLib/Concurrency/ThreadLocalCache.h:68-70 | for every starting flag and enough updates a run in which a reader gets a default-constructed value |
| ThreadLocalCacheModel.StaleIffWrapped | QuantumGateLib/Concurrency/ThreadLocalCache.h:53-71 | a stale value can be served exactly when starting flag and number of updates reach the flag's range |
| ThreadLocalCacheModel.ThreadLocalCache.IsCacheExpired | QuantumGateLib/Concurrency/ThreadLocalCache.h:106-109 | expired exactly when the flag was raised since the copy, but for whole cycles |
| ThreadLocalCacheModel.UpdateOutcome | QuantumGateLib/Concurrency/ThreadLocalCache.h:60-71 | an update alone: the value is what its function makes of the last one, the flag is raised once, no copy changes |
| ThreadLocalCacheModel.GetLooks | QuantumGateLib/Concurrency/ThreadLocalCache.h:53-58 | a call returns its copy at once just when the flag is the copy's, whoever holds the mutex |
| ThreadLocalCacheModel.GetCopies | QuantumGateLib/Concurrency/ThreadLocalCache.h:53-95 | otherwise, with the mutex free, it returns the newest value and keeps it with its flag |
| VerificationQueueModel.DataVerificationDetails.Verify | QuantumGateLib/Core/PublicEndpoints.cpp:218-262 | the status after one attempt, and whether it is reported as failed |
| VerificationQueueModel.VerifyMovesForward | QuantumGateLib/Core/PublicEndpoints.cpp:218-262 | a status only moves forward and an ended verification stays as it ended |
| VerificationQueueModel.Verification.Add | QuantumGateLib/Core/PublicEndpoints.cpp:437-473 | an address in hand is not queued again; a failed push takes it out of the set |
| VerificationQueueModel.AddIsSteps | QuantumGateLib/Core/PublicEndpoints.cpp:437-511 | adding as a whole is what the reporter's steps come to when nobody steps in between |
| VerificationQueueModel.StepKeeps | QuantumGateLib/Core/PublicEndpoints.cpp:340-511 | every step of reporters and worker keeps the set and the queue together |
| VerificationQueueModel.SetIsWhatIsInHand | QuantumGateLib/Core/PublicEndpoints.cpp:340-511 | in every reachable state the set is what is queued, worked on or about to be queued, each once |
| VerificationQueueModel.OnlyEndedLeave | QuantumGateLib/Core/PublicEndpoints.cpp:350-386 | addresses leave the set only when their verification ended, and are marked only when it succeeded |
| VerificationQueueModel.StatusMovesForward | QuantumGateLib/Core/PublicEndpoints.cpp:340-387 | across queue and worker a verification never moves back |
| VerificationQueueModel.VerifyOutcome | QuantumGateLib/Core/PublicEndpoints.cpp:218-262 | success just on the expected reply, failure just when nothing could be sent or the socket broke, over just when time is up, and otherwise it goes on |
| VerificationQueueModel.QueuedIsServed | QuantumGateLib/Core/PublicEndpoints.cpp:340-387 | from every reachable state with the worker idle, any address in the set is marked and out of it after at most four steps for each address queued, if attempts are answered |
| VerificationQueueModel.GoesOn | QuantumGateLib/Core/PublicEndpoints.cpp:375-379 | an unanswered attempt goes to the back of the queue and its address stays in the set |
| VerificationQueueModel.GivenUp | QuantumGateLib/Core/PublicEndpoints.cpp:380-385 | one that failed or took too long leaves the set unmarked |
| PublicEndpointsModel.BeforeIsWeakOrder | QuantumGateLib/Core/PublicEndpoints.cpp:720-729 | the comparison is the strict weak order that sorting needs |
| PublicEndpointsModel.OneNetworkPerPrefix | QuantumGateLib/Core/PublicEndpoints.cpp:521-570 | reporters count as one network exactly when they share the first 16 (IPv6: 48) bits |
| PublicEndpointsModel.PublicEndpoints.RemoveLeastRelevantEndpoints | QuantumGateLib/Core/PublicEndpoints.cpp:693-764 | exactly so many go, each ranking no higher than any that stays, or nothing changes |
| PublicEndpointsModel.PublicEndpoints.GetEndpointDetails | QuantumGateLib/Core/PublicEndpoints.cpp:650-691 | finds or makes a record exactly unless there is none and memory runs out; a new one after exactly one eviction from a full table |
| PublicEndpointsModel.PublicEndpoints.AddReportingNetwork | QuantumGateLib/Core/PublicEndpoints.cpp:860-902 | a known network is refused unless trusted; a new one displaces at most a least recent one |
| PublicEndpointsModel.PublicEndpoints.AddEndpoint | QuantumGateLib/Core/PublicEndpoints.cpp:513-648 | the verdict and both tables in every case; unverified addresses are put up for verification |
| PublicEndpointsModel.PublicEndpoints.MarkVerified | QuantumGateLib/Core/PublicEndpoints.cpp:357-361 | a verified address's record gains just its flag |
| PublicEndpointsModel.KnownNetworkForgottenIff | QuantumGateLib/Core/PublicEndpoints.cpp:575-647 | a report forgets its known network exactly when the reporter is trusted and no record can be had; otherwise the networks stay as they were |
| PublicEndpointsModel.KnownNetworkCanBeForgotten | QuantumGateLib/Core/PublicEndpoints.cpp:575-578 | tables with one network that are left with none |
| PublicEndpointsModel.TakenKeeps | QuantumGateLib/Core/PublicEndpoints.cpp:513-764 | every outcome keeps the tables' limits and evicts only what it should |
| PublicEndpointsModel.MergedGains | QuantumGateLib/Core/PublicEndpoints.cpp:588-621 | a report only adds to a record and keeps its limits on protocols, ports and networks |
| PublicEndpointsModel.TablesOverAnyRun | QuantumGateLib/Core/PublicEndpoints.cpp:513-764 | over any run of reports and verifications from empty tables: limits kept, what goes is the lowest ranked or least recent, and a verified or trusted record stays so while it lives |
| PublicEndpointsModel.VerifiedIff | QuantumGateLib/Core/PublicEndpoints.h:25-30 | verified means both verifications and three different reporting networks |
| PublicEndpointsModel.ReportCountsIff | QuantumGateLib/Core/PublicEndpoints.cpp:521-570 | which reports name a network and so are taken into account |
| PublicEndpointsModel.VerdictOutcome | QuantumGateLib/Core/PublicEndpoints.cpp:572-647 | just when a report is refused, fails, and is taken as new or as known |
| PublicEndpointsModel.RecordOutcome | QuantumGateLib/Core/PublicEndpoints.cpp:588-621 | all of what the record says afterwards: time, flags, ports and networks, with the room there is |
| PublicEndpointsModel.VerificationOutcome | QuantumGateLib/Core/PublicEndpoints.cpp:357-361 | a verification marks the one record and nothing else |
| PublicEndpointsModel.BecomesVerified | QuantumGateLib/Core/PublicEndpoints.cpp:513-648 | reports from three networks and both verifications make an address verified |
| RingBufferModel.RingBuffer.Read | QuantumGateLib/Memory/RingBuffer.h:61-93 | hands over the oldest bytes, as many as asked for or stored, and touches nothing else of the output |
| RingBufferModel.RingBuffer.Write | QuantumGateLib/Memory/RingBuffer.h:101-133 | appends as many bytes as fit |
| RingBufferModel.RingBuffer.Swap | QuantumGateLib/Memory/RingBuffer.h:141-147 | the two buffers change places whole |
| RingBufferModel.RingBuffer.Resize | QuantumGateLib/Memory/RingBuffer.h:149-161 | keeps exactly the oldest bytes that fit |
| RingBufferModel.RingBuffer.Clear | QuantumGateLib/Memory/RingBuffer.h:163-168 | empties the buffer |
| RingBufferModel.ReadKeeps | QuantumGateLib/Memory/RingBuffer.h:89-90 | moving the read offset round the ring drops exactly the bytes read |
| RingBufferModel.WriteKeeps | QuantumGateLib/Memory/RingBuffer.h:129-130 | bytes put at the write offset extend the contents, also where that offset is the size |
| RingBufferModel.FifoOrder | QuantumGateLib/Memory/RingBuffer.h:61-168 | over any calls on two buffers, swaps among them, bytes come out in the order accepted; only clearing and shrinking lose any |
| BinaryIPAddressModel.CreateMask | QuantumGateLib/Network/BinaryIPAddress.h:254-294 | succeeds for a known family and a length it has, with so many leading ones |
| BinaryIPAddressModel.IsMask | QuantumGateLib/Network/BinaryIPAddress.h:296-336 | true exactly for what `CreateMask` can make of some length |
| BinaryIPAddressModel.AreInSameNetwork | QuantumGateLib/Network/BinaryIPAddress.h:367-383 | exactly when the addresses agree in the first bits (section 3.1 of RFC 4632), and in the bytes IPv4 does not use |
| BinaryIPAddressModel.ShorterPrefix | QuantumGateLib/Network/BinaryIPAddress.h:367-383 | the same network at one length means the same network at every shorter one |
| BinaryIPAddressModel.IsInAddressRange | QuantumGateLib/Network/BinaryIPAddress.h:417-443 | every byte within the range's bytes |
| BinaryIPAddressModel.RangeIsNetworkIff | QuantumGateLib/Network/BinaryIPAddress.h:404-443 | being in the range and having the network agree on every address exactly when the range starts at a network address, in the bytes its family has |
| ChecksumModel.CalculateChecksum | QuantumGateLib/Network/IP.cpp:9-38 | the complement of the one's-complement sum (section 1 of RFC 1071) for up to 65537 words, odd byte included |
| ChecksumModel.FoldsSuffice | QuantumGateLib/Network/IP.cpp:34-37 | two folds bring any 32-bit sum to its 16-bit residue |
| ChecksumModel.OnesSumIsResidue | QuantumGateLib/Network/IP.cpp:16-32 | adding up and folding late is the same as carrying round at every word |
| ChecksumModel.ChecksumChecks | QuantumGateLib/Network/IP.cpp:9-38 | storing the result in a zeroed word makes the sum all ones and the checksum zero |
| ChecksumModel.ExactlyWhenRight | QuantumGateLib/Network/IP.cpp:16-32 | for any number of words, just when the wrapping accumulator still gives the right result |
| ChecksumModel.BoundIsTight | QuantumGateLib/Network/IP.cpp:16-32 | 65538 words of all ones come out wrong |

## Left out

- Weak memory orders and failures of `SleepConditionVariableCS`: steps are sequentially consistent and condition variables ideal, apart from spurious wake-ups.
- Unlocking what is not held: callers keep that rule, which the source asserts. Asking for a lock while holding the other kind is modelled; such a thread waits for itself.
- Interleaving inside one pool operation: the pool's mutexes are taken as given, so each operation is one step; destroying a mutex that is held in `FreeUnused` is not modelled.
- Running out of memory inside the allocators, unmanaged sizes (which go to another allocator) and allocator statistics.
- Handshake messages of the wrong size, the byte layout of chat messages, and the console: messages arrive parsed.
- `DequeMap::HasElements` (which is true when everything is empty) and `GetElementCount` (which asks a map pair for its size), and waiting on the map.
- The `Vector` forms of UUIDs and endpoints in the codec: they are raw fields in a struct; strings are raw bytes in units of two.
- Several keys in one connection: one read under one key is modelled, with the retry it asks for, not the loop over keys; nor the checks on message counter and age.
- Partial sends: what the socket does not take at once is sent later, unchanged; the receiver's chunks cover it.
- A message whose `Compressed` flag was set by hand before writing: options cannot make one.
- MessageTransportModel.FrameRoundTrip: assumes a cipher that adds at most a 16-byte tag, as the two ciphers the library offers do.
- `TryUpdateCache` and reading the cache without asking for the latest value: no freshness is promised.
- The two `AddAddresses` listings of `PublicEndpoints`; its sockets, whose outcome in an attempt is a parameter.
- PublicEndpointsModel.PublicEndpoints.AddEndpoint: one call is one step; two calls hold the endpoints' lock in turn, but the networks are not guarded by it.
- Hop verification: it is the same queue and worker with attempts that always end; clearing the queues at shutdown is not modelled.
- A push that throws while the worker puts an address back in its queue: the worker's thread would end.
- `RingBuffer`'s move constructor: it takes the write offset from the other buffer's write space and then reads that zeroed field, so it does not keep the contents.
- `EventGroup`, SipHash, random generation, callbacks, settings, sockets, ping, Bluetooth and the peers' own management: operating-system work or easy members.
- Address parsing, and the hash of an address.
