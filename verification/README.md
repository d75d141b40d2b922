# A verified model of the AESD character device and its socket server

The repository builds a Linux character device that remembers the last ten newline-terminated
commands written to it, and a socket server that writes what its clients send into the device and
sends the device's content back. This project models both in Dafny, from the ten-slot ring up to
the interleaved client threads, and proves what they are for.

## How the model is built

Every part that changes state in place is a class (or a method on an array or a linked list) whose
methods follow the C code branch by branch. Each such method is proved to compute a function on
plain values; the functions' properties are lemmas, so that they can speak about whole runs.

| file | part of the system |
|---|---|
| `Bytes.dfy`, `FlatView.dfy` | byte strings, and which (entry, offset) a flat position denotes |
| `Ring.dfy` | the overwriting ring: `Ring` as a value, `CircularBuffer` in place |
| `Heap.dfy` | live kernel blocks; kmalloc, krealloc and kfree with arbitrary outcomes |
| `Driver.dfy` | the device as a value, its ownership invariant, write and cleanup |
| `CommandLog.dfy` | what the device is for: an unbounded log of commands, no ring and no memory |
| `Refinement.dfy` | the device against the log, over whole runs |
| `Lines.dfy` | the log against the lines of the byte stream |
| `Access.dfy` | read, llseek and ioctl on the value |
| `CharDevice.dfy` | all device entry points in place, with the lock |
| `SocketOps.dfy` | `write_all` and `read_all` against an arbitrary environment |
| `DeviceIo.dfy` | `write_all` on the device, and the readback loop |
| `Server.dfy` | `handle_client` as a step machine over `file_mutex`; the invariant of all its runs |
| `Requests.dfy`, `Turns.dfy` | observers of a run: what each client sent and what was done for it; what happens in each turn inside `file_mutex` |
| `ServerTheorems.dfy` | what every run of the server guarantees |
| `Service.dfy` | what some run reaches: every request can be served |
| `Threads.dfy` | lists with some elements taken out |
| `ThreadList.dfy` | the linked thread list, changed in place |
| `ThreadLifecycle.dfy` | list nodes over every interleaving of main and clients |

What the environment decides is a parameter, so every theorem holds for all of it: whether a lock
is interrupted, whether a copy to or from user space fails, whether and where the allocator finds
memory (any unused address, including one freed before; krealloc may or may not move; fresh memory
holds arbitrary bytes), what clients send, how much a socket takes, and which thread runs next.

## Where the code and its documentation differ

The code is followed in each case.

- The comments speak of a command as text terminated by a newline. `aesd_write` looks for a newline
  anywhere in the accumulated bytes and then commits all of them. So the commands are the lines of
  the stream exactly when no chunk has a newline before its last byte (`Lines.ChunkingIndependence`).
- Unlike `lseek()` in POSIX.1-2017, System Interfaces volume, section 3, `aesd_llseek` refuses
  positions past the end (`Access.LlseekExact`).
- `cleanup_thread_list` joins while holding the mutex its clients need to flag themselves.  It can
  come to its end exactly when every node in the list is flagged at the moment main takes the mutex
  (`ThreadLifecycle.CleanupEndsIffAllFlagged`, `ThreadLifecycle.CleanupBeforeTheCall`); a run that
  hangs is `ThreadLifecycle.CleanupCanHang`.
- The readback is sent with `write_all` on a blocking socket while `file_mutex` is held
  (`server/aesdsocket_app/src/thread_manager.c:98` and `:175`).  A client that does not read
  therefore holds up all others for as long as that call blocks.  What is bounded is the number of
  calls in a turn (`ServerTheorems.TurnsAreBounded`), not their duration.
- An open file's position is not moved when its device drops the oldest command; after that it
  denotes a byte further on (`Refinement.ContentAfterWrite`).
- `server/README.md` describes a file below `/var/tmp`; the default build uses the device.

## Model

| member | source | states |
|---|---|---|
| RingBuffer.InitIsEmpty | aesd-char-driver/circular-buffer/src/aesd-circular-buffer-init.c:44-58 | a zeroed ring is well formed and stores nothing |
| RingBuffer.AddIsBoundedAppend | aesd-char-driver/circular-buffer/src/aesd-circular-buffer-add.c:32-60 | adding appends to the stored entries and drops the oldest beyond ten; a NULL buffer changes nothing; unused slots stay empty |
| RingBuffer.RemoveDropsOldest | aesd-char-driver/circular-buffer/src/aesd-circular-buffer-remove.c:50-82 | removing drops the oldest entry, clears its slot, and does nothing on an empty ring |
| RingBuffer.RunIsBoundedFifo | aesd-char-driver/circular-buffer/src/aesd-circular-buffer-add.c:43-57 | over every sequence of init, add and remove the ring is a bounded list: offsets below ten, full only with equal offsets, unused slots empty, contents equal to the list's |
| RingBuffer.AddsShowLastTen | aesd-char-driver/circular-buffer/include/aesd-circular-buffer.h:21 | after any number of additions to an empty ring the window is the last ten entries |
| RingBuffer.SlotIsModulo | aesd-char-driver/circular-buffer/src/aesd-circular-buffer-find.c:114 | the k-th oldest entry lies in slot (out_offs + k) mod 10 |
| RingBuffer.CircularBuffer.Reset | aesd-char-driver/circular-buffer/src/aesd-circular-buffer-init.c:44-58 | whatever the structure held, it is empty afterwards |
| RingBuffer.CircularBuffer.AddEntry | aesd-char-driver/circular-buffer/src/aesd-circular-buffer-add.c:32-60 | the in-place insertion is the value-level one, and the window is the old one with the entry appended, cut to ten |
| RingBuffer.CircularBuffer.RemoveEntry | aesd-char-driver/circular-buffer/src/aesd-circular-buffer-remove.c:50-82 | the in-place removal is the value-level one, and the window loses its first entry if it has one |
| RingBuffer.CircularBuffer.FindEntryOffsetForFpos | aesd-char-driver/circular-buffer/src/aesd-circular-buffer-find.c:60-121 | the search loop returns the slot and offset of the flat position, NULL exactly at and past the total size, and an offset below the entry's size |
| FlatView.LocateIffPosition | aesd-char-driver/circular-buffer/src/aesd-circular-buffer-find.c:96-116 | flat positions below the total and existing (entry, offset) pairs correspond one to one, zero-size entries included |
| FlatView.ConcatFrom | aesd-char-driver/char-driver/src/aesd-char-fileops.c:281-297 | the content from the position of (command, offset) on is the rest of that command and all later ones |
| Heap.KmallocAdds | aesd-char-driver/char-driver/src/aesd-char-fileops.c:353-358 | an allocation that succeeds adds one block of the size asked for at an unused address and touches no other; one that fails changes nothing |
| Heap.KreallocKeeps | aesd-char-driver/char-driver/src/aesd-char-buffer.c:54-59 | the old bytes are the start of the grown block wherever it is, a moved block's old address is dead, other blocks are untouched, and a failure leaves all alone |
| Heap.KfreeRemovesOne | aesd-char-driver/char-driver/src/aesd-char-buffer.c:117-122 | freeing removes the block named and no other; freeing NULL does nothing |
| Heap.AnyPlaceIsAllowed | aesd-char-driver/char-driver/src/aesd-char-buffer.c:54-72 | the allocator may fail or use any unused address, and krealloc may also leave the block in place |
| Heap.KernelHeap.Malloc | aesd-char-driver/char-driver/src/aesd-char-fileops.c:353-358 | the in-place allocation is the value-level one and returns its address or NULL |
| Heap.KernelHeap.Realloc | aesd-char-driver/char-driver/src/aesd-char-buffer.c:54-59 | the in-place reallocation of a live block is the value-level one and returns its address or NULL |
| Heap.KernelHeap.Free | aesd-char-driver/char-driver/src/aesd-char-buffer.c:117-122 | only a live block or NULL may be freed, and only that block goes |
| Driver.TmpStored | aesd-char-driver/char-driver/src/aesd-char-fileops.c:353-365 | filling the temporary buffer disturbs nothing the device owns |
| Driver.GrowKeeps | aesd-char-driver/char-driver/src/aesd-char-buffer.c:39-83 | the pending bytes grow by exactly the new ones, NUL-terminated, with every ownership fact kept, in both the krealloc and the kmalloc case; a failed allocation changes nothing |
| Driver.CompleteKeeps | aesd-char-driver/char-driver/src/aesd-char-buffer.c:99-131 | a commit appends the pending bytes to the stored commands, keeps the last ten, leaves nothing pending, and keeps live blocks equal to owned blocks |
| Driver.BlocksAreTerminated | aesd-char-driver/char-driver/src/aesd-char-buffer.c:80-81 | every live block between calls ends in a NUL byte |
| Driver.CommitFreesWhatItOverwrites | aesd-char-driver/char-driver/src/aesd-char-buffer.c:113-130 | on a full ring the freed block is the one of the slot that is overwritten; no other block or slot changes |
| Driver.FreeSlotKeeps | aesd-char-driver/char-driver/src/aesd-char-device.c:97-105 | freeing and clearing one used slot frees a live block and keeps ownership exact |
| Driver.CleanupFreesEverything | aesd-char-driver/char-driver/src/aesd-char-device.c:78-106 | after cleanup no block is live and nothing is readable, while in_offs, out_offs and full stay as they were |
| CommandLog.ByteConservation | aesd-char-driver/char-driver/src/aesd-char-fileops.c:367-384 | dropped commands, stored commands and pending bytes are together the accepted chunks laid end to end |
| CommandLog.NewlineInvariant | aesd-char-driver/char-driver/src/aesd-char-fileops.c:375-381 | a log is that of a run exactly when the run's chunks, in order, fall into one group per command and a newline-free rest, each command being its group's chunks laid end to end with the first newline in the last of them, and the rest being what is pending |
| CommandLog.RuleForCommands | aesd-char-driver/char-driver/src/aesd-char-fileops.c:341-381 | so every command holds a newline and the pending bytes hold none |
| Lines.SplitIsACut | aesd-char-driver/char-driver/src/aesd-char-fileops.c:315-324 | the byte-wise reference cuts a stream into newline-terminated lines and a newline-free rest |
| Lines.CutIsUnique | aesd-char-driver/char-driver/src/aesd-char-fileops.c:315-324 | there is no other such cut |
| Lines.ChunkingIndependence | aesd-char-driver/char-driver/src/aesd-char-fileops.c:367-381 | the commands are the lines of the stream and the pending bytes its rest, however it was cut into chunks, exactly when no chunk has a newline before its last byte |
| Refinement.WriteRefines | aesd-char-driver/char-driver/src/aesd-char-fileops.c:332-391 | a write is all or nothing: success consumes the whole chunk as the log does, every failure reports its code and leaves ring, pending bytes and heap exactly as they were |
| Refinement.WriteReturnValues | aesd-char-driver/char-driver/src/aesd-char-fileops.c:332-391 | the value every write call returns, number by number, in the order of the checks |
| Refinement.ShowsLastTen | aesd-char-driver/circular-buffer/include/aesd-circular-buffer.h:21 | the device shows the last ten commands of its log, or all when there are fewer |
| Refinement.ContentAfterWrite | aesd-char-driver/char-driver/src/aesd-char-buffer.c:99-131 | the flat content is unchanged, extended, or extended after losing the oldest command in front |
| Refinement.RunRefines | aesd-char-driver/char-driver/src/aesd-char-fileops.c:332-391 | after any sequence of writes with any failures the device shows the log's last ten commands and its pending bytes, and owns exactly the live blocks |
| Refinement.DeviceLifetime | aesd-char-driver/main.c:73-76 | from load to unload: refinement, byte conservation, the grouping of chunks into commands, and an empty heap after cleanup |
| Refinement.DeviceShowsLines | aesd-char-driver/char-driver/src/aesd-char-fileops.c:367-381 | with aligned chunks the device holds the last ten lines of the stream and its unterminated rest |
| Access.FindAgreesWithContent | aesd-char-driver/circular-buffer/src/aesd-circular-buffer-find.c:60-121 | find fails exactly at and past the end, and otherwise the bytes from the returned offset to the entry's end are those of the content from the position on |
| Access.ReadDelivers | aesd-char-driver/char-driver/src/aesd-char-fileops.c:74-112 | a read hands out the next bytes of the content and advances over them, returns 0 exactly at the end (or for an empty request), and an error has its code and moves nothing |
| Access.ReadTakesWhatFits | aesd-char-driver/char-driver/src/aesd-char-fileops.c:92-107 | inside a command a successful read hands out exactly the count asked for, or exactly the rest of the command when that is less |
| Access.ReadStopsAt | aesd-char-driver/char-driver/src/aesd-char-fileops.c:92-107 | the same for any position before the end, with the end of its command computed from the commands alone |
| Access.DrainDelivers | aesd-char-driver/char-driver/src/aesd-char-fileops.c:92-107 | repeated reads of any positive sizes deliver the content from the start position on, each making progress; enough of them deliver all of it |
| Access.SeekExactIffTotalFits | aesd-char-driver/char-driver/src/aesd-char-fileops.c:186-214 | seeks in all modes, from all positions and by all offsets succeed exactly for targets in [0, total], if and only if the total is below 2^63 |
| Access.LlseekExact | aesd-char-driver/char-driver/src/aesd-char-fileops.c:170-215 | a seek stores and returns the mathematical target or leaves the position alone with its error code |
| Access.SeekThenFind | aesd-char-driver/char-driver/src/aesd-char-fileops.c:260-300 | the ioctl accepts exactly existing bytes of existing commands; find maps the new position back to that slot and offset; what lies ahead is the rest of that command and all later ones |
| Access.IoctlOutcome | aesd-char-driver/char-driver/src/aesd-char-fileops.c:232-305 | which request succeeds, which error every other one gets, and that errors leave the position alone |
| Access.EveryPositionFromOnePair | aesd-char-driver/char-driver/src/aesd-char-fileops.c:274-297 | every position below the end comes from exactly one pair, for any well-formed ring, and the ioctl reaches it exactly when the offset fits 32 bits |
| CharDevice.Device.constructor | aesd-char-driver/main.c:73-76 | a loaded module is the empty device |
| CharDevice.Device.HandleWriteBufferInPlace | aesd-char-driver/char-driver/src/aesd-char-buffer.c:39-83 | the in-place append does what the value-level one does, touching only live blocks |
| CharDevice.Device.HandleCompleteCommandInPlace | aesd-char-driver/char-driver/src/aesd-char-buffer.c:99-131 | the in-place commit does what the value-level one does |
| CharDevice.Device.WriteFilledInPlace | aesd-char-driver/char-driver/src/aesd-char-fileops.c:367-384 | append, newline check and commit under the lock |
| CharDevice.Device.Write | aesd-char-driver/char-driver/src/aesd-char-fileops.c:332-391 | a whole write call with its outcome and return value; the lock is released on every path |
| CharDevice.Device.Read | aesd-char-driver/char-driver/src/aesd-char-fileops.c:74-112 | a whole read call; the device is unchanged and the lock released |
| CharDevice.Device.GetTotalBufferSize | aesd-char-driver/char-driver/src/aesd-char-fileops.c:123-153 | the loop adds up the sizes of exactly the stored entries |
| CharDevice.Device.Llseek | aesd-char-driver/char-driver/src/aesd-char-fileops.c:170-215 | a whole seek call; the device is unchanged and the lock released |
| CharDevice.Device.SeekTarget | aesd-char-driver/char-driver/src/aesd-char-fileops.c:260-296 | the loop over earlier commands computes the position of (command, offset), or refuses a pair that does not exist |
| CharDevice.Device.Ioctl | aesd-char-driver/char-driver/src/aesd-char-fileops.c:232-305 | a whole ioctl call; the device is unchanged and the lock released |
| CharDevice.Device.FreeAllSlots | aesd-char-driver/circular-buffer/include/aesd-circular-buffer.h:128-130 | the walk over all ten slots frees each used one once |
| CharDevice.Device.CleanupInPlace | aesd-char-driver/char-driver/src/aesd-char-device.c:78-106 | a whole cleanup |
| SocketOps.WriteAll | server/aesdsocket_app/src/socket_ops.c:8-25 | the sink gets a prefix of the buffer, nothing twice or skipped, of exactly r bytes when r >= 0; after short writes and interruptions the transfer goes on, and it ends early only right after a call that took nothing (r is then the bytes taken) or failed (r is -1); a sink that takes whole requests gets one call or none |
| SocketOps.ReadAll | server/aesdsocket_app/src/socket_ops.c:27-44 | the bytes taken from the source are the start of the buffer, in order, and the rest of the buffer is untouched; short reads and interruptions are gone past, and the transfer ends early only right after the end or an error |
| DeviceIo.WriteAllToDevice | server/aesdsocket_app/src/thread_manager.c:135-142 | write_all on the device makes interrupted calls again; the first call that is not interrupted decides whether the chunk was appended, as one write, or nothing changed |
| DeviceIo.SendNext | server/aesdsocket_app/src/thread_manager.c:173-180 | one turn of the readback loop reads the next 1023 bytes or the rest of the command and sends them all, and stops exactly at the end of the device, at a failing read, or when the socket refuses or fails |
| DeviceIo.SendRest | server/aesdsocket_app/src/thread_manager.c:96-103 | the readback loop sends what lies ahead of the position, at least a byte for every read, and all of it unless the last read failed or the socket refused or failed; it terminates |
| Server.StepMoves | server/aesdsocket_app/src/thread_manager.c:36-189 | a call of a thread moves only itself, takes or returns the mutex only for itself, and opens or closes only its own descriptor |
| Server.StepKeepsGood | server/aesdsocket_app/src/thread_manager.c:36-189 | every call of any thread with any outcome keeps the protocol's invariant |
| Server.EveryRunIsGood | server/aesdsocket_app/src/thread_manager.c:36-189 | the invariant holds after every schedule |
| ServerTheorems.MutualExclusion | server/aesdsocket_app/src/thread_manager.c:63-67 | no two threads are inside the section guarded by file_mutex |
| ServerTheorems.DescriptorDiscipline | server/aesdsocket_app/src/thread_manager.c:121-188 | device descriptors are opened and closed once, under the mutex, by the same thread; none is open when the mutex is free |
| ServerTheorems.ReceivedIsSorted | server/aesdsocket_app/src/thread_manager.c:36-67 | received data goes on to be written unless its first 19 bytes are the text of a seek request; then the pair parsed goes on to the ioctl, or the thread is gone when there is none |
| Requests.SeekRequestText | server/aesdsocket_app/src/thread_manager.c:46 | the text that marks a seek request, character by character |
| ServerTheorems.ReadbackTakesWhatFits | server/aesdsocket_app/src/thread_manager.c:173-180 | one read of a readback takes the next 1023 bytes, or the rest of the command if that is less, and offers all of them to the socket |
| ServerTheorems.RepliesAreExact | server/aesdsocket_app/src/thread_manager.c:148-185 | a reply comes right after its own thread's write or seek, in the same turn and with no write in between; it is exactly what is due unless a read or a send of that turn failed, and then a prefix of it: the whole device after a newline write, command X from byte Y and all later ones after a seek |
| Requests.RequestsAreServedInOrder | server/aesdsocket_app/src/thread_manager.c:36-189 | what was done for a thread is what it received, in order and with the bytes and pairs received, all of it or all but the last; back at recv it is all; when the last was or was not served, by the outcomes of the calls made for it; and a thread receives again after every newline-free chunk and every seek it served, and is gone only when its input ended or was malformed, its last request was refused, or after a chunk with a newline |
| Turns.TurnsAreSettled | server/aesdsocket_app/src/thread_manager.c:62-188 | the log is the turns' events laid end to end, one turn per successful lock call in that order; every turn that is over is settled (see the next row) and the holder's is on its way |
| ServerTheorems.EveryTurnIsSettled | server/aesdsocket_app/src/thread_manager.c:62-188 | a turn writes its chunk once, as received, exactly when a write call succeeded, and then, unless the reopen failed, answers a newline with the whole device; it seeks to the pair received exactly when the ioctl reached the driver and the byte exists, and then answers with the rest of that command and all later ones; an answer is complete unless a read or a send of the turn failed, and a prefix in any case; each given the device as the earlier turns' chunks left it |
| ServerTheorems.DeviceIsItsWriteLog | server/aesdsocket_app/src/thread_manager.c:46-142 | the device holds exactly the chunks of the turns whose write succeeded, each as its thread received it, in the order of the lock calls; no seek request is among them and no byte of them is lost |
| ServerTheorems.OnlyRecordedWritesChangeTheDevice | server/aesdsocket_app/src/thread_manager.c:84-103 | seeks, reads, sends and failing writes leave ring, heap and pending bytes as they are |
| ServerTheorems.ClientsReceiveTheirRepliesOnly | server/aesdsocket_app/src/thread_manager.c:173-180 | a client is sent its replies and nothing else |
| ServerTheorems.TurnsAreBounded | server/aesdsocket_app/src/thread_manager.c:115-188 | in every schedule in which a thread stays inside the critical section its uninterrupted calls are fewer than a number computed from the state at the beginning, whatever other threads do |
| Service.ServesRequest | server/aesdsocket_app/src/thread_manager.c:36-189 | from every reachable state with the mutex free a receiving thread can be served: calls of its own, none failing, grow the log by exactly the answer, free the mutex, and bring the thread back to receive or to its end |
| Service.ServesLine | server/aesdsocket_app/src/thread_manager.c:111-185 | a chunk with a newline can be written and answered with the whole device, and the client is sent that |
| Service.ServesPart | server/aesdsocket_app/src/thread_manager.c:111-188 | a chunk without newline can be written, and the thread receives again |
| Service.ServesSeek | server/aesdsocket_app/src/thread_manager.c:46-109 | a seek to an existing byte can be answered with the rest of its command and all later ones, and the thread receives again |
| Service.HolderCanUnlock | server/aesdsocket_app/src/thread_manager.c:62-188 | from every reachable state with a holder, calls of the holder alone, none failing, free the mutex |
| Service.AnyoneCanConnect | server/aesdsocket_app/src/thread_manager.c:14-36 | any new thread can begin to receive |
| Service.EveryCallCanFail | server/aesdsocket_app/src/thread_manager.c:36-189 | every call can fail where the code checks for it, and where that leads |
| ThreadList.List.AddThread | server/aesdsocket_app/src/thread_manager.c:207-224 | the new node is the head of the list, unless there is no memory for it |
| ThreadList.List.RemoveCompletedThreads | server/aesdsocket_app/src/thread_manager.c:226-256 | on any acyclic list the nodes not completed are left in order, each completed one is joined and freed once, in list order, and no freed node is touched |
| ThreadList.List.CleanupThreadList | server/aesdsocket_app/src/thread_manager.c:258-269 | every node is joined and freed once, from the head on |
| Threads.WithoutAndAmongSplit | server/aesdsocket_app/src/thread_manager.c:232-254 | the nodes left and the nodes removed are together the old list, node for node |
| Threads.OrderIsKept | server/aesdsocket_app/src/thread_manager.c:232-254 | both keep the order of the old list |
| ThreadLifecycle.StepKeepsGood | server/aesdsocket_app/src/thread_manager.c:197-269 | every step of main or a client keeps the lifecycle invariant |
| ThreadLifecycle.NodeLifecycle | server/aesdsocket_app/src/thread_manager.c:207-256 | a node is linked in, flagged, joined and freed at most once each; flagged only once linked in, joined only once flagged and its thread has exited, freed only in the order of joins; a freed node is not allocated |
| ThreadLifecycle.ChangesUnderTheMutex | server/aesdsocket_app/src/thread_manager.c:197-256 | linking, flagging, unlinking, joining and freeing happen under thread_list_mutex; without it only a node its thread has just allocated changes |
| ThreadLifecycle.NoUseAfterFree | server/aesdsocket_app/src/thread_manager.c:197-269 | no step of any run reads, writes, joins or frees a node that is not allocated |
| ThreadLifecycle.SweepNeverBlocks | server/aesdsocket_app/src/thread_manager.c:234-247 | a sweep joins only threads past their last use of the mutex, so the join can always go on |
| ThreadLifecycle.SweepRemovesFlagged | server/aesdsocket_app/src/thread_manager.c:226-256 | whatever the clients do meanwhile, a sweep takes exactly the nodes flagged before it off the list, leaves the others in order, and joins and frees those it took in list order |
| ThreadLifecycle.SweepCanEnd | server/aesdsocket_app/src/thread_manager.c:226-256 | from every state inside a sweep some run brings it to its end |
| ThreadLifecycle.EveryThreadCanBeReaped | server/aesdsocket_app/src/thread_manager.c:197-256 | as long as main accepts or sweeps, some run takes any thread to its exit and has its node joined and freed, with main accepting again and the mutex free |
| ThreadLifecycle.ServedWithoutNode | server/aesdsocket_app/src/thread_manager.c:209-213 | a thread for whose node there is no memory is served without one |
| ThreadLifecycle.CleanupFreesAll | server/aesdsocket_app/src/thread_manager.c:258-269 | a cleanup that comes to its end has joined and freed every node of the list it found, in list order and no other, and leaves the list empty, whatever the clients did meanwhile |
| ThreadLifecycle.CleanupEndsIffAllFlagged | server/aesdsocket_app/src/thread_manager.c:258-269 | once main holds the mutex, some run brings the cleanup to its end if and only if every node in the list is flagged |
| ThreadLifecycle.CleanupBeforeTheCall | server/aesdsocket_app/src/thread_manager.c:258-269 | the same with the condition read before the call |
| ThreadLifecycle.CleanupCanHang | server/aesdsocket_app/src/thread_manager.c:258-269 | a reachable state in which main waits for a thread that never can flag its node, and no run ends the cleanup |

## Left out

- Module registration, `aesd_setup_cdev`, `aesd_open` and `aesd_release`: an open is a new file at position 0.
- NULL device, ring and output pointers, which have no counterpart in Dafny; a NULL user buffer and a NULL entry buffer are modelled.
- Wrap-around of `size_t` sums and allocation sizes: sizes are unbounded, since the entries are live together in one 64-bit address space. The seek arithmetic is modelled with its 64 bits.
- Upper bounds on sizes: nothing in the model keeps the total below 2^63 bytes or a command below 4 GiB, as the memory of a real kernel does. `Access.SeekExactIffTotalFits` and `Access.EveryPositionFromOnePair` say where these bounds are used: the mixed signed and unsigned arithmetic of the seek, and the 32 bits of the ioctl's offset.
- CharDevice.Device.Llseek: asks for a position below 2^63, which is what the signed type of `f_pos` holds.
- Server.StepKeepsGood: each device call is one atomic step, because the driver holds its own lock for the whole call; the lock itself is in `CharDevice`.
- Files opened on the device by processes other than the server.
- Contiguity of one client's bytes: `file_mutex` is released between chunks without a newline, so partial lines of two clients may end up in one command. Nothing is claimed about it.
- Parsing of "X,Y" by sscanf: the parsed pair, or the failure to parse, is part of what is received.
- Socket setup, the accept loop, syslog, daemonising and signal handlers. A second run of `cleanup_on_signal` from a handler is not modelled.
- Node addresses in `ThreadLifecycle`: a node is named by its thread, so an address that malloc gives out twice counts as two nodes.
- How long a blocking call takes, and fairness between threads: bounds are on calls, and `ThreadLifecycle.SweepCanEnd`, `ThreadLifecycle.EveryThreadCanBeReaped` and the theorems of `Service` say what some schedule reaches, not that every schedule does.
- The build without the character device, with its `timestamp_thread`, and the older server variants.
