# KGPU: verified model of the request protocol, the allocators and the pinning code

KGPU lets kernel code run computations on a GPU through a user-space helper. This project models the four
parts that have to fit together for that to work, and proves what each of them promises.

* **The request protocol.** Kernel clients put requests on `reqs`; `kgpu_read` moves them to `rtdreqs` on
  their way to the helper; `kgpu_write` finds the request an answer belongs to and runs its callback. In
  between the helper drives each request through six stage lists in a fixed reverse-order pass, competing
  for eight streams. `HelperModel.dfy` is the helper as a small-step system, `HelperInvariants.dfy` proves
  that every step keeps its invariant, `Liveness.dfy` treats whole passes, `WalkLaws.dfy` says what each
  walk of a pass does to the requests on its list, and `Protocol.dfy` interleaves the helper with any number
  of clients; `Response.dfy` bounds how long a call can take there, and `Delivery.dfy` says what the caller
  finds in its request. `Daemon.dfy` is the helper program itself, with its rings on the heap, refined to the
  model; `KernelDevice.dfy` is the kernel side of the queues, refined to `Protocol`; `HandOver.dfy` joins the
  two at `kgpu_read`.
* **The two bitmap allocators** (`Allocator.dfy`): 1 MiB units of the pinned pool, pages of the mapped area.
  One class with the unit size as a parameter, and its bitmap search loops.
* **Pin ranges and addresses** (`Words.dfy`, `PinRanges.dfy`, `PinCoverage.dfy`, `PinAddresses.dfy`,
  `DeviceMemory.dfy`, `PinLedger.dfy`): rounding by bit masks, the in-place merge of up to three ranges, which bytes
  it covers, which addresses come back, the way of an address from kernel to user to device, and the
  registrations made with the CUDA runtime over a whole run.
* **The intrusive circular list** (`LinkedLists.dfy`, `RequestRings.dfy`): `list.h` on the heap, the seven rings
  of the helper, and the walk that relinks the node it is visiting.

`Seqs.dfy` and `Options.dfy` hold the few facts about sequences and optional values the others share.

How the parts connect: `Daemon.RunHelper` shows that the program on the heap computes the passes of the
model, so every statement about `Passes` (order, ownership, bounded response) and about `Loop` states
satisfying `Inv` is a statement about it; `Protocol` uses the same `Loop` steps as its helper half.

Two devices recur. A request is named by its ticket, the number of calls accepted before it; because `reqs` is
first in first out this is also the number of requests the helper read before it, and "in order" below means
in order of tickets. Predicates that are only carried along are wrapped in a quantifier over a key (`Look`,
`Peek`, `Key`, `Mark` and the like); a proof that needs the contents mentions the key.

Where the code falls short of its intent, the model follows the code, a lemma or a contract gives the exact
condition under which the intent is met, and the cases are these: `set_gpu_mempool` clears a quarter of the
size table (`Allocator.MempoolStartAgrees`, `Allocator.StaleTableOverlaps`); the unit count wraps and is
truncated to 32 bits (`Allocator.UnitsCoverRequest`, `Allocator.HugeRequestReservesNothing`); address and size are
rounded separately (`PinCoverage.RegisteredBytes`, `PinRanges.RoundingMissesAByte`); `round_up` wraps at the top of the address
space (`Words.RoundUpIsCeiling`); the pool size is shifted in 32 bits (`DeviceMemory.FillSeesWholePool`,
`DeviceMemory.LargePoolUnseen`); pinning and unpinning classify buffers differently
(`PinAddresses.BalancedAddresses`, `PinAddresses.NullInputLeaks`); a request without a service is unpinned
though never pinned (`PinLedger.UnknownIsBalanced`); and a `kgpu_read` of zero bytes loses the request it takes
(`KernelDevice.KgpuDev.KgpuRead`, `KernelDevice.ZeroByteReadLoses`). The comment above
`gpu_alloc_device_mem` says that the data buffer gets no device memory; the code gives it a device address and pins
it when it lies in a host area, and the model follows the code.

## Model

| member | source | states |
|---|---|---|
| Protocol.ExactlyOnce | kgpu/src/kernelSpace/main.c:560-781 | in every state of every run, each accepted call is in exactly one of `reqs`, `kgpu_read`, `rtdreqs`, `kgpu_write` or completed; no queue holds it twice; its callback ran at most once, exactly when it is completed; no answer is ever refused |
| Protocol.ResponseFindsItsRequest | kgpu/src/kernelSpace/main.c:732-743 | the helper's answer finds, by id, the very call the helper is answering |
| Protocol.FindsTicket | kgpu/src/kernelSpace/main.c:560-584 | with distinct ids the first match in `rtdreqs` is the wanted entry, wherever it stands |
| Protocol.CallbackCodeEarned | kgpu/src/userSpace/helper.c:165-171 | the code a callback sees is the one the helper's whole record of calls gives this call: of its failed lookup, prepare, launch or post, zero only if all four succeeded |
| Delivery.CallbackReadsItsCode | kgpu/src/kernelSpace/main.c:739-773 | in every run, a callback, of a sync or an async call, finds in its own request the code the helper's record of calls gives that call; nothing else in the request and no other request changes |
| Delivery.AsyncRoundTrip | kgpu/src/kernelSpace/main.c:110-142 | from the call to its callback an async request is as the caller made it, with the error code of the answer and no other change |
| Delivery.SyncRoundTrip | kgpu/src/kernelSpace/main.c:162-213 | from the call to its return a sync request is as the caller made it, its own data and callback back in place, with the error code of the answer |
| Delivery.CallRecorded | kgpu/src/kernelSpace/main.c:181-191 | what is recorded of a call is, for good, what its request held when the call was made |
| Response.CallbackBounded | kgpu/src/userSpace/helper.c:424-439 | in every run with a GPU that finishes and a poll that reports what is queued, the callback of an accepted call has run once the helper has polled more than six times for each live request up to it and seven times for each unread one, whatever else is called and whichever service calls fail |
| Response.PollOnTime | kgpu/src/kernelSpace/main.c:956-972 | a poll that reads whenever something is queued takes one from the time left for a call |
| Response.ReadLowersDebt | kgpu/src/userSpace/helper.c:244-271 | reading a request turns the seven polls counted for it into a rank of at most six |
| Protocol.LaunchesInCallOrder | kgpu/src/userSpace/helper.c:307-351 | in every run prepares and launches are attempted in the order the calls were accepted, each once, and running ++ prepared ++ memdone ++ init stays in that order |
| Protocol.StreamsAlwaysOwned | kgpu/src/gpuSpace/cudaOperations.cu:358-387 | in every run a stream is marked used iff exactly one live request holds it, requests hold one exactly from prepare on, and each live request is on exactly the list its state names |
| Protocol.SyncCallReturns | kgpu/src/kernelSpace/main.c:147-213 | a sync call that returns by completion has had its own answer delivered; its request holds that code and the data and callback from before the call |
| Protocol.BlockingIsSafe | kgpu/src/userSpace/helper.c:239-239 | whenever the helper may poll without a timeout all six lists are empty, all streams free and nothing in `rtdreqs` waits for an answer |
| Protocol.StepKeepsInv | kgpu/src/kernelSpace/main.c:656-781 | every client, kernel or helper step keeps the invariant of the whole system |
| Protocol.RunsKeepInv | kgpu/src/userSpace/helper.c:424-439 | so it holds in every state of every interleaving |
| KernelDevice.QueuesInCallOrder | kgpu/src/kernelSpace/main.c:656-705 | in every reachable state `rtdreqs`, the item inside `kgpu_read` and `reqs`, in a row, are in call order and name readable requests |
| KernelDevice.FirstMatch | kgpu/src/kernelSpace/main.c:568-580 | stopping at the first entry with the id finds what the search function finds; passing all entries means there is none |
| KernelDevice.LeaveInLine | kgpu/src/kernelSpace/main.c:572-575 | taking an answered entry out of `rtdreqs` keeps the call order of the queues |
| KernelDevice.LoseInLine | kgpu/src/kernelSpace/main.c:692-699 | an item dropped between the queues shortens the line by one and leaves the rest in order |
| KernelDevice.KgpuDev.KgpuCallAsync | kgpu/src/kernelSpace/main.c:110-142 | refuses after termination or without memory and then changes nothing; otherwise appends the call to `reqs` |
| KernelDevice.KgpuDev.KgpuCallSync | kgpu/src/kernelSpace/main.c:162-204 | the same, with the request's data and callback put aside and replaced |
| KernelDevice.KgpuDev.SyncReturn | kgpu/src/kernelSpace/main.c:208-212 | puts them back and forgets the call's record |
| KernelDevice.KgpuDev.FindRequestItem | kgpu/src/kernelSpace/main.c:560-584 | the loop returns the first entry with the id and, if asked, removes exactly that one |
| KernelDevice.KgpuDev.ReadTake | kgpu/src/kernelSpace/main.c:683-694 | takes the head of `reqs` and copies out its id and rebased buffers |
| KernelDevice.KgpuDev.ReadReturn | kgpu/src/kernelSpace/main.c:696-703 | appends the item in transit to `rtdreqs` |
| KernelDevice.KgpuDev.KgpuRead | kgpu/src/kernelSpace/main.c:656-710 | returned code and request for each case; the line of tickets is kept iff bytes were asked for or nothing was queued |
| KernelDevice.ZeroByteReadLoses | kgpu/src/kernelSpace/main.c:692-703 | a zero-byte read of a queue with one entry leaves the call in no queue and unanswered |
| KernelDevice.KgpuDev.Callback | kgpu/src/kernelSpace/main.c:147-157 | a sync call's callback marks exactly the call whose data hangs off the request |
| KernelDevice.KgpuDev.DeliverItem | kgpu/src/kernelSpace/main.c:739-777 | stores the code in the request, sync or not, and in no other; runs its callback once; completes the ticket with the code |
| KernelDevice.KgpuDev.KgpuWrite | kgpu/src/kernelSpace/main.c:712-781 | short write and unknown id are refused with no change; otherwise the found ticket leaves `rtdreqs` and is delivered, and its request holds the code |
| HelperInvariants.VisitKeepsInv | kgpu/src/userSpace/helper.c:287-422 | one stage operation on the next node keeps list partition, stream ownership, order along the pipe, order of calls, earned codes, single answers and the position of the walk |
| HelperInvariants.AdvanceKeepsInv | kgpu/src/userSpace/helper.c:428-434 | so does the step from one walk to the next |
| HelperInvariants.PollKeepsInv | kgpu/src/userSpace/helper.c:227-285 | so does the poll, with or without an arrival |
| HelperInvariants.AddKeepsInv | kgpu/src/userSpace/helper.c:194-225 | a new request, found or not, joins `all_reqs` and one stage list and keeps the data invariant |
| HelperInvariants.BootInv | kgpu/src/userSpace/helper.c:92-142 | the invariant holds at the start |
| HelperInvariants.MoveShape | kgpu/src/userSpace/helper.c:297-303 | moving a request keeps every live request on exactly the list its state names |
| HelperInvariants.DropShape | kgpu/src/userSpace/helper.c:399-403 | freeing a request keeps it too |
| HelperInvariants.OpStreams | kgpu/src/gpuSpace/cudaOperations.cu:358-387 | every stage operation keeps a stream marked used iff exactly one live request holds it |
| HelperInvariants.OpOrder | kgpu/src/userSpace/helper.c:307-351 | every stage operation keeps arrival order along the pipe, since a failed stream allocation fails for all later requests of the pass |
| HelperInvariants.OpCalls | kgpu/src/userSpace/helper.c:307-351 | every stage operation keeps prepares and launches in arrival order, each before all requests still waiting |
| HelperInvariants.OpCodes | kgpu/src/userSpace/helper.c:165-171 | every live request carries the code its calls have earned, and a failed one is on the done list |
| HelperInvariants.OpAnswers | kgpu/src/userSpace/helper.c:388-406 | each request is answered once, with the code it had earned, and is gone afterwards |
| Liveness.BoundedResponse | kgpu/src/userSpace/helper.c:424-439 | with a GPU that reports streams finished, a live request is answered within six passes for each live request that arrived no later, whatever arrives behind it and whichever service calls fail |
| Liveness.Drained | kgpu/src/userSpace/helper.c:424-439 | k live requests are all answered within 6k passes; a shortage of streams never stops the loop |
| Liveness.PassProgress | kgpu/src/userSpace/helper.c:287-437 | one pass with a live request strictly lowers the ranks (init 6 to done 1) of the requests up to it |
| Liveness.RankNeverRises | kgpu/src/userSpace/helper.c:287-437 | no walk raises those ranks, even when the GPU finishes nothing |
| Liveness.StreamFree | kgpu/src/gpuSpace/cudaOperations.cu:358-376 | when nothing up to a waiting request is further along than memdone, a stream is free for it |
| Liveness.OneStagePerPass | kgpu/src/userSpace/helper.c:424-437 | within one pass a request leaves at most one stage list, to a legal successor, and only a done one disappears |
| Liveness.LeftAlone | kgpu/src/userSpace/helper.c:424-437 | a request already visited, or moved to a list already walked, is untouched until the poll |
| Liveness.GoneForGood | kgpu/src/userSpace/helper.c:388-406 | an answered request does not come back |
| Liveness.PassByPhases | kgpu/src/userSpace/helper.c:428-434 | a pass is its six walks in turn |
| WalkLaws.DoneWalk | kgpu/src/userSpace/helper.c:388-406 | the done walk answers every request on the list, in order, with its id and code, frees exactly their streams and leaves all others alone |
| WalkLaws.FinishWalk | kgpu/src/userSpace/helper.c:375-386 | the post_exec walk reaches every request; the finished ones are done, the others stay |
| WalkLaws.PostWalk | kgpu/src/userSpace/helper.c:353-373 | the running walk passes over unfinished requests, fails those whose post fails, and ends with the first whose post succeeds, which goes to post_exec; everything after it is unchanged; with none such it reaches them all |
| WalkLaws.LaunchWalk | kgpu/src/userSpace/helper.c:333-351 | the prepared walk attempts exactly the head of the list; its code decides between running and done |
| WalkLaws.PrepareWalk | kgpu/src/userSpace/helper.c:307-331 | the memdone walk gives the lowest free streams to the requests at the head, in order: it passes over those whose prepare fails, which keep their stream, and ends with the first success or when no stream is left; the others are unchanged |
| WalkLaws.AllocWalk | kgpu/src/userSpace/helper.c:287-305 | the init walk moves every request to memdone |
| WalkLaws.LowestFree | kgpu/src/gpuSpace/cudaOperations.cu:365-374 | the stream found is free with every stream below it taken; none is found iff none is free |
| LinkedLists.ListAddTail | kgpu/include/list.h:27-47 | the ring gains the node at its end, well formed in both directions; every ring sharing no node with it is still a ring |
| LinkedLists.ListDel | kgpu/include/list.h:49-60 | the ring loses exactly that node, a lone node included; other rings are still rings |
| LinkedLists.ListEmpty | kgpu/include/list.h:62-66 | true iff the ring is its head alone |
| LinkedLists.ListSize | kgpu/include/list.h:87-95 | the counting loop ends and returns the number of nodes besides the head |
| LinkedLists.Splice | kgpu/src/userSpace/helper.c:169-170 | unlink and append in a row move the node between two rings and leave all others alone |
| RequestRings.RelinkNode | kgpu/src/userSpace/helper.c:300-301 | all seven rings stay well formed and hold the lists of the model after a move |
| RequestRings.DropNodes | kgpu/src/userSpace/helper.c:399-400 | the same after both nodes of a request are unlinked |
| RequestRings.AddNodes | kgpu/src/userSpace/helper.c:197-224 | the same after a request is linked, also on the path that unlinks a node not yet on any list |
| RequestRings.MovedNamed | kgpu/src/userSpace/helper.c:300-301 | after a move each ring is its head followed by the nodes of its list, in order |
| RequestRings.DroppedNamed | kgpu/src/userSpace/helper.c:399-400 | so it is after a request is freed |
| RequestRings.AddedNamed | kgpu/src/userSpace/helper.c:197-224 | so it is after a request is linked |
| Daemon.Helper.constructor | kgpu/src/userSpace/helper.c:92-142 | seven empty rings, no stream in use, nothing registered |
| Daemon.Helper.KhFailRequest | kgpu/src/userSpace/helper.c:165-171 | the request moves to the tail of the done list with the code |
| Daemon.Helper.KhInitServiceRequest | kgpu/src/userSpace/helper.c:173-225 | a fresh request joins `all_reqs` and init, or done with the no-service code |
| Daemon.Helper.KhGetNextServiceRequest | kgpu/src/userSpace/helper.c:227-285 | waits without a timeout iff no request is live; files what arrives under the next number with the buffers that came with it and no device address; otherwise changes nothing |
| HandOver.ReadRequest | kgpu/src/userSpace/helper.c:194-206 | a read from the kernel device files the request under its ticket, with the id of the caller's request and its buffers rebased to the helper's view |
| Daemon.Helper.KhRequestAllocMem | kgpu/src/userSpace/helper.c:287-305 | the device address of each buffer stored, at its own offset in the device buffer of its area; the merged ranges registered; the request moved to memdone; returns 0 |
| Daemon.FindStream | kgpu/src/gpuSpace/cudaOperations.cu:358-376 | the loop finds the stream with all lower ones taken that is itself free, or none when all are taken |
| HelperModel.FirstFreeSound | kgpu/src/gpuSpace/cudaOperations.cu:365-374 | the model's search does too |
| Daemon.Helper.GpuAllocStream | kgpu/src/gpuSpace/cudaOperations.cu:358-376 | marks that stream and gives it to the request, or changes nothing and fails |
| Daemon.GpuFreeStream | kgpu/src/gpuSpace/cudaOperations.cu:378-387 | clears the entry of a valid stream id, nothing else |
| Daemon.Helper.KhPrepareExec | kgpu/src/userSpace/helper.c:307-331 | no stream: untouched, -1; prepare fails: done list, stream kept until answered; else prepared |
| Daemon.Helper.KhLaunchExec | kgpu/src/userSpace/helper.c:333-351 | launch outcome decides between running and done; always returns 0 |
| Daemon.Helper.KhPostExec | kgpu/src/userSpace/helper.c:353-373 | unfinished: untouched, 1; else post outcome decides between post_exec and done, and is returned |
| Daemon.Helper.KhFinishPost | kgpu/src/userSpace/helper.c:375-386 | moves to done and returns 0 when finished, else untouched, 1 |
| Daemon.Helper.KhServiceDone | kgpu/src/userSpace/helper.c:388-406 | answer sent, both nodes unlinked, ranges unregistered, stream given back, record freed |
| Daemon.Helper.KhProcessRequest | kgpu/src/userSpace/helper.c:408-422 | ends; visits a prefix of the list as it was at the start, in order and each once, all of it unless `once`; the heap ends in the state of the model's walk although each call may relink the visited node; returns the code of the last call, 0 if there was none |
| Daemon.CellLinks | kgpu/include/list.h:80-82 | following `next` along a stage ring goes through its requests in order and back to the head |
| Daemon.Helper.KhMainLoop | kgpu/src/userSpace/helper.c:424-439 | n iterations on the heap compute n passes of the model, and every request read is filed, in order, with the buffers its pass brought |
| Daemon.RunHelper | kgpu/src/userSpace/helper.c:424-439 | from the start, after any number of passes, the heap holds the model's state, each request ever read is filed with the buffers that arrived with it, the CUDA calls are settled and the device addresses of the live requests are right |
| PinLedger.OpSettles | kgpu/src/userSpace/helper.c:287-406 | every stage operation leaves, for every request ever read, exactly the CUDA calls its progress calls for |
| PinLedger.ArrivalSettles | kgpu/src/userSpace/helper.c:194-225 | so does an arrival |
| PinLedger.OpAddresses | kgpu/src/gpuSpace/cudaOperations.cu:273-306 | every stage operation keeps the device addresses of live requests right from the allocation of their memory on: each buffer at its own offset in the device buffer of its area, no address for a data buffer in neither |
| PinLedger.ArrivalAddressed | kgpu/src/userSpace/helper.c:199-206 | a new request has no device address |
| PinLedger.AnsweredIsBalanced | kgpu/src/gpuSpace/cudaOperations.cu:264-356 | over a whole run, an answered request with a service and with `in` and `out` in the host areas had each range registered once and then the same ranges unregistered once |
| PinLedger.UnknownIsBalanced | kgpu/src/userSpace/helper.c:213-217 | a request without a service is never registered; answering it unregisters nothing iff no buffer of it lies in the mapped area |
| DeviceMemory.GpuAllocDeviceMem | kgpu/src/gpuSpace/cudaOperations.cu:264-316 | each buffer is given its own offset in the device buffer of its area, a data buffer in neither area no address; the registrations, in order; always 0 |
| DeviceMemory.AddressesRight | kgpu/include/kgpu.h:21-30 | the wrapping macros give those offsets whenever no area wraps and the host areas are apart |
| DeviceMemory.GpuFreeDeviceMem | kgpu/src/gpuSpace/cudaOperations.cu:318-356 | the addresses unregistered, in order |
| DeviceMemory.PinAll | kgpu/src/gpuSpace/cudaOperations.cu:100-106 | the pinning loop registers each merged slot with its size rounded once more |
| DeviceMemory.SameInputs | kgpu/src/gpuSpace/cudaOperations.cu:273-348 | both routines collect the same ranges iff `in` and `out` lie in a host area |
| DeviceMemory.PinBalance | kgpu/src/gpuSpace/cudaOperations.cu:264-356 | then what is unpinned is what was pinned, each address once, and the second rounding changes nothing |
| PinAddresses.BalancedAddresses | kgpu/src/gpuSpace/cudaOperations.cu:273-356 | for any non-wrapping buffers the addresses unregistered are the addresses registered iff the buffers in neither host area are hidden: each starts where a collected range starts or is reached from below, and none reaches a start the collected ranges do not reach |
| PinAddresses.BalancedInPages | kgpu/src/gpuSpace/cudaOperations.cu:273-356 | with a mapped area of whole pages whose buffers end before it does, iff `in` and `out` each lie in a host area |
| PinAddresses.SameStartsExact | kgpu/src/gpuSpace/cudaOperations.cu:186-248 | adding page-aligned ranges to a family keeps the starts of its components iff they are hidden |
| PinAddresses.AnsweredAddresses | kgpu/src/userSpace/helper.c:388-406 | over a whole run, an answered request with a service had unregistered exactly the addresses registered for it iff its strays are hidden |
| PinAddresses.RegisteredInRun | kgpu/src/gpuSpace/cudaOperations.cu:100-106 | over a whole run, the ranges registered for a request hold exactly the bytes on the rounded ranges of its pinned buffers |
| PinAddresses.NullInputLeaks | kgpu/src/gpuSpace/cudaOperations.cu:277-283 | a request with a null `in` and one page of the mapped area leaves the null address registered |
| PinCoverage.CoverageExact | kgpu/src/gpuSpace/cudaOperations.cu:186-248 | the merged ranges hold every byte of up to three non-wrapping inputs iff each non-empty one fits in its own rounded size or has its last byte on the rounded range of another |
| PinCoverage.RegisteredBytes | kgpu/src/gpuSpace/cudaOperations.cu:264-316 | the same for the ranges registered for a request and the buffers it pins |
| PinCoverage.PartRegistered | kgpu/src/gpuSpace/cudaOperations.cu:264-316 | a pinned `in`, `out` or `data` buffer is registered in full iff it is empty, fits in its own rounded size, or has its last byte on the rounded range of a pinned buffer of the request |
| PinCoverage.PinInputsAre | kgpu/src/gpuSpace/cudaOperations.cu:273-306 | collected for pinning are the buffers outside `hostbuf`, data only in the mapped area, each with its own size |
| PinCoverage.UnpinInputsAre | kgpu/src/gpuSpace/cudaOperations.cu:330-349 | collected for unpinning are the buffers in the mapped area, each with its own size |
| PinCoverage.MissedOnLastPage | kgpu/src/gpuSpace/cudaOperations.cu:192-193 | the bytes a buffer's own rounded range misses share a page with its last byte |
| PinCoverage.SameBytes | kgpu/src/gpuSpace/cudaOperations.cu:186-248 | page-aligned families with the same union hold the same bytes |
| PinCoverage.AlignedFits | kgpu/src/gpuSpace/cudaOperations.cu:192-193 | a page-aligned buffer of any size fits in its own rounded size |
| PinCoverage.NeighbourHelps | kgpu/src/gpuSpace/cudaOperations.cu:192-193 | a buffer that does not fit alone is registered in full with its neighbour |
| DeviceMemory.UnpinWithoutPin | kgpu/src/userSpace/helper.c:401-401 | an unpin without a pin is harmless iff no buffer lies in the mapped area |
| DeviceMemory.PoolByteKeepsOffset | kgpu/src/kernelSpace/main.c:608-654 | a byte of the kernel pool keeps its offset through user space into the device buffer |
| DeviceMemory.VmaByteKeepsOffset | kgpu/include/kgpu.h:21-30 | a byte of the mapped area passes the kernel unchanged and keeps its offset in the second device buffer |
| DeviceMemory.DeviceIsolation | kgpu/src/gpuSpace/cudaOperations.cu:264-307 | bytes of different live blocks, of either allocator, reach different device addresses, at their own offset inside the device buffer |
| DeviceMemory.BuffersDisjoint | kgpu/src/gpuSpace/cudaOperations.cu:264-307 | buffers inside different live blocks are given disjoint device ranges |
| DeviceMemory.RequestsIsolated | kgpu/src/kernelSpace/main.c:608-654 | two requests whose in, out and data buffers lie in different live blocks use disjoint device ranges, through `fill_ku_request` and `gpu_alloc_device_mem` |
| DeviceMemory.StoredIsolated | kgpu/src/gpuSpace/cudaOperations.cu:273-306 | the same for the device addresses stored with two requests, whenever they are right |
| DeviceMemory.FillAddressLaw | kgpu/src/kernelSpace/main.c:617-648 | below 4 GiB an address in the pool keeps its offset and any other passes unchanged |
| DeviceMemory.LargePoolUnseen | kgpu/src/kernelSpace/main.c:617-618 | a pool of 4 GiB has size 0 after the shift and none of its addresses is rebased |
| DeviceMemory.FillSeesWholePool | kgpu/src/kernelSpace/main.c:617-618 | every pool byte is recognised iff the pool is smaller than 4 GiB |
| PinRanges.Merge2Ranges | kgpu/src/gpuSpace/cudaOperations.cu:150-184 | the code computes the two-range merge, 64-bit sums included |
| PinRanges.MergeRanges | kgpu/src/gpuSpace/cudaOperations.cu:186-248 | rounding and merging in place leave the merge of the rounded input in the first slots and return how many |
| PinRanges.Merge2Exact | kgpu/src/gpuSpace/cudaOperations.cu:150-184 | two page-aligned ranges merge iff they are not apart, and the result is page-aligned and exactly their union |
| PinRanges.MergeExact | kgpu/src/gpuSpace/cudaOperations.cu:186-248 | the merged ranges are aligned, pairwise apart, have exactly the union of the input, and are as many as its connected components |
| PinRanges.MergeRangesExact | kgpu/src/gpuSpace/cudaOperations.cu:186-248 | the same from raw, non-wrapping buffers |
| PinRanges.LastMergeNeverSucceeds | kgpu/src/gpuSpace/cudaOperations.cu:226-243 | the inner success branch of the last case is dead |
| PinRanges.SeparatedUnique | kgpu/src/gpuSpace/cudaOperations.cu:186-248 | families of ranges that are pairwise apart and have the same union are equal as sets |
| PinRanges.MergeOrderIndependent | kgpu/src/gpuSpace/cudaOperations.cu:186-248 | permuting the input gives the same set of merged ranges, empty ones included |
| PinRanges.RoundedCoversBuffer | kgpu/src/gpuSpace/cudaOperations.cu:192-193 | the rounded range of a single buffer holds every byte of it iff offset plus size fits in the rounded size |
| PinRanges.RoundingMissesAByte | kgpu/src/gpuSpace/cudaOperations.cu:192-193 | two bytes across a page boundary pin only the first page |
| Words.RoundDownIsFloor | kgpu/include/dataType.h:8-8 | for every 64-bit x and power of two the mask form is the greatest multiple not above x |
| Words.RoundUpIsCeiling | kgpu/include/dataType.h:7-7 | the mask form is the least multiple not below x iff that multiple does not wrap, zero included; otherwise it is 0 |
| Words.OrLowMask | kgpu/include/dataType.h:6-7 | or with the low mask fills the low bits |
| Words.AndHighMask | kgpu/include/dataType.h:8-8 | and with the complement clears them |
| Words.RoundUpIdempotent | kgpu/src/gpuSpace/cudaOperations.cu:104-104 | rounding a page multiple again changes nothing |
| Allocator.AgreementAlways | kgpu/src/kernelSpace/main.c:291-434 | after every sequence of allocations and frees from a cleared table, set bits and size table agree and no free reports incorrect allocation info |
| Allocator.MallocKeepsAgree | kgpu/src/kernelSpace/main.c:291-333 | an allocation keeps the agreement, whatever its size |
| Allocator.FreeKeepsAgree | kgpu/src/kernelSpace/main.c:336-370 | a free of any pointer keeps it |
| Allocator.RunKeepsAgree | kgpu/src/kernelSpace/main.c:373-434 | so does every sequence of operations |
| Allocator.BitsMatchSizes | kgpu/src/kernelSpace/main.c:302-325 | the number of set bits is the sum of the size table |
| Allocator.BlocksDisjoint | kgpu/src/kernelSpace/main.c:302-325 | live blocks are byte-disjoint and inside the pool |
| Allocator.FirstFitComplete | kgpu/src/kernelSpace/main.c:307-329 | the lowest start of a large enough free run is returned; failure iff there is none |
| Allocator.UnitsCoverRequest | kgpu/src/kernelSpace/main.c:302-302 | the units reserved cover the request iff the rounded count neither wraps nor is truncated |
| Allocator.HugeRequestReservesNothing | kgpu/src/kernelSpace/main.c:302-319 | a request of 2^52 bytes counts as no units and reserves nothing |
| Allocator.IndexInPool | kgpu/src/kernelSpace/main.c:338-347 | the bounds test of a free admits exactly the addresses of the pool's units |
| Allocator.FreePrecise | kgpu/src/kernelSpace/main.c:336-370 | a free releases exactly the live block whose first unit holds the pointer, or changes nothing |
| Allocator.MallocFreeRoundTrip | kgpu/src/kernelSpace/main.c:291-370 | allocate then free restores bitmap and table, and an equal request returns the same address |
| Allocator.MempoolStartAgrees | kgpu/src/kernelSpace/main.c:875-875 | the pool starts in agreement iff the memory the short clear does not reach was already zero |
| Allocator.StaleTableOverlaps | kgpu/src/kernelSpace/main.c:861-875 | a stale entry lets a free release the second unit of a live block, and the next allocation overlaps it |
| Allocator.FindNextZeroArea | kgpu/src/kernelSpace/main.c:307-310 | the bitmap search loop returns the first fit |
| Allocator.FillBits | kgpu/src/kernelSpace/main.c:319-319 | setting or clearing changes exactly the given run |
| Allocator.DevicePool.constructor | kgpu/src/kernelSpace/main.c:1016-1042 | a cleared bitmap and a fully cleared table |
| Allocator.DevicePool.VMalloc | kgpu/src/kernelSpace/main.c:291-333 | the arrays change as the allocation function says |
| Allocator.DevicePool.VFree | kgpu/src/kernelSpace/main.c:336-370 | the arrays change as the free function says |

## Left out

- `openCLOperations.c`: an unfinished port that repeats the CUDA file; the CUDA file is the one modelled.
- Foreign calls: CUDA, `mmap`, `vmap`, page-table walking, `ioctl` decoding, slab caches. Whether an allocation succeeds, whether a stream is finished and what a service callback returns are parameters, any value allowed; callbacks are taken to leave addresses, sizes and `stream_id` alone.
- Failing CUDA and system calls: `csc` and `ssc` end the process; the model has no state after that.
- `service.c`: dynamic loading and a linear lookup; the model only has whether the lookup succeeded.
- `kgpu_open` and `kgpu_release`: a single helper is assumed, as the device means to enforce.
- Termination and module removal: only the refusal of new calls after termination is modelled; draining is a TODO in the source.
- `kgpu_next_request_id`: an easy member; the protocol assumes what it is for, that outstanding ids are distinct.
- Interrupted waits of `kgpu_call_sync`: the source ignores the interruption and returns with the call still queued, so the guarantees are for waits that end by completion. `sync_callback` is one atomic step.
- `map_page_units`, `kgpu_unmap_area` and the page-fault handler: a failed map does not give its area back, and nothing is claimed about it.
- Concurrent frees of one block: the free routines read the size table before taking the lock; a free is one atomic step.
- Overlapping requests that register one page twice: `cudaHostRegister` fails on the second; the ledger counts calls, request by request, and does not model the runtime's table.
- `list_add`, `list_for_each` and `list_first_entry`: not used by the walks modelled here.
- KernelDevice.KgpuDev.KgpuRead: models the call with no other reader inside it; the interleaved form is `Protocol.ReadTake` and `ReadReturn`. A blocked wait is reduced to its outcome, woken with something queued or interrupted.
- KernelDevice.KgpuDev: its queues are sequences of tickets, not heap rings; the ring proofs are in `LinkedLists` and apply to the same `list_add_tail` and `list_del`. User callbacks are recorded, not run.
- Daemon.Helper.KhMainLoop: runs a given number of passes; the loop flag `kh_loop_continue` and signals are not modelled.
- Liveness.BoundedResponse: assumes the GPU reports every stream it is asked about as finished; with a GPU that never does, requests wait, and only `RankNeverRises` holds.
- Response.CallbackBounded: assumes the same, and that a poll reports a queued request, as `kgpu_poll` does; time is counted in polls of the helper, and nothing is said about when the helper is scheduled.
- DeviceMemory.DeviceIsolation: assumes the areas as `kh_init` lays them out, not overlapping and smaller than 4 GiB.
