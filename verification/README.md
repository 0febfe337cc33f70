# Verified models of the panel and of its proxy core

This project models, in Dafny 4.11, the parts of the repository where being right is hard, and proves what they are
for. Where the source changes state step by step, the model does: classes with the source's fields, arrays and loops,
each method proved against a specification on values; the theorems are lemmas about those specifications.

- **The Vision padding protocol** (`xray-core/proxy/proxy.go`). A writer frames buffers as blocks of command, content
  length, padding length, content and padding, and ends the padding with an End or Direct command; a reader takes the
  stream apart again byte by byte, wherever it was cut, and both switch to raw copy. `VisionUnpad` and `VisionCodec`
  hold the incremental parser and the round trip, `TlsRecords` and `TlsFilter` the recognition of TLS that drives the
  switch, `VisionReshape` and `VisionWriter` the writer, `VisionReader`, `VisionEndToEnd` and `VisionPlaces` the
  reader and both ends together.
- **Vue's reconciliation, scheduler and dependency bookkeeping** (`web/assets/vue@2.6.12/vue.common.dev.js`).
  `VueDom`, `VueDiff` and `VuePatch` hold the two-ended keyed diff over arrays with holes, `VueScheduler` the queue
  that is edited while it is drained, `VueDeps` the swapped dependency lists.
- **Feature dependency resolution** (`xray-core/core/xray.go`). `CoreFeatures` holds the runs of calls and callbacks
  on values, `CoreInstance` the instance.
- **Panel services** (`web/service`). `YamlText`, `ClashYaml`, `ClashConfig` and `ClashPrinter` hold the configuration
  printer and a reader that inverts it, `Restart` and `RestartService` the restart protocol, `InboundDelete` the
  cascading delete, `AccessIndex` the incremental index of the access log.

`Bytes`, `Sequences` and `Options` are shared. `dafny verify dfyconfig.toml` checks everything.

## What turned out false

- The number of packets to filter can rise inside one filter call, from below zero to zero (`TlsFilter.PacketsCanRise`;
  exactly when: `TlsFilter.PacketsRiseIff`); it never rises from call to call (`TlsFilter.FilterRunKeeps`).
- The reader decides from the current command alone. A read that ends early in the header of an End or Direct block
  makes it judge too soon (`VisionPlaces.HeaderCutLoses`, `VisionPlaces.HeaderCutHappens`); what is delivered is what
  was written exactly if the reads are in place (`VisionPlaces.TransparencyByPlaces`).
- A buffer that arrives after the padding and begins with the identifier restarts the unpadder
  (`VisionCodec.RoundTrip`, `VisionCodec.Streaming`: exactly then).
- A seed for padding lengths can make a length negative; `VisionWriting.PaddingNonNegative` says which seeds cannot.
- When several callbacks wait for one feature, only an error of the last is reported (`CoreInstance.ErrorLost`;
  exactly when no error is lost: `CoreInstance.AddReportsIff`, `CoreInstance.CallbackReportsIff`).
- A restart that is refused loses the change it was made for, as the flag is cleared first
  (`Restart.RefusedIsLost`, `Restart.UpToDate`).
- A first-seen time of 0 counts as unset (`AccessIndex.FirstIsLeast`: exactly when it matters).
- Different configurations can print alike when Go types differ (`ClashConfig.PrintedAlike`,
  `ClashConfig.SameTextSameMeaning`: exactly when they mean the same).

## Model

| member | source | states |
|---|---|---|
| `VisionUnpad.RunConcat` | xray-core/proxy/proxy.go:551-612 | the incremental automaton does not care where its input is cut: the run over `a + b` ends where the run over `b` from the end of `a` does, with the same output |
| `VisionUnpad.RunContent` | xray-core/proxy/proxy.go:569-587 | inside the content of a block, bytes come out unchanged and are counted down, and nothing else moves until the block is over |
| `VisionUnpad.RunPadding` | xray-core/proxy/proxy.go:588-596 | inside the padding of a block, bytes vanish and are counted down |
| `VisionUnpad.LinkState.XtlsUnpadding` | xray-core/proxy/proxy.go:535-616 | the loop over one buffer, with its chunk-wise reads of content and padding, ends in the counters and yields the bytes of the byte-by-byte automaton; every iteration consumes a byte |
| `VisionUnpad.LinkState.ConsumeSome` | xray-core/proxy/proxy.go:551-599 | one iteration of the loop, in any state inside a block, is a run of the automaton over the bytes it takes, and it takes at least one |
| `VisionCodec.RunPrefix` | xray-core/proxy/proxy.go:551-612 | after any number of the bytes of a framed block, the counters and the output so far in closed form: which header byte is next, how much content and padding is left |
| `VisionCodec.RunWire` | xray-core/proxy/proxy.go:496-616 | a whole padding phase is taken back to its contents, ends in the idle state, and leaves the last command as the current one |
| `VisionCodec.RunContinue` | xray-core/proxy/proxy.go:496-616 | the same for Continue blocks alone: the unpadder is ready for the next header |
| `VisionCodec.CutsMatter` | xray-core/proxy/proxy.go:535-616 | cutting a stream into buffers gives the same bytes as leaving it whole, unless a buffer that arrives outside a block begins with the identifier; then at least 16 bytes are missing |
| `VisionCodec.Streaming` | xray-core/proxy/proxy.go:535-616 | from any state inside the padding, one buffer `a + b` and the two buffers `a`, `b` give the same output and state if and only if the padding does not end with `a` before a `b` that looks like a fresh start |
| `VisionCodec.RoundTrip` | xray-core/proxy/proxy.go:496-616 | codec round trip under fragmentation: for all blocks, raw bytes after them and cuts whose first buffer has 21 bytes, the contents are recovered, the counters are reset and the last command is kept, if and only if no later buffer that arrives after the terminal block looks like a fresh start |
| `VisionCodec.RoundTripPadded` | xray-core/proxy/proxy.go:496-616 | when nothing follows the terminal block, the round trip holds for every cut |
| `TlsRecords.IsCompleteRecord` | xray-core/proxy/proxy.go:407-458 | the loop over index, header and record counters decides, for any chunking, whether the flattened bytes are all complete records |
| `TlsRecords.CompleteIffRecords` | xray-core/proxy/proxy.go:407-458 | that test holds exactly of the concatenations of zero or more `17 03 03` records with nonzero length and full body (section 5.2 of RFC 8446) |
| `TlsRecords.CompletePrefix` | xray-core/proxy/proxy.go:407-458 | closed under concatenation, and under removing a complete prefix |
| `TlsFilter.TrafficState.XtlsFilterTls` | xray-core/proxy/proxy.go:619-670 | the loop over the buffers leaves the filter in the state of the fold over them, early return included |
| `TlsFilter.FilterAllKeeps` | xray-core/proxy/proxy.go:619-670 | one call keeps: direct copy enabled implies TLS 1.2 or above implies TLS, and an enabled filter holds one of the four accepted TLS 1.3 suites |
| `TlsFilter.FilterRunKeeps` | xray-core/proxy/proxy.go:235-257 | over all runs of gated calls from both directions: the invariant holds, the number of packets to filter never rises from call to call, and once it is 0 or below the filter is frozen |
| `TlsFilter.PacketsWithinACall` | xray-core/proxy/proxy.go:619-670 | a packet makes the number rise exactly if the number is below zero before it and the packet stops the filter, which its bytes and the outstanding ServerHello length tell |
| `TlsFilter.PacketsRiseIff` | xray-core/proxy/proxy.go:619-670 | within a call the number rises somewhere if and only if a packet of the call stops the filter and more packets have come before it than the number allowed for |
| `TlsFilter.PacketsCanRise` | xray-core/proxy/proxy.go:619-670 | and that happens, from the start, without empty packets: a ServerHello announces 15 bytes and nine packets of one byte follow, the last three in one call |
| `TlsFilter.NoServerHelloNoXtls` | xray-core/proxy/proxy.go:619-670 | without a ServerHello (section 4.1.3 of RFC 8446) in any buffer, no run enables direct copy |
| `TlsFilter.CallOutcome` | xray-core/proxy/proxy.go:619-670 | one call, however its ServerHello is spread over packets: where it stops, the number and the cipher suite it leaves, and that it enables direct copy exactly if the stopping packet shows TLS 1.3 within the ServerHello and the last suite named is accepted |
| `TlsFilter.EnabledIff` | xray-core/proxy/proxy.go:235-257 | over whole runs of calls: direct copy is enabled if and only if some call comes in time, no packet having stopped the filter before, and ends in a packet that shows TLS 1.3 in its supported_versions (section 4.2.1 of RFC 8446) within the ServerHello, of an accepted suite |
| `TlsFilter.LearntIff` | xray-core/proxy/proxy.go:619-643 | over whole runs: the traffic counts as TLS exactly if a ClientHello or a ServerHello is among the packets looked at, which the hellos and the number of packets tell, and as TLS 1.2 or above exactly if a ServerHello is |
| `TlsFilter.SuiteOfHello` | xray-core/proxy/proxy.go:627-637 | of a ServerHello built from random, session id and suite (section 4.1.3 of RFC 8446), delivered whole or not, the record length is read off, and the suite wherever the session id puts it, if both packet and record have 79 bytes |
| `TlsFilter.WholeHelloEnables` | xray-core/proxy/proxy.go:619-670 | a whole ServerHello with supported_versions 0x0304 in one packet stops the filter, and enables direct copy exactly for the suites 0x1301 to 0x1304 |
| `VisionReshape.ReshapeMultiBuffer` | xray-core/proxy/proxy.go:461-493 | the method, with its fast path when no buffer is too large, computes the reshaped list |
| `VisionReshape.ReshapeCorrect` | xray-core/proxy/proxy.go:461-493 | reshaping keeps the concatenated bytes and leaves every buffer at most 8192 - 21 bytes long |
| `VisionReshape.CutFallsAt` | xray-core/proxy/proxy.go:464-478 | a buffer of 8171 bytes or more is cut once: where its last application-data record begins, if that is at 21 to 8171, and at 4096 if not; smaller ones stay whole |
| `VisionWriting.PaddingNonNegative` | xray-core/proxy/proxy.go:498-512 | padding lengths are never negative for any content that fits and any draw, if and only if the seed satisfies the bounds on its first, second and third entries |
| `VisionWriting.DefaultSeedIsGood` | xray-core/proxy/proxy.go:304-320 | the default seed satisfies them; under it both lengths fit their two bytes and the block fits a buffer, identifier included |
| `VisionWriting.PaddingHidesLength` | xray-core/proxy/proxy.go:498-512 | what long padding is for: under the default seed, content of fewer than 900 bytes is padded to a total that can be any of 900 to 1399 and no other, whatever its length; all other padding is 0 to 255 bytes as far as the buffer reaches |
| `VisionWriting.VisionWriter.XtlsPadding` | xray-core/proxy/proxy.go:496-532 | one framed buffer: the identifier if it has not been written, then the encoding of the block; it fits in a buffer, and the identifier is not written again |
| `VisionWriting.PadLoopGood` | xray-core/proxy/proxy.go:361-392 | the loop over the buffers of one call frames Continue blocks and at most one terminal block, keeps the contents, and marks direct copy exactly if the terminal block is Direct |
| `VisionWriting.WriteStepFraming` | xray-core/proxy/proxy.go:322-404 | one call in any state: padded blocks only while padding, the terminal block in the very call that ends the padding, the direct-copy flag exactly for a Direct block, and the bytes emitted carry the bytes written |
| `VisionWriting.PaddingEndsIff` | xray-core/proxy/proxy.go:356-392 | a call from a padding state ends the padding if and only if it is not blank and either the traffic is TLS, the bytes of the call are whole records, and some reshaped buffer of six bytes or more begins with `17 03 03`, or there is no TLS 1.2 while at most one packet is left; direct copy follows exactly if it has been enabled |
| `VisionWriting.DirectOnlyAtRecords` | xray-core/proxy/proxy.go:360-364 | the direct-copy flag is set only by a call of whole records with direct copy enabled |
| `VisionWriting.FramedByBuffers` | xray-core/proxy/proxy.go:356-392 | each buffer of the reshaped call gets its own block, padded long until a buffer ends the padding and for those that do, up to the buffer where the writer gives up; the rest goes out unpadded; a lone missing buffer becomes a bare header with long padding |
| `VisionWriting.WriteStepKeeps` | xray-core/proxy/proxy.go:322-404 | the writer's invariant: identifier still owed exactly before the first block, one padding phase, nothing unpadded before it ends |
| `VisionWriting.RunFraming` | xray-core/proxy/proxy.go:322-404 | framing over all runs, with filter calls of the other direction in between: identifier once and first, Continue blocks, at most one End or Direct, then unpadded bytes, on the raw connection exactly after a Direct; contents conserved |
| `VisionWriting.FilterSeesCalls` | xray-core/proxy/proxy.go:352-354 | over all runs the filter has seen the buffers of every call, of both directions and in order, while it had packets to filter |
| `VisionWriting.BeginCarried` | xray-core/proxy/proxy.go:142-171 | the run starts in that invariant |
| `VisionWriting.VisionWriter.PadBuffers` | xray-core/proxy/proxy.go:361-392 | the loop that overwrites the buffers in place leaves the frames and flags of the loop on values |
| `VisionWriting.VisionWriter.WriteMultiBuffer` | xray-core/proxy/proxy.go:322-404 | the method changes the writer, the shared state and the two connections as one step of the run |
| `VisionReading.VisionReader.ReadMultiBuffer` | xray-core/proxy/proxy.go:203-285 | the method delivers the bytes and leaves the state of one step of the reader, drains the connection below exactly at the switch, and leaves the filter as it is after the unpadded buffers |
| `VisionReading.FilterSeesDeliveries` | xray-core/proxy/proxy.go:235-257 | over all runs of reads and of calls from the other direction, the filter is the gated run over the packets: of each read what its buffers unpad to, the empty ones left out, in order, up to the switch to direct copy |
| `VisionReading.ReadsEnableIff` | xray-core/proxy/proxy.go:235-257 | so direct copy is enabled if and only if a read, or a call of the other direction, in time brings the packet that shows TLS 1.3 within a ServerHello of an accepted suite |
| `VisionReading.DeliveredArePackets` | xray-core/proxy/proxy.go:235-265 | what such a read delivers is these packets, followed at the switch by what the connection below still held, decrypted bytes first |
| `VisionReading.StepKeeps` | xray-core/proxy/proxy.go:235-257 | the reader's invariant over its flags and counters |
| `VisionReading.ExactRun` | xray-core/proxy/proxy.go:203-285 | a run of reads delivers what the byte automaton makes of the bytes consumed if and only if every read is proper: bytes pass unchanged only outside a block, no read leaves a block open at a switch, no late buffer restarts the padding |
| `VisionEndToEnd.Transparency` | xray-core/proxy/proxy.go:203-404 | end to end: for every run of the writer with interleaved filter calls, and every way the peer reads the emitted bytes, the bytes delivered are the bytes written if and only if every read is proper |
| `VisionEndToEnd.SwitchTogether` | xray-core/proxy/proxy.go:259-285 | after a proper run the reader has switched to raw copy exactly if the writer has |
| `VisionEndToEnd.ContinueIsProper` | xray-core/proxy/proxy.go:235-257 | while only Continue blocks have been sent, every run is proper, whatever the cuts |
| `VisionPlaces.JudgedAt` | xray-core/proxy/proxy.go:244-257 | after any number of bytes of the stream, the reader takes the padding for over exactly past its end, or inside the last header while no length shows yet |
| `VisionPlaces.ProperIffInPlace` | xray-core/proxy/proxy.go:203-285 | the reads of a stream are proper if and only if they are in place: none ends blind in a Direct header, none that ends blind in an End header is followed by one without filtering, and none that is unpadded brings a late fresh start |
| `VisionPlaces.TransparencyByPlaces` | xray-core/proxy/proxy.go:203-404 | end to end by places in the stream and the filtering flags alone: what is delivered is what was written if and only if, once the padding has ended, the reads are in place |
| `VisionPlaces.CleanIsProper` | xray-core/proxy/proxy.go:235-257 | a run is proper if no read ends inside the header of the terminal block and nothing after that block looks like a fresh start |
| `VisionPlaces.CleanTransparency` | xray-core/proxy/proxy.go:203-404 | transparency from that simple premise |
| `VisionPlaces.HeaderCutLoses` | xray-core/proxy/proxy.go:244-250 | for all blocks: a first read that ends blind in the header of a Direct block makes the reader switch too early, and the contents are not delivered |
| `VisionPlaces.HeaderCutHappens` | xray-core/proxy/proxy.go:244-250 | such a run exists |
| `VueDom.MoveBefore` | web/assets/vue@2.6.12/vue.common.dev.js:5699-5701 | moving a node of a child list in front of another takes it out of its place and puts it there, and disturbs nothing else |
| `VueDiff.StartInvariant` | web/assets/vue@2.6.12/vue.common.dev.js:6158-6168 | the books of the diff hold at the start: nothing placed, everything in place |
| `VueDiff.StartStartKeeps` | web/assets/vue@2.6.12/vue.common.dev.js:6183-6186 | equal heads: the invariant is kept without touching the DOM |
| `VueDiff.EndEndKeeps` | web/assets/vue@2.6.12/vue.common.dev.js:6187-6190 | equal tails: the same |
| `VueDiff.MovedRightKeeps` | web/assets/vue@2.6.12/vue.common.dev.js:6191-6195 | old head for new tail: moving the element behind the old tail's one keeps the DOM as placed front, remaining old elements, placed back |
| `VueDiff.MovedLeftKeeps` | web/assets/vue@2.6.12/vue.common.dev.js:6196-6200 | old tail for new head: the mirror image |
| `VueDiff.MovedMiddleKeeps` | web/assets/vue@2.6.12/vue.common.dev.js:6209-6214 | a counterpart found by key: its element moves to the front and its place in the old list becomes a hole |
| `VueDiff.CreatedKeeps` | web/assets/vue@2.6.12/vue.common.dev.js:6206-6221 | no counterpart: a new element keeps the invariant, including that no keyed vnode with an unused counterpart is ever created anew |
| `VueDiff.UsedForAnother` | web/assets/vue@2.6.12/vue.common.dev.js:6158-6228 | with distinct keys, an old vnode that was used for one new vnode is no counterpart of another |
| `VueDiff.AtTheEnd` | web/assets/vue@2.6.12/vue.common.dev.js:6222-6227 | when both windows are closed, the children are reconciled |
| `VueDiff.ReconciledByLikes` | web/assets/vue@2.6.12/vue.common.dev.js:5806-5829 | an element goes only from an old vnode to a new one with the same key, tag, comment flag and presence of data, and for an input the same type or two text types, async placeholders aside; and with distinct old keys a keyed vnode gets the element of the one that is like it |
| `VuePatch.CreateKeyToOldIdx` | web/assets/vue@2.6.12/vue.common.dev.js:5831-5839 | the index maps each key of the window to the old vnode that has it |
| `VuePatch.FindIdxInOld` | web/assets/vue@2.6.12/vue.common.dev.js:6248-6253 | the scan finds a counterpart that is not a hole, if there is one |
| `VuePatch.IndexDecides` | web/assets/vue@2.6.12/vue.common.dev.js:6201-6214 | though built once and used while both windows shrink, the index decides: the entry it gives is the only counterpart there can be |
| `VuePatch.DiffWindows` | web/assets/vue@2.6.12/vue.common.dev.js:6158-6221 | the loop over four indices, with holes written into the old array and an index built on first use, ends with a window closed and the invariant intact |
| `VuePatch.AddVnodes` | web/assets/vue@2.6.12/vue.common.dev.js:6095-6099 | the remaining new vnodes are created in order in front of the reference element |
| `VuePatch.RemoveVnodes` | web/assets/vue@2.6.12/vue.common.dev.js:6115-6130 | the remaining old elements, holes aside, leave the children |
| `VuePatch.UpdateChildren` | web/assets/vue@2.6.12/vue.common.dev.js:6158-6228 | afterwards the children are exactly the new vnodes' elements in order; each comes from one old vnode that agrees with it in key, tag and kind, or is new; with distinct old keys every keyed vnode that has such a counterpart gets that counterpart's element |
| `VueScheduler.Scheduler.QueueWatcher` | web/assets/vue@2.6.12/vue.common.dev.js:4376-4402 | queueing keeps the queue: during a flush the part after `index` stays strictly increasing in id, and `has` marks exactly that part |
| `VueScheduler.Scheduler.SpliceIn` | web/assets/vue@2.6.12/vue.common.dev.js:4383-4390 | the scan from the back finds the place that keeps the rest of the queue sorted |
| `VueScheduler.Scheduler.RunWatcher` | web/assets/vue@2.6.12/vue.common.dev.js:4300-4323 | one turn, whatever watchers are queued before and during it, and the circular-update count |
| `VueScheduler.Scheduler.FlushSchedulerQueue` | web/assets/vue@2.6.12/vue.common.dev.js:4283-4329 | draining the queue that is edited while it is drained is the plain flush: take the least pending watcher, until none is left or one has queued itself too often; what is pending then is dropped |
| `VueScheduler.PlainFlushServes` | web/assets/vue@2.6.12/vue.common.dev.js:4283-4329 | the plain flush runs only what is queued, and unless it is cut off it leaves nothing pending |
| `VueScheduler.OncePerQueueing` | web/assets/vue@2.6.12/vue.common.dev.js:4283-4329 | in any justified trace, a watcher runs exactly as often as it was taken into the queue, dropped and pending times aside |
| `VueScheduler.CutIff` | web/assets/vue@2.6.12/vue.common.dev.js:4308-4322 | the flush is cut off if and only if some watcher has queued itself again more than 100 times |
| `VueScheduler.LoopLimit` | web/assets/vue@2.6.12/vue.common.dev.js:4308-4322 | a watcher that queues itself again 100 times runs 101 times and the flush goes on; the 101st time the flush is cut off |
| `VueScheduler.FlushInOrder` | web/assets/vue@2.6.12/vue.common.dev.js:4287-4302 | watchers run by id whatever is queued on the way: each run is of the least watcher pending when its turn began |
| `VueScheduler.FlushServes` | web/assets/vue@2.6.12/vue.common.dev.js:4283-4402 | unless the flush is cut off, every request during it, or before it and not dropped by an earlier cut, is followed by a run of that watcher, once per queueing |
| `VueScheduler.Scheduler.WholeRun` | web/assets/vue@2.6.12/vue.common.dev.js:4227-4402 | over whole runs of the scheduler, whose `has` is always what its events leave pending: every request is followed by a run or by a flush that was cut off, or is still in the queue, and runs, drops and waiting watchers add up to the times taken in |
| `VueDeps.Watcher.AddDep` | web/assets/vue@2.6.12/vue.common.dev.js:4496-4505 | a dep is collected once, subscribed to once, and no other watcher's subscription changes |
| `VueDeps.Watcher.CleanupDeps` | web/assets/vue@2.6.12/vue.common.dev.js:4510-4526 | what was not touched again is unsubscribed, then the lists and sets swap places; other watchers keep their subscriptions |
| `VueDeps.Runtime.Get` | web/assets/vue@2.6.12/vue.common.dev.js:4469-4491 | after an evaluation the watcher occurs exactly once in the subscribers of each dep touched and in no others; so does every watcher evaluated on the way, for the deps touched in its last evaluation; other watchers keep their deps |
| `VueDeps.Runtime.Depend` | web/assets/vue@2.6.12/vue.common.dev.js:725-729 | touching a dep is recorded with the watcher on top of the stack, if any |
| `VueDeps.Runtime.AddWatcher` | web/assets/vue@2.6.12/vue.common.dev.js:4415-4463 | a new watcher has no deps and is no subscriber |
| `VueDeps.Runtime.AddDep` | web/assets/vue@2.6.12/vue.common.dev.js:712-715 | a new dep, under an id of its own, has no subscribers |
| `VueDeps.PlainAvoidsBusy` | web/assets/vue@2.6.12/vue.common.dev.js:4469-4491 | an evaluation without re-entry touches no watcher that is already being evaluated |
| `CoreFeatures.ExecKeeps` | xray-core/core/xray.go:279-373 | whatever callbacks do, every run ends with no pending entry that could be called, no callback called too early, and each callback accounted for as called or waiting, once per requirement |
| `CoreFeatures.ExactlyOnce` | xray-core/core/xray.go:279-373 | at quiescence a callback has run as often as it was required if all its types are registered, and not at all otherwise; then it waits in the list it belongs to |
| `CoreFeatures.CalledInOrder` | xray-core/core/xray.go:330-371 | the callbacks that become available are called in the order in which they were required, those that are not optional first |
| `CoreFeatures.ExecAppend` | xray-core/core/xray.go:279-373 | calls made in callbacks are finished before what follows them goes on |
| `CoreFeatures.ExecPotential` | xray-core/core/xray.go:319-373 | along a run, the calls made and the calls to come, taken under the types registered in the end, stay the same multiset |
| `CoreFeatures.RunIsLeast` | xray-core/core/xray.go:279-373 | the calls of a whole run are those its top-level calls lead to under the types registered in the end, and these types are the least set closed under them |
| `CoreFeatures.OrderIndependent` | xray-core/core/xray.go:279-373 | any order of the same top-level calls registers the same features, calls the same callbacks as often, and leaves the same ones waiting |
| `CoreInstance.EnoughInputs` | xray-core/core/xray.go:47-63 | a callback gets an input for each parameter, assignable to it, if and only if every parameter type has a feature assignable to it |
| `CoreInstance.NoPanic` | xray-core/core/xray.go:61-63 | when features are assignable to the types they are registered under, a satisfied callback never meets the panic |
| `CoreInstance.InputsAreFirst` | xray-core/core/xray.go:51-59 | the inputs are, in the order of the parameters, the first features assignable to them |
| `CoreInstance.GivenStays` | xray-core/core/xray.go:51-59 | features registered later would have made no difference |
| `CoreInstance.DishonestPanics` | xray-core/core/xray.go:38-63 | without that premise it can: a feature registered under a type its value is not assignable to |
| `CoreInstance.SameInputs` | xray-core/core/xray.go:47-59 | when at most one feature is assignable to each parameter type, a callback gets the same inputs whenever it is called and in whatever order features were registered |
| `CoreInstance.InputsByOrder` | xray-core/core/xray.go:47-59 | otherwise the order decides which input it gets |
| `CoreInstance.Instance.GetFeature` | xray-core/core/xray.go:376-378 | the first feature registered under the type, or none |
| `CoreInstance.Instance.CallbackResolution` | xray-core/core/xray.go:47-79 | collects the inputs, calls the callback and all it calls in turn; every callback called has been given, parameter by parameter, the first feature assignable to the type; the missing-parameter panic is unreachable |
| `CoreInstance.Instance.RequireFeatures` | xray-core/core/xray.go:279-316 | calls the callback at once or appends it to the list it belongs to, re-entrant calls included |
| `CoreInstance.Instance.AddFeature` | xray-core/core/xray.go:319-373 | registers the feature, replaces both pending lists, calls what has become available, and returns the error of the last callback called, if it returns one; a running instance changes nothing |
| `CoreInstance.InitFeatures` | xray-core/core/xray.go:189-240 | building an instance: applications in order, then the essential features that are missing; which failure ends it where, and what it leaves |
| `CoreInstance.EndsOnce` | xray-core/core/xray.go:189-240 | there is exactly one outcome and one state that this allows |
| `CoreInstance.EndsWell` | xray-core/core/xray.go:189-240 | when nothing fails, all calls have been made, and it fails for unresolved dependencies exactly when the list of required callbacks is not empty |
| `CoreInstance.BlameIsReal` | xray-core/core/xray.go:199-223 | when it stops because of a callback, a callback has failed by itself |
| `CoreInstance.BuiltMeans` | xray-core/core/xray.go:235-240 | that list is empty if and only if every callback required without being optional has all its features |
| `CoreInstance.EssentialThere` | xray-core/core/xray.go:209-225 | all essential types are registered in the end, whatever the applications registered |
| `CoreInstance.ReturnedIsReal` | xray-core/core/xray.go:279-373 | whatever returns an error has called, at whatever depth, a callback that fails by itself |
| `CoreInstance.AddReportsIff` | xray-core/core/xray.go:368-372 | registering a feature reports the errors of the callbacks it calls if and only if none of them returns one or the last one does |
| `CoreInstance.QuietAddReportsIff` | xray-core/core/xray.go:368-372 | for callbacks that make no calls: if and only if none of them fails or the last one does |
| `CoreInstance.CallbackReportsIff` | xray-core/core/xray.go:65-79 | an error of a call made inside a callback comes out if and only if the callback passes errors on, or fails anyway |
| `CoreInstance.NothingLost` | xray-core/core/xray.go:279-373 | in a run in which callbacks pass errors on and no feature makes two available at once, an error comes out if and only if a callback fails at any depth |
| `CoreInstance.ErrorLost` | xray-core/core/xray.go:368-372 | otherwise it can be lost: two callbacks wait for a feature, the first fails, the second does not |
| `ClashPrinter.RenderClashConfig` | web/service/share_link.go:677-696 | the file is the three sections of the configuration |
| `ClashPrinter.WriteYamlMap` | web/service/share_link.go:698-736 | a map is printed key by key in sorted order, whatever order its keys are picked in, inline or on lines of its own |
| `ClashPrinter.KeysOf` | web/service/share_link.go:699-703 | collecting the keys in any order and sorting them gives one sequence |
| `ClashPrinter.WriteEntry` | web/service/share_link.go:711-735 | a key with a nested map, a list of strings, a list, or a scalar |
| `ClashPrinter.WriteYamlScalarOrInlineMap` | web/service/share_link.go:739-748 | an item of a list: a scalar, or a map on the lines below |
| `ClashPrinter.WriteYamlScalar` | web/service/share_link.go:750-769 | scalars: strings quoted, booleans, decimal numbers, nil as the empty string |
| `YamlText.UnquotedDoubled` | web/service/share_link.go:771-773 | reading a single-quoted string with doubled quotes gives the string back (section 7.3.2 of YAML 1.2.2) |
| `YamlText.IntOfDecimal` | web/service/share_link.go:759-762 | reading a decimal number gives the number back |
| `YamlText.SortedUnique` | web/service/share_link.go:703-703 | there is one way to put the same keys in order |
| `YamlText.AtMostIff` | web/service/share_link.go:703-703 | the order is that of the first character that differs, a prefix first |
| `YamlText.SplitText` | web/service/share_link.go:698-736 | splitting the printed text gives the lines with their indentation back |
| `ClashYaml.NodeBack` | web/service/share_link.go:698-736 | reading the lines of a map, whatever follows at lesser indentation, gives its entries and what follows |
| `ClashYaml.ItemsBack` | web/service/share_link.go:718-730 | the same for the items of a list |
| `ClashConfig.LeftInverse` | web/service/share_link.go:677-773 | the printer has a left inverse: reading the printed file gives what the configuration means |
| `ClashConfig.ReadBackShows` | web/service/share_link.go:677-773 | in what is read back every map has the same keys and every scalar is at its place with its type: booleans, numbers, strings, items of lists, nil as the empty string |
| `ClashConfig.FileInPrint` | web/service/share_link.go:677-696 | headings, a proxy and a rule, character by character |
| `ClashYaml.ScalarsInPrint` | web/service/share_link.go:750-773 | true, false, 0, -40, a string with a quote, and nil in print |
| `ClashYaml.ScalarLine` | web/service/share_link.go:708-735 | a scalar stands on the line of its key |
| `ClashYaml.MapInPrint` | web/service/share_link.go:709-715 | a map inside a map stands on the lines below its key, two columns deeper |
| `ClashYaml.ListInPrint` | web/service/share_link.go:716-730 | items stand below the key of the list, two columns deeper; a map in a list, two more |
| `ClashConfig.PlainLegible` | web/service/share_link.go:677-773 | plain keys, one-line strings and proxies that are not empty are premise enough |
| `ClashConfig.SameTextSameMeaning` | web/service/share_link.go:677-773 | two configurations print the same text if and only if they mean the same |
| `ClashConfig.PrinterInjective` | web/service/share_link.go:677-773 | equal text means equal configuration, when blocks are not empty and the Go types can be told apart |
| `ClashConfig.PrintedAlike` | web/service/share_link.go:709-769 | without that, different configurations print the same file: nil and the empty string, a list of strings given as either type, an empty map and an empty list, a value of another type and the string it prints as |
| `Restart.NoLostRestart` | web/service/xray.go:213-288 | in every interleaving of mutators, restarters, crashes and failures, each committed change whose flag is set is in the configuration last put in place, or the flag is set, or a restarter has yet to read the database or is at work with it, or a restart that had read it was refused, or one that had read it left the process down and it still is |
| `Restart.CoveredKept` | web/service/xray.go:213-288 | the step of that: no single step uncovers a change |
| `Restart.ThreadKept` | web/service/xray.go:213-216 | one restarter at a time holds the lock, and the configuration it would roll back to is the one last applied |
| `Restart.UpToDate` | web/service/xray.go:213-288 | when all are done and the process is up, it runs the latest database if and only if the last refused restart has been made up for |
| `Restart.SuccessfulRestarts` | web/controller/inbound.go:40-51 | as long as no restart is refused, a process that is up when all are done runs the latest database |
| `Restart.RestartAlone` | web/service/xray.go:213-270 | a restarter that nobody gets in the way of leaves the process as stated for the method, step by step |
| `Restart.RefusedIsLost` | web/controller/inbound.go:40-51 | the flag is cleared before the restart is tried: the change is running afterwards if and only if building, validation and start succeed, and otherwise nothing is left that would try again |
| `RestartService.XrayService.RestartXray` | web/service/xray.go:213-270 | an error exactly if building, validation or a start that was needed fails, even when the rollback works; without one the built configuration runs, with one the old configuration or, after a failed rollback, nothing; statuses in order, the last one Applied or Failed accordingly |
| `RestartService.XrayService.IsNeedRestartAndSetFalse` | web/service/xray.go:286-288 | claims the flag once |
| `RestartService.XrayService.RestartIfNeeded` | web/controller/inbound.go:40-51 | the job restarts only if it claims the flag, which is cleared in any case |
| `InboundDelete.Database.DelInbound` | web/service/inbound.go:327-335 | all or nothing, and it succeeds if and only if no database call fails: then the tables are those with the inbound deleted, otherwise as they were |
| `InboundDelete.Database.CleanupExecutionState` | web/service/inbound.go:337-389 | the loop over the bindings, in any order the database lists them, removes the bindings of the inbound and exactly the managed policies bound to it alone, with their rules; it fails exactly if a database call does |
| `InboundDelete.Database.CleanupBinding` | web/service/inbound.go:350-386 | one binding: policy missing, not managed, shared, or removed; it fails exactly if a database call does |
| `InboundDelete.IntegrityKept` | web/service/inbound.go:327-389 | afterwards nothing mentions the inbound, every rule has its policy, and other inbounds and their bindings are unchanged, bindings keeping their policies |
| `InboundDelete.PoliciesAccountedFor` | web/service/inbound.go:350-386 | a policy is gone if and only if it is managed, had a binding and has none left; it then has no rule left; a policy that stays is unchanged with all its rules |
| `InboundDelete.DeletesCommute` | web/service/inbound.go:327-389 | two inbounds can be deleted in either order with the same result |
| `InboundDelete.ManagedIff` | web/service/inbound.go:391-394 | a remark is managed if and only if it begins with one of the two prefixes once blanks in front are dropped, whatever follows |
| `AccessIndex.AccessIPService.ProcessAccessLog` | web/service/access_ip.go:60-123 | processes the lines after the offset, event by event, and moves the offset; nothing happens while aggregation is off; a log shorter than the offset is read from its start |
| `AccessIndex.AccessIPService.UpsertRecord` | web/service/access_ip.go:243-268 | creates or updates the row of the event's address and port |
| `AccessIndex.AccessIPService.ClearAccessIPRecords` | web/service/access_ip.go:181-200 | no rows are left, and what has been logged so far will not be counted |
| `AccessIndex.AccessIPService.UpdateConfig` | web/service/access_ip.go:140-161 | switching aggregation off skips what has been logged so far |
| `AccessIndex.UpsertIndexes` | web/service/access_ip.go:243-268 | an event keeps the index right: one row per address and port, its count and its times |
| `AccessIndex.IndexAgrees` | web/service/access_ip.go:60-200 | for every schedule the rows index the events taken in since the last clear, and the hits add up to their number |
| `AccessIndex.NothingSkipped` | web/service/access_ip.go:60-123 | while aggregation is not switched off, the events taken in are those of the log from the last clear to the offset: none skipped, none twice |
| `AccessIndex.OffAndOn` | web/service/access_ip.go:60-161 | while aggregation is off nothing is counted; the lines not processed before it was switched off never are, and those logged while it is off are counted once it is on again |
| `AccessIndex.IncrementalIsBatch` | web/service/access_ip.go:60-123 | processing in pieces indexes what processing the whole log since the last clear at once does |
| `AccessIndex.IndexUnique` | web/service/access_ip.go:243-268 | an index of the same events has the same rows |
| `AccessIndex.IndexIsExact` | web/service/access_ip.go:243-268 | with positive times, a row holds the count, the minimum and the maximum of its events |
| `AccessIndex.FirstIsLeast` | web/service/access_ip.go:260-262 | with times that are not negative, the first time kept is the minimum if and only if 0 does not occur or comes last, because 0 counts as unset |

## Left out

Vision:

- Sockets, the wrapped connections, `UnwrapRawConn`, splice copy and counters, write errors: a connection is the
  sequence of bytes given to it or taken from it; writes succeed.
- Buffers are byte sequences of at most 8192 bytes (`buf.Size`, `xray-core/common/buf/buffer.go:13`). The output of the
  unpadder is never longer than its input, so nothing is truncated. A nil buffer inside a longer list, which
  `IsCompleteRecord` would dereference, is not passed. `|` on header bytes is `+`, as the low byte is zero then.
- The cipher suite can be read from beyond the content of a buffer; `TlsFilter.Buffer` carries what the backing array
  holds there. That it holds enough is a premise.
- Random padding lengths are given by arbitrary draws; padding bytes are arbitrary in the codec, and zero in the writer,
  which is what extending a buffer leaves. Seeds whose bounds are zero or leave 32 bits are not drawn from, and the
  writer's runs are those of seeds whose padding lengths are never negative.
- Filter calls of the other direction come between writes, not inside one.

- VisionWriting.VisionWriter.XtlsPadding: seeds with an empty range to draw from, or that can make a padding length negative,
  are excluded; for those the source panics in the random draw, or extends a buffer by a negative length.
- VisionWriting.VisionWriter.PadBuffers: the same seeds are excluded.
- VisionWriting.VisionWriter.WriteMultiBuffer: the same seeds, and a nil buffer inside a longer list, which the source
  dereferences.

Vue:

- Grandchildren, component hooks, transitions (`removeOnly`, delayed removal), cloning of vnodes already rendered,
  async placeholders: children are patched in place and removed at once. The key index is a map, without the
  properties a JavaScript object inherits. Duplicate keys among the new vnodes, which Vue warns about, are excluded;
  the old list may have them, except where stated.
- Activated and updated hooks, and the flush without a next tick (`config.async`); sorting is a library function.
  Watchers are known by their ids, and what they queue when they run is arbitrary.
- Dirty, lazy and torn-down watchers, and a `get` that re-enters the same watcher.

Feature resolution:

- CoreFeatures.OrderIndependent: the calls a callback makes are a fixed list, arbitrary and nested to any depth; they do
  not depend on the features it is given. Which features it is given can depend on the order of registration, exactly
  as `CoreInstance.SameInputs` and `CoreInstance.InputsByOrder` say. Nor does a callback stop at a call that returns an
  error, or require itself again without end.
- Starting and closing features, reflection, contexts, handlers, and the lock, as the calls of one thread are modelled.

YAML:

- Values of other types, and lists inside lists, are printed as `fmt.Sprint` gives them; the text is a parameter.
- Keys with colons, line breaks, leading blanks or dashes, and strings with line breaks: the reader does not read them
  back. An empty proxy, for which the printer leaves a line open, is printed but not read back.

Restart:

- The database is read at one moment; building, validation, start and rollback succeed or fail arbitrarily. The process
  is down once it is stopped; the watchdog's two looks are one. The N5 merge service is not part of this model; whether
  a restart has a history entry is a parameter.

Inbounds and access records:

- Columns that play no part are one field. A database call fails arbitrarily; a transaction that fails is undone.
- Lines become events by an arbitrary partial function. A missing log file, a line that is written while it is read,
  a scan that fails halfway and the summary file are left out; a log that was cut off is read from its start by the
  method, but schedules have logs that grow.
- Inbound handlers, share links other than the configuration file, sessions, certificates and installers would only
  add easy members.
