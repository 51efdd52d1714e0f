# VOXMail, modelled and proved

VOXMail answers the phone for a mailbox: a Go service drives calls and mail, and a C
shim joins it to the baresip SIP client. This project models the parts whose correctness
is hardest to see from reading one function, and proves what they promise for every input,
every run and every interleaving.

| module | what it is about |
|---|---|
| Base64, ImapUtf7 | mailbox names in modified UTF-7 (section 5.1.3 of RFC 3501, RFC 2781, RFC 4648) |
| LenientBase64, LineEndings | the attachment reader that tolerates damage, fed in arbitrary pieces |
| FrameParser | newline frames out of arbitrary socket chunks |
| CommandQueue, CommandWakeup | the command ring and the pipe that wakes its handler |
| ClientOwner | the generation-stamped control descriptor |
| EventQueue | outgoing control events, re-queued at the head when nobody is connected |
| SpeechPipeline, SpeechChunks | double-buffered speech, and cutting a body into pieces for it |
| DialLifecycle | who tells a caller of Dial how the call ended |
| SyncOwnership | one synchronization per account, and stopping it for good |
| Decimals, MbsyncState, Reconcile | which local mail a completed remote walk makes stale |
| PacedWriter, PcmClock | how far audio may run ahead of real time |
| Leases, TreeCleanup | what maintenance may remove, and removing trees piecemeal |
| SpokenNumbers, SpokenOrdinals, SpokenMoney | numbers, ordinals and amounts as words, read back exactly |
| Keypad | the multi-tap editor |
| Navigation, DtmfQueue | going back in the menus, stale keys, and the per-call event queue |
| Text, Sets, Wrappers | runes, white space and trimming; set sizes; the Option type |

Code that changes state is a class or a method proved against a specification function;
the laws are lemmas about that function. Concurrent protocols are step relations in which
each section held under a lock, and each channel or pipe operation, is one atomic step:
`Enabled` and `Apply` give the steps, `Executable` and `Exec` the runs, and `Inv` what
every step keeps. Foreign code (SIP, synthesis, file systems, clocks) appears only through
the answers it may give, which are arbitrary.

## Where the code is narrower than its comments

The model follows the code. In each case below the exact condition, or a concrete run, is
proved.

- A closing quote or bracket after a terminator that is followed neither by a blank nor by
  the end is spoken twice (`SpeechChunks.SentencesKeepTextIff`).
- The event queue reaches 257 items (`EventQueue.QueueReaches257`).
- A wakeup write that fails for good strands the command it was for, and a failed re-arm
  after a full batch strands the rest of the queue (`CommandWakeup.StrandedIff`,
  `CommandWakeup.FailedWakeupStrands`, `CommandWakeup.StrandedForGood`).
- An old descriptor snapshot is told apart from a later publication only within one cycle
  of the generation counter (`ClientOwner.StaleSnapshotClearsNothing`). The worker's
  `shutdown` of a displaced descriptor is never reached: nothing live is displaced.
- A dial request without a user can be dropped without ever being signalled; one with a
  user cannot (`DialLifecycle.LostIffUserless`).
- A row with one half of the UID pair and no Message-ID is retired, although nothing could
  identify it (`Reconcile.HalfAPairIsRetired`).
- A lease on the root directory protects nothing below it (`Leases.ClashesIffOverlaps`).
- Removing nested directories deeper than the budget makes no progress, pass after pass
  (`TreeCleanup.ChainProgressIff`).
- Truncation can end inside a word: behind a late terminator that no blank follows, as in
  "Pi is 3.", or at the limit when no space comes before it
  (`SpeechChunks.TruncatedMidWordIff`, `SpeechChunks.NumberIsCut`).
- A sentence with a word longer than the chunk limit is cut inside that word
  (`SpeechChunks.ChunksKeepWordsIff`).
- Waiting for a full FIFO uses up the three attempts meant for reopening a broken one
  (`PacedWriter.InterruptionsAreResumed`).
- A key pressed before Drain closes the formal session still passes the staleness check
  (`Navigation.FreshKeyIffUnmoved`, `Navigation.ClosedFlowPassesCheck`).
- When a full event queue has a control event at its head, it is the newest press that is
  lost (`DtmfQueue.OverflowAlone`).

## Model

| member | source | states |
|---|---|---|
| Base64.DecodeEncode | internal/mailconfig/imaputf7.go:50 | decoding the sextets of any bytes gives the bytes back (section 4 of RFC 4648) |
| Base64.EncodeIsCanonical | internal/mailconfig/imaputf7.go:50 | the encoder never leaves a lone sextet and its spare bits are zero |
| Base64.EncodeDecode | internal/mailconfig/imaputf7.go:50 | on canonical sextet runs re-encoding the decoded bytes gives the run back, so two texts never carry the same bytes |
| Base64.DecodeRegroupsBits | internal/mailparse/lenient.go:250-257 | decoding is bit regrouping: the bytes hold, bit for bit, the sextets' bits, as many whole bytes as they fill |
| Base64.DecodeConcat | internal/mailparse/lenient.go:250-257 | whole quads decode independently of what follows |
| ImapUtf7.ImapUTF7 | internal/mailconfig/imaputf7.go:15-58 | the encoder's loops, fast path included, compute the encoding that the theorems below are about |
| ImapUtf7.SplitUnits | internal/mailconfig/imaputf7.go:38-46 | the surrogate loop yields the UTF-16 units of the run |
| ImapUtf7.SplitBytes | internal/mailconfig/imaputf7.go:47-49 | the byte loop yields the units big-endian, nothing lost |
| ImapUtf7.ShiftOf | internal/mailconfig/imaputf7.go:36-52 | one maximal run becomes base64 of its UTF-16 bytes in the modified alphabet |
| ImapUtf7.SurrogateRoundTrip | internal/mailconfig/imaputf7.go:40-43 | splitting a rune beyond the basic plane gives a valid pair from which the rune is recomputed (section 2.1 of RFC 2781) |
| ImapUtf7.AstralRoundTrip | internal/mailconfig/imaputf7.go:40-43 | and every valid pair is the split of its rune |
| ImapUtf7.DecodeEncoded | internal/mailconfig/imaputf7.go:15-58 | for every sequence of scalar values a strict RFC 3501 reader recovers the name from its encoding |
| ImapUtf7.EncodeDecoded | internal/mailconfig/imaputf7.go:15-58 | the strict reader accepts nothing but encodings: what it reads as a name is that name's encoding |
| ImapUtf7.EncodeIffDecode | internal/mailconfig/imaputf7.go:15-58 | encoder and strict reader are inverse bijections, so every shift is closed, canonical and never next to another shift |
| ImapUtf7.EncodeInjective | internal/mailconfig/imaputf7.go:15-58 | two mailbox names never share an encoding |
| ImapUtf7.EncodedIsPrintable | internal/mailconfig/imaputf7.go:15-58 | the encoding is printable ASCII only |
| ImapUtf7.PlainNameIsItsEncoding | internal/mailconfig/imaputf7.go:16-18 | the early return agrees with the loop: it is taken exactly for names that are their own encoding |
| LenientBase64.CuttingIsIrrelevant | internal/mailparse/lenient.go:192-225 | however the source is cut into reads, the reader delivers the same bytes |
| LenientBase64.StreamYieldsMeaning | internal/mailparse/lenient.go:174-257 | a stream without read failures yields the bytes carried by the letters before the first padding character |
| LenientBase64.MeaningRegroupsBits | internal/mailparse/lenient.go:230-257 | those bytes are the letters' bits regrouped, a lone last letter ignored |
| LenientBase64.MeaningOfEncoded | internal/mailparse/lenient.go:174-257 | on text whose letters, garbage apart, spell the sextets of some bytes, padded or not, the result is those bytes |
| LenientBase64.StandardLettersAreRead | internal/mailparse/lenient.go:195-212 | the 64 letters of section 4 of RFC 4648 are read for the sextets they stand for, and none is the padding character |
| LenientBase64.StandardEncodingIsRead | internal/mailparse/lenient.go:174-257 | so the standard encoding of any bytes, padded or not, yields those bytes |
| LenientBase64.Reader.Read | internal/mailparse/lenient.go:174-190 | Read hands out the next bytes of what remains, for any buffer size |
| LenientBase64.Reader.Fill | internal/mailparse/lenient.go:192-225 | one read of the source changes nothing about what remains to be delivered |
| LenientBase64.Reader.Scan | internal/mailparse/lenient.go:195-212 | letters join the carry, garbage is dropped, padding ends the text |
| LenientBase64.Reader.DecodeQuads | internal/mailparse/lenient.go:250-257 | decoding whole quads keeps what remains |
| LenientBase64.Reader.FlushFinal | internal/mailparse/lenient.go:230-248 | at the end two or three left-over letters give one or two bytes, a single one none |
| LenientBase64.ReadThrough | internal/mailparse/lenient.go:174-190 | draining through buffers of any sizes delivers a prefix of the meaning, all of it by the end of file |
| LineEndings.RepairKeepsText | internal/mailparse/lenient.go:76-109 | the repaired text has the same bytes and breaks, only CRLF breaks, and equals the input exactly when nothing else was there |
| LineEndings.NormalizeLineEndings | internal/mailparse/lenient.go:76-109 | the scan and the filling loop return the repaired text |
| LineEndings.NeedsRepair | internal/mailparse/lenient.go:77-90 | the scan finds a bare CR or LF exactly when there is one |
| FrameParser.Parser.Feed | baresip/shim/frame_parser.c:14-45 | after any chunk the handler has seen exactly the lines of the whole stream up to the first rejecting byte, with that byte's error, and no index leaves the buffer |
| FrameParser.Parser.FeedByte | baresip/shim/frame_parser.c:18-43 | one byte extends the stream, completes a line, or rejects it |
| FrameParser.FeedAll | baresip/shim/frame_parser.c:14-45 | every cutting of a stream gives the same frames and the same error as the uncut stream |
| FrameParser.LinesPrefix | baresip/shim/frame_parser.c:26-35 | a byte adds a line exactly when it is a newline after a non-empty line |
| FrameParser.RejectionIsFinal | baresip/shim/frame_parser.c:20-43 | more input cannot change a verdict already reached |
| CommandQueue.Ring.Push | baresip/shim/command_queue.c:38-58 | the array ring appends to the bounded FIFO, or refuses with EPIPE when stopped and EAGAIN when full, leaving it unchanged |
| CommandQueue.Ring.Pop | baresip/shim/command_queue.c:60-76 | pop removes the oldest command |
| CommandQueue.Ring.Pending | baresip/shim/command_queue.c:78-88 | pending tells whether the FIFO is non-empty |
| CommandQueue.Ring.Stop | baresip/shim/command_queue.c:29-36 | stop closes admission and keeps the contents |
| CommandQueue.Ring.Dispatch | baresip/shim/command_queue.c:90-106 | at most `limit` commands are handled, oldest first, the rest stay |
| CommandWakeup.NoLostWakeup | baresip/shim/voxmail.c:767-795 | in every interleaving a non-empty queue has a byte in the pipe, a pusher about to wake, or a handler turn that still pops or re-arms; what has run is the accepted commands in order, each once; at most 256 wait |
| CommandWakeup.FailedWakeupStrands | baresip/shim/voxmail.c:767-795 | witness that the hypothesis is needed: after a failed wakeup write the accepted command has nobody coming for it |
| CommandWakeup.StrandedIff | baresip/shim/voxmail.c:1073-1097 | exactly which steps strand queued commands: with the pipe empty, the failed wakeup of the last pusher while the handler sleeps, or the failed re-arm after a full batch with no pusher about to wake |
| CommandWakeup.StrandedForGood | baresip/shim/voxmail.c:767-795 | stranded commands never run, whatever follows |
| CommandWakeup.WorkingStepProgresses | baresip/shim/voxmail.c:1073-1097 | with a command queued every step of the shim itself brings its dispatch closer, batch limit and full pipe included |
| CommandWakeup.WorkIsEnabled | baresip/shim/voxmail.c:1073-1097 | and some such step is always possible |
| CommandWakeup.EveryCommandCanFinish | baresip/shim/voxmail.c:1073-1097 | so from any reachable state without a failed wakeup the shim's own steps run every accepted command, in order |
| ClientOwner.Owner.Publish | baresip/shim/client_owner.c:30-45 | publish replaces the descriptor, returns the one displaced and moves the generation |
| ClientOwner.Owner.RequestShutdown | baresip/shim/client_owner.c:47-58 | shutdown clears the slot and moves the generation if something was published |
| ClientOwner.Owner.SnapshotDup | baresip/shim/client_owner.c:60-86 | a snapshot is the published descriptor with its generation, or nothing |
| ClientOwner.Owner.InvalidateIfCurrent | baresip/shim/client_owner.c:88-103 | only a snapshot of the current publication clears the slot |
| ClientOwner.GenerationsCoincide | baresip/shim/client_owner.c:7-12 | two moments share a generation exactly when whole cycles of 2^64-1 changes lie between them |
| ClientOwner.PublishedIsOpen | baresip/shim/voxmail.c:1309-1362 | in every interleaving a published descriptor is one the socket worker serves and has not closed, and no publication displaces a live one |
| ClientOwner.StaleSnapshotClearsNothing | baresip/shim/voxmail.c:467-502 | an old snapshot never clears a later publication, even with a reused descriptor number, unless the generation has run through whole cycles |
| EventQueue.Events.Enqueue | baresip/shim/voxmail.c:508-541 | an event is appended below 256, dropped with a disconnect request otherwise |
| EventQueue.Events.PutBack | baresip/shim/voxmail.c:479-496 | an event nobody was connected for returns to the head |
| EventQueue.DeliveryIsOrdered | baresip/shim/voxmail.c:444-541 | delivered events are accepted events in acceptance order; one is passed over only after a failed send or at stop; the queue never exceeds 257 |
| EventQueue.WaitingKeepsEverything | baresip/shim/voxmail.c:479-496 | whatever is queued between finding no client and putting the item back, the item is ahead of all others again and nothing is lost; if the shim was stopped meanwhile, that item alone is |
| EventQueue.QueueReaches257 | baresip/shim/voxmail.c:484-528 | the bound is exact: a run in which 257 events wait, one above the nominal limit |
| SpeechPipeline.PipelineIsSafe | internal/calls/body_speech.go:175-282 | in every interleaving each slot is in exactly one place, neither channel send can block, the file being played is the whole audio of the chunk whose turn it is, the played chunks are a prefix, and no file is removed while in use |
| SpeechPipeline.UndisturbedStreamPlaysAll | internal/calls/body_speech.go:175-282 | a stream nothing disturbs is played to its end |
| SpeechPipeline.OwnStepsRunOut | internal/calls/body_speech.go:208-281 | every own step uses up work, so both goroutines stop |
| SpeechPipeline.NoDeadlock | internal/calls/body_speech.go:208-281 | until the playing side has returned some own step is possible |
| SpeechPipeline.ProducerStops | internal/calls/body_speech.go:208-233 | once cancelled the synthesizing side always has a step until it quits |
| SpeechChunks.SplitSentences | internal/calls/body_speech.go:33-66 | the loop computes the sentences the lemmas below describe |
| SpeechChunks.SentencesKeepTextIff | internal/calls/body_speech.go:53-62 | the sentences hold exactly the text's audible runes if and only if every closer run after a terminator is followed by a blank or the end; otherwise exactly the doubled closers are too many |
| SpeechChunks.SentencesSpoken | internal/calls/body_speech.go:38-43 | every sentence is non-empty and trimmed |
| SpeechChunks.SplitSpeechChunks | internal/calls/body_speech.go:71-108 | every chunk is non-empty, trimmed, within the limit and made of consecutive pieces of the sentences cut at words; no audible rune is lost; when no sentence needs cutting the chunks are the sentences joined by spaces, each as full as possible; the loop ends |
| SpeechChunks.ChunksKeepWords | internal/calls/body_speech.go:68-108 | the chunks speak the words of the sentences, whole and in order, when no run without a space is longer than the limit, and only when no word is |
| SpeechChunks.ChunksKeepWordsIff | internal/calls/body_speech.go:68-108 | for sentences whose only white space is spaces the two meet: every word stays whole if and only if none is longer than the limit |
| SpeechChunks.CutSentence | internal/calls/body_speech.go:90-101 | an overlong sentence becomes pieces within the limit with the same audible runes, each cut after the last space within the limit if there is one |
| SpeechChunks.CutKeepsWords | internal/calls/body_speech.go:90-101 | the pieces hold the words of the sentence when no run without a space is longer than the limit |
| SpeechChunks.CutPoint | internal/calls/body_speech.go:92-98 | the cut is after the last space within the limit, or at the limit when there is none |
| SpeechChunks.TruncateForSpeech | internal/calls/body_speech.go:113-136 | the result is a prefix within the limit, cut after the last terminator of the second half, else after the last space, else at the limit, trailing blanks dropped |
| SpeechChunks.TruncatedMidWordIff | internal/calls/body_speech.go:110-136 | the result ends inside a word if and only if its late terminator has no blank behind it or, without a late terminator, the limit falls inside a word and no space comes before it |
| SpeechChunks.NumberIsCut | internal/calls/body_speech.go:110-136 | witness: "Pi is 3.14 now" within eight runes ends inside the number, spaces notwithstanding |
| DialLifecycle.RequestIsReportedOnce | internal/calls/service.go:176-250 | once Dial has returned nil a request with a user is in exactly one of: pending, the AlertDone of one live session, taken out to be signalled, signalled once |
| DialLifecycle.NeverSignalledTwice | internal/calls/admission.go:350-369 | over all interleavings of expiry, command error, call_outgoing, close, revocation, drain and disconnect no request is signalled twice |
| DialLifecycle.OneSendPerRequest | internal/calls/admission.go:350-369 | counted over the run: at most one send on each request's channel |
| DialLifecycle.UserlessRequestIsLost | internal/calls/admission.go:232-257 | witness: startOutgoing drops a request without a user; then and in every continuation it is neither pending nor in a session nor taken nor signalled |
| DialLifecycle.LostIffUserless | internal/calls/admission.go:232-257 | exactly the requests without a user can be lost: with a user no run loses one for good, without one some run does |
| DialLifecycle.DiscardedForGood | internal/calls/admission.go:232-257 | a dropped request is in nobody's hands and unsignalled after every continuation of every run |
| DialLifecycle.OnlyUserlessRequestsAreLost | internal/calls/admission.go:232-257 | and only such a request can be lost |
| DialLifecycle.CallService.FailPending | internal/calls/service.go:235-250 | the lock-held section removes the request and tells whether there is anyone to signal |
| DialLifecycle.CallService.ClaimOutgoing | internal/calls/admission.go:217-282 | call_outgoing moves a pending request to a new session with its AlertDone, or refuses |
| DialLifecycle.CallService.CloseSession | internal/calls/lifecycle.go:208-249 | closing removes the session and takes its AlertDone |
| DialLifecycle.CallService.TakeAlertDone | internal/calls/admission.go:350-360 | AlertDone is cleared before anyone is told |
| DialLifecycle.CallService.RevokeUser | internal/calls/service.go:308-364 | revocation removes exactly the user's requests and calls |
| DialLifecycle.CallService.SweepPending | internal/calls/lifecycle.go:380-384 | drain empties the pending map |
| DialLifecycle.CallService.DropConnection | internal/calls/lifecycle.go:112-154 | a disconnect empties both maps and hands out everything that was in them |
| SyncOwnership.OneRunPerAccount | internal/mailsync/service.go:498-537 | in every interleaving at most one run is active for an account and busy, activeCancel, activeKind and activeDone agree on it |
| SyncOwnership.StoppedForGood | internal/mailsync/service.go:433-457 | once StopAccount has returned nil no run for the account is active then or in any later state |
| SyncOwnership.SyncService.BeginRun | internal/mailsync/service.go:508-527 | a run is admitted exactly when the account is neither being deleted nor busy, and recorded in all four maps |
| SyncOwnership.SyncService.EndRun | internal/mailsync/service.go:529-537 | the end of a run clears the account from all four maps |
| SyncOwnership.SyncService.BeginStop | internal/mailsync/service.go:441-446 | a stop marks the account and finds the run to cancel and wait for |
| SyncOwnership.SyncService.FindManual | internal/mailsync/service.go:418-427 | only a manual run is offered for cancellation |
| Decimals.ValueOfDec | internal/mailsync/service.go:881-887 | the decimal numerals in identity keys read back as the number |
| MbsyncState.ParseFolderState | internal/mailsync/service.go:938-998 | accepts exactly the well-formed state files and keeps exactly what they declare |
| MbsyncState.ReadHeader | internal/mailsync/service.go:942-959 | the header loop accepts exactly distinct two-field lines up to the first empty line |
| MbsyncState.ReadMappings | internal/mailsync/service.go:971-996 | the mapping loop accepts exactly the files whose far and near UIDs are valid and not repeated |
| MbsyncState.AcceptedIsOneToOne | internal/mailsync/service.go:971-997 | an accepted mapping is one-to-one both ways over non-zero 32-bit UIDs, under a non-zero UIDVALIDITY |
| MbsyncState.NearUidIffCarried | internal/mailsync/service.go:1000-1013 | a file name yields a UID exactly when it holds one ",U=" followed by that number's digits and ":2," |
| Reconcile.KeysIdentify | internal/mailsync/service.go:881-900 | for NUL-free folders two identity keys are equal exactly when folder and UID pair, or folder and Message-ID, are |
| Reconcile.RetainRemoteIdentity | internal/mailsync/service.go:889-896 | the loop adds the message's keys for every folder it fills |
| Reconcile.InSnapshotIffSeen | internal/mailsync/service.go:881-900 | a row's key is in the snapshot of a complete walk exactly when the walk saw that message in that folder |
| Reconcile.IdentityFor | internal/mailsync/service.go:1015-1040 | finds the row's identity when it is known and nothing otherwise; cached states stay true to their files |
| Reconcile.Reconcile | internal/mailsync/service.go:1047-1091 | the decision loop computes the stale and the hydrated rows |
| Reconcile.StaleExactlyUnseen | internal/mailsync/service.go:1047-1091 | a row is retired if and only if its identity is known and readable, it is not anonymous, it lies under the root, and no message of the walk was seen under it |
| Reconcile.HalfAPairIsRetired | internal/mailsync/service.go:1083-1085 | witness: a row holding only one of the UID pair and no Message-ID is retired against every ordinary walk |
| PacedWriter.DurationIsExact | internal/calls/pcm_playback.go:61 | the byte-to-time step is exact: 62500 ns per byte |
| PacedWriter.NextNeverBack | internal/calls/pcm_playback.go:58-61 | rebasing and advancing never move the timeline backward |
| PacedWriter.NeverFarAhead | internal/calls/pcm_playback.go:39-70 | by the time of any write at most rate x (elapsed + 250 ms) has been sent, one chunk more after it |
| PacedWriter.BurstIsBounded | internal/calls/pcm_playback.go:39-70 | between any two writes at most rate x (gap + 350 ms) is sent plus one chunk, stalls and rebases included |
| PacedWriter.TimelineKept | internal/calls/pcm_playback.go:53-61 | without a stall the timeline is kept to the byte |
| PacedWriter.PacedPCMWriter.Write | internal/calls/pcm_playback.go:39-70 | the bytes taken over all reopened FIFOs are exactly a prefix of the input, all of it unless an error is returned, and the log stays paced |
| PacedWriter.PacedPCMWriter.OneTurn | internal/calls/pcm_playback.go:45-61 | one turn waits until the next byte is due and sends at most one chunk |
| PacedWriter.PacedPCMWriter.WriteResilient | internal/calls/pcm_playback.go:85-109 | retries neither lose nor repeat bytes and reopen at most three times; the report is the one the interruption lemmas speak of |
| PacedWriter.InterruptionsAreResumed | internal/calls/pcm_playback.go:85-109 | any mix of full-FIFO waits and broken pipes is survived if and only if every broken pipe comes with a way to reopen and fewer than three interruptions before it; then what follows decides the report, else it is the broken pipe with nothing taken |
| PacedWriter.FullFifoIsNotReported | internal/calls/pcm_playback.go:102-107 | whatever the answers, EAGAIN is never what the caller is told |
| PacedWriter.PacedPCMWriter.Settle | internal/calls/pcm_playback.go:58-61 | the rebase and advance keep the writer's timeline that of its log |
| PcmClock.Clock.Wait | baresip/shim/pcm_clock.h:19-27 | waits for a frame not yet due, rebases after more than five frames |
| PcmClock.Run | baresip/shim/voxmail.c:166-198 | the thread loop sends a frame for each reading at which one is due; cast and counter are exact while the clock stays a frame short of wrapping |
| PcmClock.FramesKeepTime | baresip/shim/pcm_clock.h:12-32 | no frame is ahead of the clock or over five frames old, stamps grow by a frame at least, the i-th frame waits for i frames of time, and between two frames at most the gap plus five frames is sent |
| Leases.ContainsIffPrefix | internal/maintenance/leases.go:67-70 | on cleaned paths "the same or followed by a separator" is the component-prefix relation |
| Leases.ClashesIffOverlaps | internal/maintenance/leases.go:65-73 | the string test is overlap of paths away from the root; a lease on the root clashes with the root alone |
| Leases.LeasesAreRespected | internal/maintenance/leases.go:37-85 | over every interleaving of protect, release and removal no removal touches a path overlapping one under lease, and the active map is exactly the unreleased leases |
| Leases.ReleaseOnce | internal/maintenance/leases.go:40-52 | releasing again changes nothing |
| Leases.Artifacts.Protect | internal/maintenance/leases.go:56-63 | a lease is counted; a blank path takes none |
| Leases.Artifacts.Release | internal/maintenance/leases.go:40-52 | a first release uncounts the path and forgets it at zero |
| Leases.Artifacts.ProtectedLocked | internal/maintenance/leases.go:65-73 | found exactly when some active path clashes |
| Leases.Artifacts.RemoveIfUnowned | internal/maintenance/leases.go:77-85 | removes exactly when nothing protects the path |
| TreeCleanup.FileSystem.RemoveTree | internal/maintenance/cleanup.go:237-280 | visits never exceed the budget; only nodes at or below the path go; complete means all gone; the report equals what went; without faults a tree within the budget goes entirely and a tree no taller than the budget shrinks; one whose leaves are all deeper than the budget loses nothing |
| TreeCleanup.FileSystem.RemoveNames | internal/maintenance/cleanup.go:250-279 | the children read are removed one by one under the shared budget, then the node |
| TreeCleanup.ResumedPassProgresses | internal/maintenance/cleanup.go:144-161 | a pass that finds the remembered tree reachable, unprotected, faultless and no taller than the budget goes on with it and nothing else, takes at least one of its nodes, and leaves it gone and forgotten or still remembered; 128 nodes or fewer go in one pass |
| TreeCleanup.PassesUntilGone | internal/maintenance/cleanup.go:144-161 | repeated passes over such a tree end with it gone and nothing pending, within as many passes as nodes; a tree of at most 128 nodes in one |
| TreeCleanup.ChainProgressIff | internal/maintenance/cleanup.go:241-244 | on nested directories a pass makes progress if and only if the chain is no longer than the budget |
| TreeCleanup.CleanEntry | internal/maintenance/cleanup.go:194-230 | one entry loses nodes only when unprotected, old enough, not a symlink and covered by the rule; it ends the pass exactly when it cannot be examined, cannot be removed or is a directory to remove; a directory is remembered with its identity exactly as long as its removal is incomplete |
| TreeCleanup.NextEntry | internal/maintenance/cleanup.go:183-192 | one turn of the loop: cancellation ends it, an unmatched name passes, an entry that goes takes nothing else with it |
| TreeCleanup.CleanEntries | internal/maintenance/cleanup.go:183-231 | the loop stops behind the last entry, at the first that ends the pass, or at a cancelled context; the plain files passed before are gone and no others |
| TreeCleanup.Reachable | internal/maintenance/cleanup.go:132-143 | the rule's directory is reached exactly when every component of its path is a directory that can be examined; an error is reported exactly when the walk up first meets one that cannot |
| TreeCleanup.CleanDirectory | internal/maintenance/cleanup.go:129-232 | a pass with a resumable pending tree works on that tree alone and keeps it pending exactly as long as it is incomplete; otherwise it is forgotten and the entries are gone through; only the pending tree or disposable entries lose anything, with at most one tree budget |
| TreeCleanup.LeasedStays | internal/maintenance/cleanup.go:144-161 | a path leased throughout a pass loses nothing above or below it |
| SpokenNumbers.IntToWords | internal/speech/naturalize.go:295-313 | the scale loop speaks the parts the lemmas below describe |
| SpokenNumbers.ThreeDigitWords | internal/speech/naturalize.go:315-331 | hundreds, then tens and units, joined |
| SpokenNumbers.GroupReads | internal/speech/naturalize.go:315-331 | a group of up to three digits reads back as its number |
| SpokenNumbers.NumberReadsBack | internal/speech/naturalize.go:295-331 | a strict reader of English recovers n from its words for every 0 <= n < 2^63 |
| SpokenNumbers.VocabularyDistinct | internal/speech/naturalize.go:193-212 | no two number words are the same |
| SpokenOrdinals.OrdinalWords | internal/speech/tokens.go:188-200 | the ordinal is the cardinal with its last word changed |
| SpokenOrdinals.OrdinalUndone | internal/speech/tokens.go:188-200 | on any text ending in a number word the cardinal can be recovered from the ordinal |
| SpokenOrdinals.OrdinalReadsBack | internal/speech/tokens.go:188-200 | so the number can be read back from its ordinal |
| SpokenMoney.GroupDigits | internal/speech/tokens.go:81-91 | one word for each digit and plus sign, in order |
| SpokenMoney.SpelledMore | internal/speech/tokens.go:81-91 | rune by rune: a digit is its word, a plus sign is "plus", anything else is passed over |
| SpokenMoney.SpelledReads | internal/speech/tokens.go:81-91 | spelled digits read back as the digits |
| SpokenMoney.SymbolsArePrefixFree | internal/speech/tokens.go:113-128 | no currency symbol begins another, so the order of the table does not matter |
| SpokenMoney.MajorReads | internal/speech/tokens.go:145-153 | the whole part is read back, however large |
| SpokenMoney.MinorIsFraction | internal/speech/tokens.go:163-176 | one or two fraction digits are the minor units; zero means none are spoken |
| SpokenMoney.SpeakCurrency | internal/speech/tokens.go:130-178 | speaks the amount after the one matching symbol |
| SpokenMoney.SpeakUnsigned | internal/speech/tokens.go:142-178 | the three spoken forms, unit chosen by number |
| SpokenMoney.AmountReadsBack | internal/speech/tokens.go:130-178 | for every sign, whole part with commas and any number of fraction digits the amount read from the words is exactly the written one |
| SpokenMoney.CurrencyReadsBack | internal/speech/tokens.go:113-178 | and this for every currency of the table |
| SpokenMoney.MatchReadsBack | internal/speech/tokens.go:130-141 | including the symbol and blanks before the amount |
| Keypad.KeyKeepsInv | internal/keypad/keypad.go:62-110 | every key keeps the field within a positive limit, a pending character with at least one press and room, and an armed star with nothing pending |
| Keypad.FieldStaysWithinLimit | internal/keypad/keypad.go:62-123 | whatever is pressed on a new editor, the field stays within its limit |
| Keypad.ScriptTypesText | internal/keypad/keypad.go:62-128 | every text over the key groups that fits is produced by its press-and-star script |
| Keypad.StarsDelete | internal/keypad/keypad.go:64-78 | in a row of stars the first commits what is pending and every second one deletes exactly one character |
| Keypad.MultiTap.Press | internal/keypad/keypad.go:62-110 | Press is the transition the lemmas are about; its overflow branches after a commit are unreachable |
| Keypad.MultiTap.AppendCurrent | internal/keypad/keypad.go:112-123 | commits the pending character; its overflow branch is unreachable |
| Navigation.Session.Enter | internal/ivr/flow.go:38-53 | a real enter pushes the old state and keeps the newest entries within the limit |
| Navigation.Session.Back | internal/ivr/flow.go:55-62 | back pops the newest entry or refuses |
| Navigation.HistoryIsSuffix | internal/ivr/flow.go:38-62 | whatever the moves, the bounded history is a suffix of the complete one within the limit |
| Navigation.BacksUndoEnters | internal/ivr/flow.go:38-62 | as many real enters as the limit allows are undone by as many backs |
| Navigation.CallSession.Transition | internal/calls/navigation_state.go:91-101 | a transition enters the state, mirrors it and moves the generation, or does nothing when already there |
| Navigation.CallSession.BackUsingFlow | internal/calls/navigation_state.go:73-86 | back uses the history, else the contract |
| Navigation.CallSession.BackByContract | internal/calls/navigation_state.go:23-40 | back to the contract's state or the fallback |
| Navigation.GenerationCounts | internal/calls/navigation_state.go:23-101 | the generation counts exactly the moves, modulo 2^64 |
| Navigation.CallSession.NavigationVersionIsCurrent | internal/calls/navigation_state.go:18-21 | the check: the call has not ended and its generation is the key's |
| Navigation.FreshKeyIffUnmoved | internal/calls/events.go:205-208 | a stamped key passes the check exactly when the call has not ended and no primitive has moved it since, given fewer than 2^64 moves; state and history are then those at the press exactly when Drain has not closed the formal session meanwhile, or it was closed already |
| Navigation.ClosedFlowPassesCheck | internal/calls/lifecycle.go:363-365 | witness: after Drain closes the formal session a key pressed in the inbox still passes and finds the closed state |
| Navigation.Session.Close | internal/ivr/flow.go:76-83 | the formal session becomes terminal with nothing behind it |
| DtmfQueue.QueuedControlIsNeverLost | internal/calls/events.go:117-155 | with one reader, in every interleaving with the worker, an event other than a press that entered the queue is delivered, waiting or in the reader's hand |
| DtmfQueue.PressesAreDeliveredInOrder | internal/calls/events.go:117-155 | delivered presses come in the order made and at most 32 jobs wait |
| DtmfQueue.NewestPressYieldsOnlyToControl | internal/calls/events.go:127-150 | the newest press is given up only when the drained job was a control event that took the place |
| DtmfQueue.OverflowAlone | internal/calls/events.go:127-155 | with an idle worker a press replaces the oldest job, unless that is a control event, which moves behind while the press is lost |
| DtmfQueue.CallQueue.Dispatch | internal/calls/events.go:117-155 | the reader's channel operations, with the worker active between them, form a run of the step relation |
| SpeechPipeline.StepKeepsInv | internal/calls/body_speech.go:175-282 | what every step of either goroutine, and cancellation at any moment, keeps |
| DialLifecycle.StepKeepsInv | internal/calls/service.go:176-364 | what every lock-held section of Dial, admission and lifecycle keeps |
| DialLifecycle.CallService.RegisterPending | internal/calls/service.go:203-208 | the first lock-held section of Dial: the request is recorded as pending before anything is sent |
| SyncOwnership.StepKeepsInv | internal/mailsync/service.go:433-537 | what every section of a run or a stop keeps |
| CommandWakeup.StepKeepsInv | baresip/shim/voxmail.c:767-795 | what every push, write and handler step keeps |
| ClientOwner.StepKeepsInv | baresip/shim/voxmail.c:1309-1362 | what every step of the two threads keeps |
| EventQueue.StepKeepsInv | baresip/shim/voxmail.c:444-541 | what every enqueue, send and re-queue keeps |
| EventQueue.Events.Take | baresip/shim/voxmail.c:451-463 | the worker takes the head, or stops when the shim is stopping |
| LineEndings.Repair | internal/mailparse/lenient.go:91-108 | the filling loop writes the repaired text |
| Leases.StepKeepsInv | internal/maintenance/leases.go:37-85 | what every protect, release and removal keeps |
| SpeechChunks.SentencesInk | internal/calls/body_speech.go:33-66 | the sentences hold, in order, exactly the audible runes the loop wrote |
| Keypad.MultiTap.PressStar | internal/keypad/keypad.go:64-78 | a star commits what is pending, or as the second in a row deletes |
| SpokenMoney.SpeakAmount | internal/speech/tokens.go:139-178 | a leading minus is spoken first |
| DtmfQueue.StepKeepsInv | internal/calls/events.go:125-155 | what every channel operation of reader and worker keeps |
| PcmClock.FramesAreSteady | baresip/shim/voxmail.c:166-198 | every frame is sent when due, stamped with the rebased media time |
| SpeechChunks.FirstEndCuts | internal/calls/body_speech.go:44-63 | at the first line break, or terminator whose closers are followed by a blank or the end, there is always a cut, and the rest is divided on its own |
| SpeechChunks.UnbrokenIsOneSentence | internal/calls/body_speech.go:44-63 | nothing is cut before such an end: a text without one is a single sentence |
| SpeechPipeline.QuietRunPlaysAll | internal/calls/body_speech.go:235-281 | a run without cancellation, stale check, failed synthesis or failed playback has played every chunk in order once it returns |
| SpeechPipeline.InterruptionIsFinal | internal/calls/body_speech.go:235-281 | once a check is stale, a playback has failed, a chunk was not synthesized or the context is done, nothing more is played, whatever follows; a stale check and a done context return at once |
| LenientBase64.LettersExactly | internal/mailparse/lenient.go:195-212 | the 64 standard letters and the URL-safe two are the only letters; a hyphen means 62 and an underscore 63 |
| LenientBase64.WrappedEncodingIsRead | internal/mailparse/lenient.go:174-257 | a standard encoding with line breaks or any other foreign bytes put in anywhere still yields the bytes that were encoded |
| LenientBase64.FailureKeepsWholeQuads | internal/mailparse/lenient.go:216-225 | when a read fails before the padding, exactly the whole quads up to there are delivered |
| DialLifecycle.CallService.AdmitIncoming | internal/calls/admission.go:47-71 | an incoming call gets a session without an alert; one whose call already has a session changes nothing |
| DialLifecycle.RequestCanBeReported | internal/calls/service.go:176-250 | progress: in every run a returned request with a user is at most two steps from its one signal |
| DialLifecycle.SectionsTakeAll | internal/calls/service.go:235-364 | what each section ends it accounts for: the pending requests and sessions of expiry, notification, close, revocation, drain and disconnect are taken or left with their remover, and revocation touches nobody else |
| DialLifecycle.SectionsAdmit | internal/calls/admission.go:47-71 | what each section brings in: Dial's registration, the session of the request a call_outgoing is meant for, the session of an incoming call, and no displacement of a live session |
| MbsyncState.WrittenStateIsRead | internal/mailsync/service.go:938-998 | a state file written from distinct header values and a one-to-one list of pairs, with LF or CRLF, flags or none and blank lines, is accepted and says exactly what was written |
| MbsyncState.MappingLineExactly | internal/mailsync/service.go:971-985 | a line is a mapping exactly when it has two or three fields, the first the far and the second the near UID, both non-zero 32-bit numerals |
| MbsyncState.HeaderLineExactly | internal/mailsync/service.go:949-956 | a header line is a name and the numeral of a 32-bit value, nothing more |
| MbsyncState.WrittenNameIsRead | internal/mailsync/service.go:1000-1013 | a file name with one ",U=" followed by a numeral and ":2," yields that numeral |
| Reconcile.WrittenRowIsKnown | internal/mailsync/service.go:1015-1040 | a row with a near UID in its name is looked up under the far UID and the far UIDVALIDITY written in its folder's state file |
| PcmClock.TimelineKept | baresip/shim/pcm_clock.h:12-32 | without a stall of more than five frames the stamp of frame i is exactly i frames after the first |
| PcmClock.StallAlone | baresip/shim/pcm_clock.h:19-27 | frame by frame: more than five frames late the stamp is the clock's own, else what was due |
| PcmClock.OneMoreReading | baresip/shim/voxmail.c:166-175 | every reading at which a frame is due sends exactly one, and no other does |
| SpokenNumbers.ZeroToFour | internal/speech/naturalize.go:193-197 | zero to four, as an English speaker hears them |
| SpokenNumbers.FiveToNine | internal/speech/naturalize.go:193-197 | five to nine |
| SpokenNumbers.TenToFourteen | internal/speech/naturalize.go:193-197 | ten to fourteen |
| SpokenNumbers.FifteenToNineteen | internal/speech/naturalize.go:193-197 | fifteen to nineteen |
| SpokenNumbers.TensWordsAreEnglish | internal/speech/naturalize.go:199-202 | the tens |
| SpokenNumbers.ScaleWordsAreEnglish | internal/speech/naturalize.go:204-214 | the scales and their values |
| SpokenNumbers.TwentyFive | internal/speech/naturalize.go:315-331 | tens and units are joined by a hyphen, which the comment of intToWords leaves out |
| SpokenOrdinals.OrdinalsAreEnglish | internal/speech/tokens.go:188-200 | the irregular ordinals, "ieth" for a final y, and "th" otherwise |
| SpokenMoney.SignsAreNamed | internal/speech/tokens.go:113-128 | the units each currency sign stands for |
| SpokenMoney.CodesAreNamed | internal/speech/tokens.go:113-128 | a code names the currency of its sign, and each dollar is called by its country |
| Keypad.BurstsTypeText | internal/keypad/keypad.go:62-128 | for any bursts of keys apart from each other, the pound key leaves one character for each burst, found by going round the key's group, as far as the field has room, and an overflow is marked exactly when some did not fit |
| Keypad.StarsShorten | internal/keypad/keypad.go:64-78 | two stars take one character off the end, four two, and so on |
| Keypad.LettersAreWherePrinted | internal/keypad/keypad.go:33-44 | letters stand on the keys that bear them (ITU-T E.161), digits at the end of their group |
| Keypad.OtherKeysAreIgnored | internal/keypad/keypad.go:90-92 | a key without a group changes nothing |
| ClientOwner.SnapshotClearsItsOwn | baresip/shim/client_owner.c:88-103 | giving up a snapshot within a cycle leaves a later publication alone and clears an unchanged slot |
| ClientOwner.ConnectionIsServed | baresip/shim/voxmail.c:1309-1362 | from every reachable state an accepted descriptor is published, snapshots are of it, a failed send clears the slot, and however the connection ends its descriptor is closed and nothing is published |
| Navigation.BackUndoesTransition | internal/calls/navigation_state.go:73-101 | back after a transition leads to where the caller was, with the history as far as not pushed out, whatever the contract says |
| Navigation.BackAtRoot | internal/calls/navigation_state.go:73-86 | without history back follows the contract, else the fallback |
| SyncOwnership.AdmittedIffQuiet | internal/mailsync/service.go:508-527 | in every run a new run starts exactly when its account is not being deleted and no run is active on it |
| SyncOwnership.EndedRunFreesAccount | internal/mailsync/service.go:529-537 | the end of a run frees its account and no other |
| SyncOwnership.CancelsManualRunsOnly | internal/mailsync/service.go:410-427 | CancelManualSync cancels exactly the active manual run of the account |
| SyncOwnership.StopBegins | internal/mailsync/service.go:441-446 | a stop closes its account and waits for exactly the run that is active on it |
| SyncOwnership.StopReturnsIffQuiet | internal/mailsync/service.go:446-457 | a stop can return exactly when no run is active on its account |
| DtmfQueue.NothingVanishes | internal/calls/events.go:117-155 | every event that arrived is in exactly one place: delivered, waiting, given up or in the reader's hand |
| DtmfQueue.HungUpIffRefused | internal/calls/events.go:117-170 | the call is hung up exactly when an event other than a press found no room on arrival |
| CommandWakeup.AcceptedIffRoom | baresip/shim/voxmail.c:767-795 | a command is accepted exactly while the queue is open and not full |
| CommandWakeup.StoppedAcceptsNothing | baresip/shim/voxmail.c:1089-1093 | after a stop nothing is accepted, and what was queued stays |
| CommandWakeup.BytesConserved | baresip/shim/voxmail.c:1073-1097 | the pipe holds exactly the bytes written and not yet read |
| CommandWakeup.TurnIsBounded | baresip/shim/voxmail.c:1083-1086 | between two starts of a turn at most 32 commands run |
| CommandWakeup.TurnCounts | baresip/shim/voxmail.c:1083-1086 | and exactly as many as the handler counts |
| CommandWakeup.FullBatchRearms | baresip/shim/voxmail.c:1086-1094 | a batch of exactly 32 that leaves commands behind re-arms the pipe |
| CommandWakeup.IdleStepProgresses | baresip/shim/voxmail.c:1073-1097 | with nothing queued every working step brings the shim closer to rest |
| EventQueue.SendsAreAccounted | baresip/shim/voxmail.c:464-502 | exactly the sends that went through are deliveries and the others failures |
| EventQueue.ExitLeavesNothing | baresip/shim/voxmail.c:451-463 | a stop drains the queue before the worker leaves, so clean-up drops nothing |
| LineEndings.MarksByPosition | internal/mailparse/lenient.go:76-109 | byte by byte: CRLF, lone CR and lone LF are one break each, every other byte is itself, in order |
| Leases.RemovedIffFree | internal/maintenance/leases.go:77-85 | in every run a path is removed exactly when no lease still held clashes with it |
| TreeCleanup.BytesWithOneMore | internal/maintenance/cleanup.go:271-276 | a directory adds nothing to the bytes reported as freed, any other node its size |
| TreeCleanup.MatchesIff | internal/maintenance/cleanup.go:282-294 | a name matches when it is a prefix with something behind it or a suffix with something before it |
| PacedWriter.StallRestoresCredit | internal/calls/pcm_playback.go:53-61 | only a turn over 350 ms late gives up what is overdue, and then stands 250 ms behind the clock; a byte is 62500 ns |
| FrameParser.RejectedExactly | baresip/shim/frame_parser.c:18-43 | the first rejected byte is a NUL, or one that would be the 2048th without a newline, with the error of each |
| SpeechChunks.MarksAre | internal/calls/body_speech.go:47-56 | what ends a sentence and what may close it |
| Reconcile.NumberedRowRetiredIff | internal/mailsync/service.go:1047-1091 | in the numbers themselves: a row with UID and UIDVALIDITY is retired exactly when no message of the walk in its folder has both |
| Reconcile.NamedRowRetiredIff | internal/mailsync/service.go:1047-1091 | a row without both is retired exactly when no message of the walk in its folder has its Message-ID |
| Reconcile.UnknownRowStays | internal/mailsync/service.go:1059-1085 | a row with neither number and no Message-ID, one outside the root and one with an unreadable state file are never retired |
| Reconcile.HydratedExactlyMapped | internal/mailsync/service.go:1058-1061 | the rows to be brought up to date are exactly those whose folder's state file maps them, with the identity it gives |
| Reconcile.OncePerRow | internal/mailsync/service.go:1053-1084 | each listed row is retired, and brought up to date, once |
| EventQueue.StopIsFinal | baresip/shim/voxmail.c:508-541 | once stopped the shim accepts no event any more, and keeps what is queued |
| SpeechPipeline.CancelFreesBoth | internal/calls/body_speech.go:213-250 | a cancellation is never forgotten and frees each side wherever it waits on a channel |
| DtmfQueue.OldestFirst | internal/calls/events.go:117-125 | the worker takes the job that has waited longest; a job that enters goes behind all others |
| TreeCleanup.PassInFields | internal/maintenance/cleanup.go:129-232 | a pass in the fields themselves: without a clear way or with a pending tree that cannot be examined nothing happens or is forgotten; a pending tree that is gone, replaced or leased is forgotten unless an entry takes its place; and when nothing holds the pass up exactly the removable files among the names go |

## Left out

- ImapUtf7.ImapUTF7: names are sequences of scalar values; Go's treatment of invalid UTF-8 as U+FFFD happens before and is not modelled.
- PacedWriter.PacedPCMWriter.Write: runs are finite; an endless sequence of EAGAIN answers is cut off by a failing write instead.
- PcmClock.Run: stated for clocks that stay one frame short of 2^64 ms, where the counter cannot wrap.
- CommandWakeup.EveryCommandCanFinish: says the shim's own steps suffice, not that a scheduler takes them.
- DialLifecycle.RequestIsReportedOnce: request identifiers are unique and Done is not nil; which value is signalled is not modelled.
- Reconcile.Reconcile: a folder's state file reads the same throughout one reconciliation, and the row order of the store is given.
- SpokenNumbers.IntToWords: leaves out the smallest int64, whose negation overflows and recurses for ever; no caller passes it.
- SpokenMoney.AmountReadsBack: covers the amounts the currency expression can match; other text never reaches the function.
- Leases.Artifacts.RemoveIfUnowned: paths are already resolved; artifactPath's walk over symlinks is not modelled.
- TreeCleanup.CleanDirectory: the names a directory reader delivers are given from outside, its position between passes is not modelled, and nothing outside the process changes the tree meanwhile.
- Navigation.FreshKeyIffUnmoved: FailPIN, which nothing in the call service uses, is not among the events.
- DtmfQueue.CallQueue.Dispatch: the filter for repeated and released tones and the direct handling of call_closed come before the queue and are left out.
- Unit names, menu texts, prompts and state tables: fixed data.
- SIP, RTP, baresip, ffmpeg, Piper, Whisper, sockets, TLS, IMAP and SMTP clients: foreign code; their results are arbitrary inputs here.
- The SQLite store: an abstract list of rows where reconciliation needs it; moving, deleting and auditing stale files after the decision is I/O.
- Cryptography, network address policy, PIN lockout: not protocol correctness.
- Text clean-up by regular expressions, MIME parsing, the web console, configuration, logging and release scripts.
- Closing and re-creating the wakeup pipe, the length limits of single events, and failures of dup(2) beyond "no descriptor".
- Scheduler fairness and wall-clock liveness: only safety, termination measures and the absence of deadlock are proved.
- CleanupEphemeralContext: the one pass it starts is modelled; that it ignores its context is not.
- SpeechPipeline.InterruptionIsFinal: the sentence that tells the caller a chunk could not be read is a prompt of its own and not modelled.
- DialLifecycle.SectionsAdmit: a session closed in place by the account menu or the verification code, which a repeated call_incoming would replace, is not modelled; it is an incoming one and holds no alert.
