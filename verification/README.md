# A verified model of the Reolink SIP gateway

The gateway joins SIP calls to a Reolink doorbell. This Dafny project models the parts of it in which
a small slip is hard to see and expensive, and proves what they are for:

- **Call set-up.** The INVITE client with cancellation (`InviteProtocol`, `SipClient`, `ClientRuns`), Call-IDs
  that peers use again (`CallIdReuse`), the calls behind the capacity check (`CallLimit`), the INVITE server (`IncomingInvites`) and the race between several
  dial legs (`Fork`). Locks give the atomic steps; a theorem about a run ranges over every interleaving of
  those steps, of arriving messages and of timers.
- **Phone to door.** The reorder window (`Sequencer`, `Reordering`), the RTP timeline (`PhoneAudio`), the
  streaming resampler (`Resampler`), the drop-oldest queue (`SampleFifo`) and the elastic playout
  (`ElasticPlayout`, `ElasticPop`, `ElasticTalkback`); `TalkbackPath` joins the first two.
- **Camera to phone and echo.** The jitter smoother with its media clock (`PlayoutPLL`), the repacketizer
  (`Repacketizer`) and the render history from which echo reference windows are rebuilt
  (`EchoReference`, `EchoWindows`, `EchoCanceller`).
- **Codecs and framings.** IMA ADPCM (`Adpcm`), the bcmedia parser and talk serializer (`BcMedia`), both
  together as one talk stream (`TalkStream`), and WebSocket frames and messages (`WebSocketFrames`,
  `WebSocketConn`).
- **Snapshots.** The newest-value publisher of the status server (`SnapshotStore`, `StatusStore`).

Code that changes things step by step is modelled by classes and methods over fields and arrays, each
method proved equal to a function of the old state; what the code promises is then proved about those
functions, and about whole runs of them. `dafny verify dfyconfig.toml` checks the project.

## Where the code does less than one might expect

Each of these is proved, with its exact condition; where the condition speaks of runs, a run that fails is given too:

- `transact` selects between its deadline and the canceled context. When the 32-second deadline wins before
  the cancellation was seen, the attempt times out without a tombstone, and the owner of its first final
  response acknowledges it and hangs up if and only if that did not happen
  (`InviteProtocol.OwnerFinishesTheJob`, `InviteProtocol.TimesOutIff`). An answer that is already queued is lost
  that way too, although the read loop accepted it (`InviteProtocol.QueuedAnswerLost`), and so is one that
  comes later (`InviteProtocol.UnseenCancellationLosesTheAnswer`).
- An incoming INVITE may reuse the Call-ID of a dialed call, because nothing checks for it. A Call-ID can then
  be in two of `canceledInvites`, `active` and `completedDialogs`: some continuation gets there from every state
  in which the dialed call still has a tombstone, a dialog or a hand-off before it or is filed as completed, and none does
  from the others, further INVITEs in such states included (`CallIdReuse.ReuseHarmlessIff`). It happens to a
  re-INVITE of an established dialog
  (`CallIdReuse.ReInviteBreaksUniqueness`) and with room for a single call
  (`ClientRuns.UncheckedWorldBreaks`). With a check of the Call-ID against `dialing`, `active`,
  `canceledInvites` and `completedDialogs` at the admission it never happens (`ClientRuns.ClientSafety`). That
  check also bounds the calls, as the next point says. While the incoming call holds the active entry, a late
  final response to the dialed INVITE is ignored (`InviteProtocol.AcceptedFinalIsOwned`).
- The capacity check counts entries of `active` and `dialing`. The entries always keep the limit
  (`ClientRuns.EntriesWithinLimit`), the calls do not: an incoming INVITE under a Call-ID in use, or an answer to
  a dialed call whose Call-ID an incoming one holds, overwrites an entry, and the call it led to goes on
  uncounted (`CallLimit.OverwrittenUncounted`). Calls and entries stay in step over a run if and only if no step
  overwrites (`CallLimit.AlwaysInStepIff`), and then the calls keep the limit
  (`CallLimit.CallsWithinLimit`); the check of the Call-ID at the admission is enough
  (`CallLimit.CheckedCallsWithinLimit`). Without it they keep the limit in every run if and only if the limit is
  at most one (`CallLimit.CallsLimitIff`): with room for two, any number of calls can go on under a single entry
  (`CallLimit.UncheckedCallsUnbounded`).
- Echo reference windows can join samples from two sides of a rebase. Over a whole run they never do if and
  only if no call of `AddRender` files the first frame of a stretch within half a sample of where the frames
  before it ended (`EchoWindows.WholeRunsIff`, `EchoWindows.HandedOutRunsIff`). Two rebases with fewer than 80 samples between
  them can bring that about, even with a clock that only moves forward (`EchoWindows.ShortBetweenBreaks`); chunks of at
  least 80 samples never do (`EchoWindows.LongChunksNeverAbut`), and as a rule about chunk sizes
  alone 80 is the smallest that works (`EchoWindows.LeastSafeChunk`).
- `phoneAudioBuffer.Push` negates a 32-bit distance. At exactly half the timestamp range the negation
  stays negative and the slice index is out of range (`PhoneAudio.CrashesIff`); two packets are enough
  (`PhoneAudio.TwoFramesCrash`).
- A CANCEL is answered with 200 if and only if it is the one that ends its INVITE. One that crosses the answer or
  is repeated gets 481 (`IncomingInvites.CancelOkIff`, `IncomingInvites.RefusedCancels`), although section 9.2
  of RFC 3261 asks for a 200 whenever the INVITE has a server transaction.

## Model

| member | source | states |
|---|---|---|
| InviteProtocol.RunInv | reolink_sip_gateway/internal/sip/client.go:465-561 | the invariant of one dialed call holds after every interleaving of the transaction loop, the read loop, the hand-off, the tombstone, the timers, the BYE and incoming INVITEs under the same Call-ID |
| InviteProtocol.CancelOnceAfterProvisional | reolink_sip_gateway/internal/sip/client.go:492-549 | in every run each INVITE attempt is canceled at most once and only after a provisional response (section 9.1 of RFC 3261) |
| InviteProtocol.OwnerFinishesTheJob | reolink_sip_gateway/internal/sip/client.go:302-368 | in every run at most one ACK and one BYE per attempt; once a call is at rest the owner of its first final response has sent exactly one ACK, and exactly one BYE if it was a 2xx, or none if the peer ended the dialog while the call was up, if and only if transact did not time out, which excludes a cancellation that was seen |
| InviteProtocol.TimesOutIff | reolink_sip_gateway/internal/sip/client.go:524-533 | an attempt times out exactly when the deadline branch is taken while no cancellation was requested |
| InviteProtocol.QueuedAnswerLost | reolink_sip_gateway/internal/sip/client.go:524-533 | a run in which a 200 accepted by the read loop after the cancellation is neither acknowledged nor hung up |
| InviteProtocol.ReAcksAreSent | reolink_sip_gateway/internal/sip/client.go:775-794 | every re-ACK decided under the lock is sent afterwards, once |
| InviteProtocol.OneHolder | reolink_sip_gateway/internal/sip/client.go:702-738 | a canceled attempt is at any moment held by exactly one of the waiting transaction, the tombstone, an owner, or its expiry |
| InviteProtocol.OwnerNeverChanges | reolink_sip_gateway/internal/sip/client.go:702-838 | once a final response has an owner, no step of any run gives it another |
| InviteProtocol.AcceptedFinalIsOwned | reolink_sip_gateway/internal/sip/client.go:627-652 | a final response put into the transaction has an owner; one that finds none has an owner afterwards if and only if there was one already, or the cancellation was seen, the tombstone lives and no incoming call holds the active entry |
| InviteProtocol.LateFinalOwnedIffCancellationSeen | reolink_sip_gateway/internal/sip/client.go:524-556 | a final response after Dial has given up gets an owner if and only if the cancellation had been seen before and no incoming call holds the active entry |
| InviteProtocol.UnseenCancellationLosesTheAnswer | reolink_sip_gateway/internal/sip/client.go:524-556 | a run in which the context is canceled, the 32-second deadline is selected first and a 200 is neither owned nor acknowledged |
| InviteProtocol.SeenCancellationKeepsTheAnswer | reolink_sip_gateway/internal/sip/client.go:702-838 | a run with the same late 200 after a cancellation that was seen: the tombstone's side owns it and acknowledges it |
| InviteProtocol.NeverStuck | reolink_sip_gateway/internal/sip/client.go:465-561 | until the call is at rest some step other than an arrival or a cancellation can always be taken |
| InviteProtocol.ReAckNamesTheInvite | reolink_sip_gateway/internal/sip/client.go:770-794 | an unmatched 2xx of a remembered dialog is acknowledged again with the CSeq of the INVITE, also after BYE has advanced the dialog's CSeq (section 13.2.2.4 of RFC 3261), unless an incoming call holds the active entry |
| InviteProtocol.FirstFinalAppend | reolink_sip_gateway/internal/sip/client.go:709-721 | a later response never changes which queued response the hand-off picks |
| CallIdReuse.ReuseHarmlessIff | reolink_sip_gateway/internal/sip/incoming.go:296-310 | after an incoming INVITE is admitted under a dialed Call-ID, in any state of any run, every continuation, further such INVITEs in settled states included, keeps the Call-ID in one place if and only if the dialed call is settled: no tombstone, no completed entry, no dialog that goes on and no hand-off that can still come |
| CallIdReuse.SettledStays | reolink_sip_gateway/internal/sip/incoming.go:296-310 | from a settled call no such continuation reaches a second place |
| CallIdReuse.NotSettledBreaks | reolink_sip_gateway/internal/sip/incoming.go:296-310 | from any other, waiting, active, tombstoned or completed, a continuation that does |
| CallIdReuse.CheckedAdmissionsKeepOnePlace | reolink_sip_gateway/internal/sip/incoming.go:296-310 | if every admission had found the Call-ID in none of dialing, active, canceledInvites and completedDialogs, it would be in at most one of the three maps in every run |
| CallIdReuse.UnusedIsSettled | reolink_sip_gateway/internal/sip/incoming.go:296-310 | such a Call-ID belongs to a settled call |
| CallIdReuse.ReInviteBreaksUniqueness | reolink_sip_gateway/internal/sip/client.go:426-436 | a run in which the re-INVITE of an established dialog leaves its Call-ID both active and completed |
| SipClient.ReserveSection | reolink_sip_gateway/internal/sip/client.go:273-281 | reserving a Call-ID keeps the call limit and touches no other Call-ID |
| SipClient.TransitionSection | reolink_sip_gateway/internal/sip/client.go:702-738 | the hand-off over the client's maps does to its Call-ID what the call protocol says, to no other Call-ID anything, and keeps the limit |
| SipClient.UnmatchedSection | reolink_sip_gateway/internal/sip/client.go:770-838 | the same for a response without a transaction, tombstones, late dialogs and re-ACKs included |
| SipClient.DeliverSection | reolink_sip_gateway/internal/sip/client.go:607-653 | the same for a response put into a transaction's bounded channel or dropped when it is full |
| SipClient.EstablishSection | reolink_sip_gateway/internal/sip/client.go:335-347 | the same for a reservation that becomes an active dialog, whoever held the active entry |
| SipClient.FinishSection | reolink_sip_gateway/internal/sip/client.go:426-446 | the same for finishing a call, a second finish changing nothing |
| SipClient.AdmitSection | reolink_sip_gateway/internal/sip/incoming.go:296-310 | the same for an admitted incoming INVITE, whatever its Call-ID was used for |
| SipClient.FinishIncomingSection | reolink_sip_gateway/internal/sip/client.go:426-446 | the end of an incoming call clears the active entry if it is still its own and files nothing |
| SipClient.ExpirySections | reolink_sip_gateway/internal/sip/client.go:754-768 | the same for the expiry of a tombstone and of a completed dialog |
| SipClient.NextCSeqSection | reolink_sip_gateway/internal/sip/client.go:411-424 | the same for the CSeq of a BYE |
| SipClient.InviteTransaction.OnResponse | reolink_sip_gateway/internal/sip/client.go:492-515 | the loop's response branch keeps the local flags in step with the protocol state and returns exactly on a final response |
| SipClient.InviteTransaction.OnContextDone | reolink_sip_gateway/internal/sip/client.go:534-556 | so does the cancellation branch |
| SipClient.InviteTransaction.OnDeadline | reolink_sip_gateway/internal/sip/client.go:524-533 | so does the deadline branch, with the hand-off if and only if the cancellation was seen |
| SipClient.Client.Reserve | reolink_sip_gateway/internal/sip/client.go:273-281 | the new maps of a granted or refused reservation |
| SipClient.Client.ReleaseReservation | reolink_sip_gateway/internal/sip/client.go:283-290 | the new maps after Dial gave up, the limit kept |
| SipClient.Client.OpenTransaction | reolink_sip_gateway/internal/sip/client.go:465-471 | the new maps of a registered transaction, the limit kept |
| SipClient.Client.Deliver | reolink_sip_gateway/internal/sip/client.go:627-646 | the new maps of a matched response, and whether there was a transaction |
| SipClient.Client.TransitionCanceledInvite | reolink_sip_gateway/internal/sip/client.go:702-738 | the new maps of the hand-off and what the caller has to do next |
| SipClient.Client.HandleUnmatchedInviteResponse | reolink_sip_gateway/internal/sip/client.go:770-838 | the new maps and the message to send for a response without a transaction |
| SipClient.Client.EstablishDialog | reolink_sip_gateway/internal/sip/client.go:335-347 | the new maps of an answered call |
| SipClient.Client.Finish | reolink_sip_gateway/internal/sip/client.go:426-446 | the new maps of a finished call |
| SipClient.Client.NextCSeq | reolink_sip_gateway/internal/sip/client.go:411-415 | the CSeq of a BYE, with wrap-around, and the new maps |
| SipClient.Client.FinishIncoming | reolink_sip_gateway/internal/sip/client.go:426-436 | the new maps after an incoming call, unchanged if its entry was taken over |
| SipClient.Client.ExpireCanceledInvite | reolink_sip_gateway/internal/sip/client.go:754-768 | the new maps after a tombstone's 32 seconds |
| SipClient.Client.ExpireCompletedDialog | reolink_sip_gateway/internal/sip/client.go:840-854 | the new maps after a completed dialog's 32 seconds |
| SipClient.Client.AdmitIncoming | reolink_sip_gateway/internal/sip/incoming.go:296-310 | the new maps of an admitted or refused incoming call |
| ClientRuns.SectionRefines | reolink_sip_gateway/internal/sip/client.go:273-386 | every critical section on the shared maps refines its step of the call protocol and leaves every other Call-ID alone |
| ClientRuns.RunWorldInv | reolink_sip_gateway/internal/sip/client.go:273-386 | over any run of any number of dialed and incoming calls, whatever Call-IDs the peers name, the maps say about each dialed call what its own protocol run says |
| ClientRuns.ClientSafety | reolink_sip_gateway/internal/sip/incoming.go:296-310 | in every reachable client state whose admissions found their Call-ID unused, every dialed Call-ID is in at most one of the three maps |
| ClientRuns.EntriesWithinLimit | reolink_sip_gateway/internal/sip/client.go:684-686 | in every reachable client state, reused Call-IDs included, the entries of dialing and of active, late dialogs apart, stay within maxConcurrentCalls |
| CallLimit.InStepIff | reolink_sip_gateway/internal/sip/incoming.go:296-310 | while every call that goes on has an entry of its own, a step keeps it so if and only if it is not an INVITE under a Call-ID whose entry counts, nor an answer to a dialed call whose Call-ID an incoming one holds |
| CallLimit.AlwaysInStepIff | reolink_sip_gateway/internal/sip/incoming.go:296-310 | over every run calls and entries are always in step if and only if no step overwrites |
| CallLimit.CallsWithinLimit | reolink_sip_gateway/internal/sip/client.go:684-686 | in every run that overwrites nothing the calls being dialed, going on or incoming are as many as the entries, and within maxConcurrentCalls |
| CallLimit.CheckedCallsWithinLimit | reolink_sip_gateway/internal/sip/incoming.go:296-310 | if every admission had found its Call-ID in none of dialing, active, canceledInvites and completedDialogs, the calls would stay within maxConcurrentCalls in every run |
| CallLimit.OverwrittenUncounted | reolink_sip_gateway/internal/sip/incoming.go:308 | an INVITE that overwrites adds a call and no entry |
| CallLimit.CallsLimitIff | reolink_sip_gateway/internal/sip/client.go:684-686 | the calls stay within maxConcurrentCalls in every run if and only if it is at most one |
| CallLimit.UncheckedCallsUnbounded | reolink_sip_gateway/internal/sip/incoming.go:296-310 | with room for two, for every number a run in which that many calls go on |
| ClientRuns.UncheckedWorldBreaks | reolink_sip_gateway/internal/sip/incoming.go:296-310 | under any limit a run of the whole client that puts a dialed Call-ID into two maps |
| ClientRuns.EveryCallIsARun | reolink_sip_gateway/internal/sip/client.go:273-386 | what a dialed call of the client went through is a run of its protocol, so the theorems about those runs hold for it |
| ClientRuns.ExemptMeansLate | reolink_sip_gateway/internal/sip/client.go:808-836 | the only active entries not counted are dialogs answered after their cancellation was seen, owned by the tombstone's clean-up |
| Fork.RunInv | reolink_sip_gateway/internal/callcontrol/fork.go:52-123 | the accounting of results, hang-ups and phases holds after every interleaving of legs, caller and drain |
| Fork.AtMostOnce | reolink_sip_gateway/internal/callcontrol/fork.go:75-123 | each result is received and each dialog hung up at most once, only established dialogs are, and the winner never is |
| Fork.ResultNeverBlocks | reolink_sip_gateway/internal/callcontrol/fork.go:65-73 | a dial goroutine that has returned can always put its result into the channel |
| Fork.NothingLeaks | reolink_sip_gateway/internal/callcontrol/fork.go:52-123 | when all is over every leg's result was received exactly once and every established dialog but the winner was hung up exactly once, on the cancellation and the all-failed path too |
| Fork.CloseComesLast | reolink_sip_gateway/internal/callcontrol/fork.go:106-123 | LosersDone can be closed only when every result is in and every hang-up has returned |
| Fork.NeverStuck | reolink_sip_gateway/internal/callcontrol/fork.go:52-123 | until everything is over some step other than the caller's cancellation is open |
| Fork.CheckLegs | reolink_sip_gateway/internal/callcontrol/fork.go:52-63 | which of the start errors is returned, and for which leg first |
| Fork.Race.CallerTurn | reolink_sip_gateway/internal/callcontrol/fork.go:75-104 | one turn of the caller's loop is the protocol's step, and it returns exactly when the race is decided |
| Fork.Race.DrainTurn | reolink_sip_gateway/internal/callcontrol/fork.go:106-123 | one turn of the drain loop is the protocol's step |
| Fork.Race.SendResult | reolink_sip_gateway/internal/callcontrol/fork.go:67-73 | a leg's send is the protocol's step |
| IncomingInvites.OneEnding | reolink_sip_gateway/internal/sip/incoming.go:67-175 | over every interleaving of Answer, Reject, CANCEL, ACK, repeats and timers an invite leaves pending at most once |
| IncomingInvites.PhasesInOrder | reolink_sip_gateway/internal/sip/incoming.go:67-175 | only answered can be followed by acknowledged, and only by an ACK with the INVITE's CSeq |
| IncomingInvites.AcknowledgedByItsCSeq | reolink_sip_gateway/internal/sip/incoming.go:138-153 | an invite is acknowledged if and only if an ACK with its CSeq was taken |
| IncomingInvites.OneFinalResponse | reolink_sip_gateway/internal/sip/incoming.go:129-136 | everything on the wire is the 100 or the one stored final response, and no final response goes out while pending |
| IncomingInvites.DecisionStands | reolink_sip_gateway/internal/sip/incoming.go:129-200 | whatever follows a decision, the stored response stays the same, so every later resend repeats it |
| IncomingInvites.OneOutcome | reolink_sip_gateway/internal/sip/incoming.go:67-223 | Done yields at most one result, and it agrees with how the invite ended |
| IncomingInvites.OfferedOnce | reolink_sip_gateway/internal/sip/incoming.go:225-323 | while a server key's entry lives its invite is offered at most once, and a repeated INVITE only resends |
| IncomingInvites.OffersSeparated | reolink_sip_gateway/internal/sip/incoming.go:225-323 | over a run, of two offers of one key the second comes after the entry of the first has expired |
| IncomingInvites.AdmissionsSeparated | reolink_sip_gateway/internal/sip/incoming.go:296-310 | two INVITEs of one key are admitted only with the expiry of its entry in between |
| IncomingInvites.CancelOkIff | reolink_sip_gateway/internal/sip/incoming.go:155-175 | over every history a CANCEL gets 200 if and only if the INVITE is pending and it ends it, so at most one does; any other gets 481 and changes nothing |
| IncomingInvites.RefusedCancels | reolink_sip_gateway/internal/sip/incoming.go:155-175 | runs in which a CANCEL that crosses the answer, and a repeated one, get 481 |
| IncomingInvites.ServerRunInv | reolink_sip_gateway/internal/sip/incoming.go:225-351 | the table of invites and all of its invites keep their invariants over every run |
| IncomingInvites.IncomingInvite.AnswerLocked | reolink_sip_gateway/internal/sip/incoming.go:67-101 | the new state and verdict of Answer up to its unlock |
| IncomingInvites.IncomingInvite.RejectLocked | reolink_sip_gateway/internal/sip/incoming.go:105-127 | the new state and verdict of Reject up to its unlock |
| IncomingInvites.IncomingInvite.CancelLocked | reolink_sip_gateway/internal/sip/incoming.go:155-175 | the new state and verdict of a CANCEL |
| IncomingInvites.IncomingInvite.Acknowledge | reolink_sip_gateway/internal/sip/incoming.go:138-153 | the new state after an ACK, unchanged for a foreign CSeq |
| IncomingInvites.IncomingInvite.ResendLastResponse | reolink_sip_gateway/internal/sip/incoming.go:129-136 | a resend queues a copy of the stored response and changes nothing else |
| Adpcm.UnpackInvertsPack | reolink_sip_gateway/internal/codec/adpcm.go:59-127 | the decoder's nibbles are the encoder's |
| Adpcm.DecoderFollowsEncoder | reolink_sip_gateway/internal/codec/adpcm.go:59-177 | replaying the encoder's nibbles gives its predictor trajectory and final state |
| Adpcm.BlockRoundTrip | reolink_sip_gateway/internal/codec/adpcm.go:41-127 | decoding a block gives the encoder's predictor trajectory, sample for sample |
| Adpcm.HeaderRoundTrip | reolink_sip_gateway/internal/codec/adpcm.go:41-57 | the block header restores predictor and index |
| Adpcm.QuantisationError | reolink_sip_gateway/internal/codec/adpcm.go:129-177 | a sample less than two steps away is reconstructed to within a quarter step plus one |
| Adpcm.ADPCMEncoder.EncodeNibble | reolink_sip_gateway/internal/codec/adpcm.go:129-177 | the nibble chosen and the new predictor and index, clamps included |
| Adpcm.ADPCMEncoder.EncodeBlock | reolink_sip_gateway/internal/codec/adpcm.go:102-127 | the block of an even number of samples and the encoder's next state; an odd number fails and changes nothing |
| Adpcm.ADPCMEncoder.FillPayload | reolink_sip_gateway/internal/codec/adpcm.go:116-126 | the packing loop fills the payload with all nibbles in order |
| Adpcm.ADPCMDecoder.Decode | reolink_sip_gateway/internal/codec/adpcm.go:41-98 | the samples of a block do not depend on the decoder's state before |
| Adpcm.ADPCMDecoder.FillSamples | reolink_sip_gateway/internal/codec/adpcm.go:59-97 | the unpacking loop writes the whole replay |
| Adpcm.ADPCMDecoder.DecodeNibble | reolink_sip_gateway/internal/codec/adpcm.go:61-96 | one nibble advances the decoder exactly as it advanced the encoder |
| BcMedia.PacketConsumes | reolink_sip_gateway/internal/baichuan/media.go:54-110 | every packet consumes at least eight bytes and no more than there are |
| BcMedia.VerdictIsStable | reolink_sip_gateway/internal/baichuan/media.go:54-146 | more bytes never change a packet or an error already decided |
| BcMedia.ParseInTwo | reolink_sip_gateway/internal/baichuan/media.go:29-52 | parsing in two calls gives the packets, rest and error of parsing at once |
| BcMedia.SplitInvariance | reolink_sip_gateway/internal/baichuan/media.go:29-52 | so does any split into any number of calls |
| BcMedia.SameFraming | reolink_sip_gateway/internal/baichuan/media.go:54-146 | leaving video payloads out changes neither framing nor errors |
| BcMedia.AudioOnlyFilters | reolink_sip_gateway/internal/baichuan/media.go:29-52 | audio-only output is the full parse filtered to AAC and ADPCM, with the same rest and error |
| BcMedia.FrameRoundTrip | reolink_sip_gateway/internal/baichuan/talk.go:272-283 | a serialized block is parsed back, and exactly it, if and only if its size fits sixteen bits |
| BcMedia.AcceptedBlockParses | reolink_sip_gateway/internal/baichuan/talk.go:98-103 | every block a talk session accepts fits the size field and is parsed back, whatever follows it |
| BcMedia.StartTalk | reolink_sip_gateway/internal/baichuan/talk.go:150-155 | exactly the odd and the too small block lengths are refused |
| BcMedia.MediaParser.Append | reolink_sip_gateway/internal/baichuan/media.go:29-52 | the loop returns the whole parse of what was buffered and what came, and keeps the rest |
| BcMedia.TalkSession.WriteADPCMBlock | reolink_sip_gateway/internal/baichuan/talk.go:87-104 | a canceled context, a closed session and a block of the wrong size are refused in that order and nothing changes; otherwise the block fits and its frame is sent under the next number |
| BcMedia.SerializeTalkADPCMBlock | reolink_sip_gateway/internal/baichuan/talk.go:272-283 | the buffer filled in place is the frame the parser is proved against |
| TalkStream.FirstFrame | reolink_sip_gateway/internal/baichuan/talk.go:272-283 | a frame at the head of any stream is one packet and leaves the rest of the parse alone |
| TalkStream.EndToEnd | reolink_sip_gateway/internal/baichuan/media.go:29-110 | any blocks of one running encoder, serialized, cut anywhere, parsed and decoded are the encoder's predictor trajectory, with nothing left over and no error |
| TalkStream.SessionIsHeard | reolink_sip_gateway/internal/media/talkback_audio.go:578-588 | the same for every list of blocks of a session's own size, with nothing assumed about the size field |
| TalkStream.Talk | reolink_sip_gateway/internal/media/talkback_audio.go:564-588 | the playout loop hands the session exactly those bytes, and the session refuses none of its blocks |
| TalkStream.TalkBlock | reolink_sip_gateway/internal/media/talkback_audio.go:578-588 | one turn of it encodes, numbers and sends one block |
| Sequencer.EmittedInOrder | reolink_sip_gateway/internal/media/talkback_audio.go:196-290 | in every run packets come out with numbers rising by 1 to 8·window+1 between resets, fewer than window wait, and never the expected one |
| Sequencer.NothingInvented | reolink_sip_gateway/internal/media/talkback_audio.go:208-290 | no packet comes out more often than it arrived, held-back copies included |
| Sequencer.PushInv | reolink_sip_gateway/internal/media/talkback_audio.go:208-242 | one arrival keeps the invariant and continues the order of the output |
| Sequencer.FlushInv | reolink_sip_gateway/internal/media/talkback_audio.go:244-272 | so does giving up on a gap, which always emits something |
| Sequencer.DrainFacts | reolink_sip_gateway/internal/media/talkback_audio.go:276-290 | draining emits consecutive numbers from the expected one, stops at the first gap and loses nothing |
| Sequencer.RTPSequencer.Push | reolink_sip_gateway/internal/media/talkback_audio.go:208-242 | the output and new state of one arrival |
| Sequencer.RTPSequencer.FlushGap | reolink_sip_gateway/internal/media/talkback_audio.go:244-272 | the output and new state of a flush, through a search of the map in any order |
| Sequencer.RTPSequencer.FindNearest | reolink_sip_gateway/internal/media/talkback_audio.go:247-264 | the search over the map returns the pending number nearest ahead |
| Sequencer.RTPSequencer.Drain | reolink_sip_gateway/internal/media/talkback_audio.go:276-290 | the loop emits the whole consecutive run |
| Reordering.OrderRestored | reolink_sip_gateway/internal/media/talkback_audio.go:196-290 | arrivals that permute a consecutive run within the window come out as the whole run in order, across any number of wraps |
| Reordering.GentleStep | reolink_sip_gateway/internal/media/talkback_audio.go:208-242 | one such arrival emits the run up to the next gap |
| Resampler.SplitDoesNotMatter | reolink_sip_gateway/internal/media/talkback_audio.go:133-173 | any split of the input into pushes yields the closed form of the whole input |
| Resampler.StreamIsStable | reolink_sip_gateway/internal/media/talkback_audio.go:133-173 | more input extends the output and changes none of it |
| Resampler.Neighbours | reolink_sip_gateway/internal/media/talkback_audio.go:146-171 | every output that exists has both of its input neighbours |
| Resampler.OutputInSegment | reolink_sip_gateway/internal/media/talkback_audio.go:153-168 | an output tick between two inputs interpolates exactly those two |
| GoNumbers.BetweenNeighbours | reolink_sip_gateway/internal/media/talkback_audio.go:158-165 | truncating interpolation stays between its ends, so neither clamp is ever taken |
| Resampler.LinearResampler.Push | reolink_sip_gateway/internal/media/talkback_audio.go:133-173 | a push returns exactly the outputs of the closed form that were not out yet |
| Resampler.LinearResampler.Segment | reolink_sip_gateway/internal/media/talkback_audio.go:151-170 | the tick loop emits all outputs between two inputs; a negative distance does not occur |
| Resampler.NewLinearResampler | reolink_sip_gateway/internal/media/talkback_audio.go:119-124 | exactly the rates outside 8000 to 48000 are refused |
| SampleFifo.NewestOfNewest | reolink_sip_gateway/internal/media/talkback_audio.go:90-106 | dropping the oldest after each push leaves what dropping once at the end would |
| SampleFifo.SampleFIFO.Push | reolink_sip_gateway/internal/media/talkback_audio.go:90-106 | the queue is the newest part of everything pushed, within its capacity; pushed equals consumed plus dropped plus queued |
| SampleFifo.SampleFIFO.Pop | reolink_sip_gateway/internal/media/talkback_audio.go:77-88 | the oldest samples leave in order and are counted as consumed |
| PhoneAudio.FedMatchesTimestamps | reolink_sip_gateway/internal/media/talkback_audio.go:332-372 | since the last reset as many samples were fed to the resampler as the timestamps advanced, modulo 2^32, through gaps, overlaps and duplicates |
| PhoneAudio.ByteAtItsTime | reolink_sip_gateway/internal/media/talkback_audio.go:332-372 | every byte that was kept is fed, decoded, at the position of its own timestamp |
| PhoneAudio.SilenceInGaps | reolink_sip_gateway/internal/media/talkback_audio.go:346-349 | between packets there is silence and never more than 1600 samples of it |
| TalkbackPath.OriginalIsFed | reolink_sip_gateway/internal/media/talkback_audio.go:196-372 | a run of packets reordered within the window is fed to the resampler as the decoded original, byte for byte, whatever was played before and however often numbers and timestamps wrap |
| PhoneAudio.CrashesIff | reolink_sip_gateway/internal/media/talkback_audio.go:353-360 | the slice index goes out of range if and only if a frame that is not empty and asks for no reset is exactly 2^31 away from a running timeline |
| PhoneAudio.NegatedStaysNegative | reolink_sip_gateway/internal/media/talkback_audio.go:353-354 | of the negative distances exactly -2^31 stays negative under 32-bit negation |
| PhoneAudio.TwoFramesCrash | reolink_sip_gateway/internal/media/talkback_audio.go:344-360 | two packets after which the index is out of range |
| PhoneAudio.PhoneAudioBuffer.Push | reolink_sip_gateway/internal/media/talkback_audio.go:332-372 | the new timeline; the queue has been pushed the resampled timeline, all of it |
| PhoneAudio.PhoneAudioBuffer.PushPCM8 | reolink_sip_gateway/internal/media/talkback_audio.go:374-383 | samples are resampled into the queue and an overflow, and nothing else, reaches the playout |
| PhoneAudio.PhoneAudioBuffer.Reset | reolink_sip_gateway/internal/media/talkback_audio.go:324-330 | timeline, resampler and queue start afresh together |
| PhoneAudio.PhoneAudioBuffer.PopBlock | reolink_sip_gateway/internal/media/talkback_audio.go:385-388 | a block is taken from the queue without touching the timeline |
| PhoneAudio.NewPhoneAudioBuffer | reolink_sip_gateway/internal/media/talkback_audio.go:304-322 | an unknown codec or an unsupported rate is refused; otherwise everything starts empty and the queue is bounded by four blocks |
| ElasticPop.PopAccounting | reolink_sip_gateway/internal/media/elastic_talkback.go:84-118 | for every depth, block size and controller state: n samples, at most min(depth, floor(1.03n)) taken, the rest left, valid plus missing is n, none missing if and only if depth is at least ceil(0.98n), ratio within 980000 to 1030000 |
| ElasticPlayout.ConsumeBounds | reolink_sip_gateway/internal/media/elastic_talkback.go:162-215 | whatever the trend, the amount taken stays within the queue and the stretch and compression limits |
| ElasticPlayout.InputLimits | reolink_sip_gateway/internal/media/elastic_talkback.go:217-223 | the limits are the ceiling of 98 and the floor of 103 per cent, on either side of n |
| ElasticPop.BlockEdges | reolink_sip_gateway/internal/media/elastic_talkback.go:120-152 | how one block starts and ends in each of the cases |
| ElasticPop.EdgesOverRuns | reolink_sip_gateway/internal/media/elastic_talkback.go:84-160 | over any run of arrivals, overflows, restarts and blocks: a block with samples missing ends at 0, the next with valid samples starts at 0, a total underrun and an overflow splice start at the last played sample |
| ElasticPop.DropsAreSpliced | reolink_sip_gateway/internal/media/elastic_talkback.go:120-132 | after an overflow following a complete block, the very next block is spliced on if it plays anything |
| ElasticPop.SplicedIff | reolink_sip_gateway/internal/media/elastic_talkback.go:120-152 | over every run a block is spliced on if and only if samples were dropped or the timeline restarted since the block before, that one was complete and this one plays anything; it fades in if and only if that one had samples missing and this one plays anything |
| ElasticPlayout.ResamplingKeepsEnds | reolink_sip_gateway/internal/media/elastic_talkback.go:225-261 | both ends of the input survive whenever two samples are due |
| ElasticPlayout.ResamplingInterpolates | reolink_sip_gateway/internal/media/elastic_talkback.go:247-259 | every sample lies between its two input neighbours |
| ElasticPlayout.GainAtEnds | reolink_sip_gateway/internal/media/elastic_talkback.go:313-328 | the whole window is used however few samples there are |
| ElasticPlayout.FadeOutEndsSilent | reolink_sip_gateway/internal/media/elastic_talkback.go:284-294 | a fade-out ends at 0 and leaves the first of two or more samples alone |
| ElasticPlayout.SpliceStartsAtPrevious | reolink_sip_gateway/internal/media/elastic_talkback.go:296-304 | a splice starts at the last played sample |
| ElasticPlayout.TailDecays | reolink_sip_gateway/internal/media/elastic_talkback.go:306-311 | an underrun starts at the last played sample and ends at 0 |
| ElasticTalkback.ElasticTalkbackPlayout.Pop | reolink_sip_gateway/internal/media/elastic_talkback.go:84-160 | the whole result, the queue and the controller after a pop |
| ElasticTalkback.ElasticTalkbackPlayout.ChooseConsume | reolink_sip_gateway/internal/media/elastic_talkback.go:162-215 | the amount taken and the new trend |
| ElasticTalkback.ResamplePCMBlock | reolink_sip_gateway/internal/media/elastic_talkback.go:225-261 | the loop fills the block with the linear map |
| ElasticTalkback.ApplyFadeIn | reolink_sip_gateway/internal/media/elastic_talkback.go:277-282 | the fade in place, the rest of the block untouched |
| ElasticTalkback.ApplyFadeOut | reolink_sip_gateway/internal/media/elastic_talkback.go:284-294 | the fade in place, the rest of the block untouched |
| ElasticTalkback.ApplyBoundarySplice | reolink_sip_gateway/internal/media/elastic_talkback.go:296-304 | the splice in place, the rest of the block untouched |
| ElasticTalkback.ApplyDecayingTail | reolink_sip_gateway/internal/media/elastic_talkback.go:306-311 | the tail in place |
| PlayoutPLL.ClockNeverMovesBack | reolink_sip_gateway/internal/media/playout_pll.go:93-300 | over any pushes, arrival times and pops each media time exceeds the last by at least 159.8 samples, and buffer, phase, integral and correction stay in their bounds |
| PlayoutPLL.PopAdvances | reolink_sip_gateway/internal/media/playout_pll.go:200-293 | one frame advances the media time by at least 159.8 samples |
| PlayoutPLL.PushInv | reolink_sip_gateway/internal/media/playout_pll.go:93-183 | a push of any size at any time keeps the clock and at most 2560 samples |
| PlayoutPLL.PushConserves | reolink_sip_gateway/internal/media/playout_pll.go:93-183 | a push drops only the oldest samples |
| PlayoutPLL.ClockStep | reolink_sip_gateway/internal/media/playout_pll.go:244-300 | a frame consumes 159 to 161 samples and what the phase keeps back is not lost to the clock |
| PlayoutPLL.UnderrunEmpties | reolink_sip_gateway/internal/media/playout_pll.go:245-276 | when a sample is missing nothing is left behind |
| PlayoutPLL.CameraPlayoutPLL.Push | reolink_sip_gateway/internal/media/playout_pll.go:93-183 | the new state, how many samples were dropped, and a rebase reported with every drop |
| PlayoutPLL.CameraPlayoutPLL.PopFrame | reolink_sip_gateway/internal/media/playout_pll.go:200-293 | the frame sample by sample, its media time, what is missing and the new state |
| PlayoutPLL.CameraPlayoutPLL.Resample | reolink_sip_gateway/internal/media/playout_pll.go:244-266 | the interpolation loop and its count of missing samples |
| EchoReference.AddRenderInv | reolink_sip_gateway/internal/media/echo_cancel.go:205-239 | filed frames are exact, time-stamped 80-sample slices of what was played since the rebase they belong to, pruning included |
| EchoWindows.WindowFoundIff | reolink_sip_gateway/internal/media/echo_cancel.go:480-606 | within history of one stretch a window is found if and only if its 80 samples are filed, and it is the slice nearest to the target |
| EchoWindows.WindowsAreSlices | reolink_sip_gateway/internal/media/echo_cancel.go:538-606 | with no epoch shorter than a frame, a window never joins samples across a rebase |
| EchoWindows.WholeRunsIff | reolink_sip_gateway/internal/media/echo_cancel.go:205-239 | over every run no window ever joins two stretches if and only if no AddRender files the first frame of a stretch within half a sample of the end of the newest frame |
| EchoWindows.AddRenderWhole | reolink_sip_gateway/internal/media/echo_cancel.go:205-239 | one call keeps the timeline whole if and only if it does not, pruning included |
| EchoWindows.WholeIff | reolink_sip_gateway/internal/media/echo_cancel.go:538-606 | a timeline is whole if and only if no window of it takes samples from two stretches |
| EchoWindows.HandedOutIff | reolink_sip_gateway/internal/media/echo_cancel.go:480-536 | no window that is handed out joins two stretches if and only if newer frames hide every joint |
| EchoWindows.HandedOutRunsIff | reolink_sip_gateway/internal/media/echo_cancel.go:205-239 | in runs without a backward rebase none ever does if and only if no AddRender files the first frame of a stretch within half a sample of the end of the newest frame |
| EchoWindows.WholeIsUnbroken | reolink_sip_gateway/internal/media/echo_cancel.go:480-606 | and then every window handed out is a slice of one stretch |
| EchoWindows.LongChunksNeverAbut | reolink_sip_gateway/internal/media/echo_cancel.go:205-239 | chunks of at least 80 samples never bring it about |
| EchoWindows.LeastSafeChunk | reolink_sip_gateway/internal/media/echo_cancel.go:205-239 | a bound on the chunk size keeps every window of every forward-clocked run unbroken if and only if it is at least 80 |
| EchoWindows.LongChunksUnbroken | reolink_sip_gateway/internal/media/echo_cancel.go:205-239 | with such chunks they stay unbroken under any clock at all |
| EchoWindows.ShortBetweenBreaks | reolink_sip_gateway/internal/media/echo_cancel.go:212-229 | three chunks with a forward clock after which a window joins two stretches |
| EchoWindows.HintAgrees | reolink_sip_gateway/internal/media/echo_cancel.go:509-536 | while retained frames do not overlap in time the hint never changes what is found |
| EchoWindows.HintAgreesInRuns | reolink_sip_gateway/internal/media/echo_cancel.go:205-239 | they do not overlap in any run without a backward rebase |
| EchoCanceller.EchoCanceller.AddRender | reolink_sip_gateway/internal/media/echo_cancel.go:205-239 | the new render timeline, with fewer than 80 samples waiting |
| EchoCanceller.EchoCanceller.PruneRender | reolink_sip_gateway/internal/media/echo_cancel.go:447-478 | exactly the frames before the first recent one are forgotten |
| EchoCanceller.EchoCanceller.FindReferenceFrame | reolink_sip_gateway/internal/media/echo_cancel.go:509-536 | the hinted frame, or the newest that holds the target, or none |
| EchoCanceller.EchoCanceller.FillReferenceFromFrame | reolink_sip_gateway/internal/media/echo_cancel.go:538-606 | on success the caller's buffer starts with the window; the rest of it is untouched |
| EchoCanceller.EchoCanceller.ReferenceAt | reolink_sip_gateway/internal/media/echo_cancel.go:480-502 | the window at a time, if there is one |
| WebSocketFrames.ReadInvertsWrite | reolink_sip_gateway/internal/ha/websocket.go:131-169 | readFrame inverts writeFrame for every mask and payload up to 16 MiB in all three length forms, consuming exactly the frame; the opcode survives if and only if it has four bits |
| WebSocketFrames.ReadInvertsEncode | reolink_sip_gateway/internal/ha/websocket.go:217-259 | the same for a frame of the other end, final or not, masked or not |
| WebSocketFrames.CutFrameTruncated | reolink_sip_gateway/internal/ha/websocket.go:217-259 | a frame cut short anywhere is an error, never another frame |
| WebSocketFrames.MaskTwice | reolink_sip_gateway/internal/ha/websocket.go:160-163 | masking is its own inverse |
| WebSocketFrames.FragmentsReassemble | reolink_sip_gateway/internal/ha/websocket.go:171-215 | any fragmentation with pings and pongs in between gives the whole payload, every ping answered once and in order, the stream left after the last frame |
| WebSocketFrames.OnlyFragments | reolink_sip_gateway/internal/ha/websocket.go:171-215 | from any byte stream a message is returned only for frames at its start that are the fragments of that message |
| WebSocketFrames.MessageIff | reolink_sip_gateway/internal/ha/websocket.go:171-215 | for every byte stream, whatever length forms its frames use: a message, a rest and pongs come out if and only if the stream begins with the fragments of that message, within 16 MiB, with those pings in between, and goes on with that rest |
| WebSocketFrames.WireReads | reolink_sip_gateway/internal/ha/websocket.go:217-259 | frames sent one after the other are read back one after the other |
| WebSocketConn.WsConn.WriteFrame | reolink_sip_gateway/internal/ha/websocket.go:131-169 | the bytes sent, or a refusal over 16 MiB that sends nothing |
| WebSocketConn.WsConn.ReadFrame | reolink_sip_gateway/internal/ha/websocket.go:217-259 | the frame or error read and the bytes left unread, after a failure too |
| WebSocketConn.WsConn.ReadMessage | reolink_sip_gateway/internal/ha/websocket.go:171-215 | the message or error read, the bytes left unread, and the pongs sent, each under a mask of its own |
| WebSocketConn.WsConn.Unmask | reolink_sip_gateway/internal/ha/websocket.go:253-257 | the unmasking loop in place |
| WebSocketConn.WsConn.MaskedFrame | reolink_sip_gateway/internal/ha/websocket.go:158-163 | the masking loop |
| Repacketizer.SizesDoNotMatter | reolink_sip_gateway/internal/media/packetizer.go:22-59 | between discontinuities the output depends on the concatenated input alone, whatever the packet sizes |
| Repacketizer.BytesConserved | reolink_sip_gateway/internal/media/packetizer.go:39-59 | output payloads followed by the buffer are the input, and less than a packet waits |
| Repacketizer.MediaTime | reolink_sip_gateway/internal/media/packetizer.go:44-58 | packets have 160 bytes, numbers and timestamps step by 1 and 160 with wrap, every byte keeps its media time, and only the first packet is marked |
| Repacketizer.PacketsAreStable | reolink_sip_gateway/internal/media/packetizer.go:40-59 | more input changes no packet that was complete |
| Repacketizer.RtpRepacketizer.Push | reolink_sip_gateway/internal/media/packetizer.go:22-59 | the packets completed by one input, and timestamp plus buffered length equal to the expected input timestamp |
| Repacketizer.RtpRepacketizer.Accept | reolink_sip_gateway/internal/media/packetizer.go:26-40 | what starts a new segment and what continues the old one |
| Repacketizer.RtpRepacketizer.Cut | reolink_sip_gateway/internal/media/packetizer.go:43-58 | the loop cuts off all whole packets |
| SnapshotStore.NewestDelivered | reolink_sip_gateway/internal/status/server.go:107-134 | after every completed Update, reads falling anywhere, each live subscriber has the newest snapshot buffered or has received it |
| SnapshotStore.RevisionsIncrease | reolink_sip_gateway/internal/status/server.go:107-134 | the snapshots a subscriber receives were published and their revisions strictly increase |
| SnapshotStore.SecondAttemptSucceeds | reolink_sip_gateway/internal/status/server.go:118-132 | after the stale snapshot is taken out the second send always finds room |
| SnapshotStore.NeverWaits | reolink_sip_gateway/internal/status/server.go:117-133 | an Update never waits for a reader |
| SnapshotStore.UpdateEnds | reolink_sip_gateway/internal/status/server.go:117-133 | every step of an Update brings it closer to its end, and readers cannot set it back |
| SnapshotStore.QuietSteps | reolink_sip_gateway/internal/status/server.go:110-114 | an update that changes nothing and a key press leave the snapshot, its revision and all subscribers' snapshots alone |
| SnapshotStore.RunInv | reolink_sip_gateway/internal/status/server.go:107-222 | the publisher's invariant over every run of updates, reads, subscriptions, cancellations and key presses |
| StatusStore.StatusStore.Update | reolink_sip_gateway/internal/status/server.go:107-134 | the new snapshot and log, every subscriber served, with any reads between any two channel operations |
| StatusStore.StatusStore.Send | reolink_sip_gateway/internal/status/server.go:118-132 | one subscriber is served whatever readers do during its two attempts |
| StatusStore.StatusStore.Subscribe | reolink_sip_gateway/internal/status/server.go:157-180 | a fresh subscriber starts with the stored snapshot |
| StatusStore.StatusStore.CancelSubscriber | reolink_sip_gateway/internal/status/server.go:182-191 | canceling removes the subscriber; twice is once |
| StatusStore.StatusStore.PublishDTMF | reolink_sip_gateway/internal/status/server.go:196-222 | a key press reaches every queue with room and nothing else |

## Left out

- Sockets, HTTP, FFmpeg, helper processes, files, logging and statistics counters: writes go into a trace and succeed; failing writes and `Client.Close` are not part of this model.
- Message text: SIP, SDP, digest and caller-ID parsing. Responses carry a status and a CSeq; a transaction is named by Call-ID and CSeq instead of its random branch, so branches are assumed fresh, and so is a Call-ID when it is dialed.
- The order in which the read loop serves different calls: each call has a reader of its own here, which allows more interleavings than the one goroutine does.
- REGISTER and BYE transactions: only the INVITE client is modelled; a BYE is sent and answered.
- `digestChallenge` parsing: a challenged first attempt either parses or does not, both ways being followed.
- The table of server invites is modelled on values; each invite is an object. Caller whitelist, source check and header validation come before it and are not part of this model.
- Wall-clock arithmetic of retransmission intervals and of the 32-second timers: timers may fire at any moment.
- Floating point: the trend, pressure and correction of the elastic controller and of the jitter smoother are reals, so rounding of float64 is not captured.
- The half-Hann table: any rising table from 0 to 32768 takes its place.
- A zero `time.Time` as an argument of the jitter smoother: arrival and now are clock readings already; an unset time in its state is None.
- G.711 companding: any table with one sample for every byte.
- Echo cancellation proper, correlation, delay tracking and capture history: numerics, and the tracker is off in production; the tracker suspension on a rebase is left out with it.
- Sequencer.RTPSequencer.FindNearest: the source also deletes pending numbers that lie behind the expected one; none ever does (`Sequencer.PushInv`), so the branch has no counterpart.
- `g711Chunker`: the same loop as the repacketizer's without numbers.
- WebSocket dialing and the handshake, read deadlines and the write lock: I/O around the frames.
- The reverse of `HintAgrees`: with overlapping frames the hint may or may not change the frame found.
- SetRoutes, Serve and the status page: plain copies and presentation.
- `liveimage`, `controller.go`, `rtp.go`, `rtp_watchdog.go`, `rtp_clock.go`, `dtmf.go` and configuration: small or I/O, they would add only easy members.
