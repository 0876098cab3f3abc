# A verified model of tokio-aws-lc

`tokio-aws-lc` adapts AWS-LC's libssl, and the Linux kernel's TLS offload (kTLS), to Tokio's
`AsyncRead`/`AsyncWrite`. This project models the adapter's own state machines in Dafny and proves
what they keep over whole runs:

- the `TlsStream` polls that share one SSL handle (write, flush, read, shutdown), in userspace and
  kTLS mode;
- the shared-waker protocol between the two halves of a stream and the reactor, and that every run of
  the polls is a run of it;
- the kTLS `RecordReader`, for any fragmentation of the records;
- the two composed: what one side acknowledged is what the other side delivers;
- kTLS install, key derivation, and the switch of the receive path from libssl to the kernel;
- the ALPN wire format and selection, and the cipher-suite allowlist.

libssl, the kernel and the reactor are foreign. `Session` answers every call into them from an
arbitrary script (`nat -> Answer`), so each result holds for all of their behaviours. An answer is only
brought into its documented range: a write never reports more bytes than it was offered, and a
positive `SSL_write` count is not a WANT. Readiness events come out of a finite store, which bounds the
retry loops; `Arrive` refills it between polls.

## How the parts fit

- `Trace` records every call at the foreign boundary as an event. A monitor folds over the trace and
  knows nothing of the stream's fields. Its rule `Allowed` says which event may come next. `ErrorOf` is
  the error an event brings, and `ReadReply`, `KernelWriteReply` and `AlertReply` are what the caller must
  be told when a poll ends with an event; the polls are proved against these.
- Among the events is `Notified`: both waiter slots taken and their occupants woken, by a poll or, between
  polls, by the reactor. The monitor keeps the slots and everyone woken, and allows nothing but a notify
  after the write side has failed. The slots of the class are those of its own polls; what a reactor
  running at the same time does to them is the subject of `WakerProtocol`.
- `StreamLaws.Lawful` ties the stream's fields to the monitor. Every poll of the class
  `TlsStream.TlsStream` keeps it. It contains the conservation law: acknowledged bytes are the completed
  bytes followed by `pending_write`. If libssl were to answer a retry with a short positive count, which
  its documented contract excludes, the field `short` says exactly how many of the held bytes went out;
  the stream is failed from then on.
- `TraceLaws` turns a clean trace into statements about its events: the retry contract, the order of
  shutdown, exactly what ends the write side and what follows, registration before every readiness check,
  who leaves a waiter slot and how, and the records on the wire.
- `WakerProtocol` is the interleaved transition system of poller and reactor. `WakerRefinement` reads the
  poller's steps off the trace of any number of polls and shows that every interleaving of them with
  reactor steps is a run of that system, provided a readiness check finds what the readiness bit says.
  `StreamWakeups` applies this to arbitrary runs of the class.
- `RecordStream` holds the reader as a value, with the reference reader of whole records; the class in
  `RecordReader` keeps the source's two-byte buffer and refines it.
- `EndToEnd` composes `Lawful` writers with readers; `StreamRuns` runs arbitrary command sequences on
  the class.
- `Handoff` is the receive stream with a switch that may happen at any moment and with any number;
  `Switchover` shows that the adapter's install only ever makes the one that is gap-free.

## Model

| member | source | states |
|---|---|---|
| EndToEnd.DeliveredIsAccepted | src/stream.rs:421-511 | for every lawful writer, every cutting and coalescing of its records and every point where reading stops or the connection breaks, the delivered bytes are a prefix of the acknowledged ones; a clean EOF means all of them and a closed writer |
| EndToEnd.FlushedIsDelivered | src/stream.rs:466-468 | once everything served is read, the reader has exactly the completed bytes, all acknowledged bytes if the writer is flushed, and a clean EOF if and only if the writer closed |
| EndToEnd.CutConnectionIsNoticed | src/ktls/io.rs:327-340 | a connection that breaks before close_notify never ends cleanly: `UnexpectedEof` for a bare FIN, the socket's own error otherwise |
| EndToEnd.SomeReaderGetsItAll | src/ktls/io.rs:315-354 | every wire can be served: for each lawful writer some reader gets exactly the completed bytes and sees a close exactly if the writer closed |
| EndToEnd.CheckedSendIsWhatThePeerSees | src/ktls/io.rs:441-452 | `check_close_notify_write` accepts a send exactly when the peer, however it is served what went out, sees an authenticated close; after half an alert the peer fails |
| EndToEnd.Conversation | src/ktls/io.rs:251-294 | two live streams under any poll sequences: if the reading kernel was fed from the writer's wire, received bytes are a prefix of acknowledged bytes, and equal after a clean EOF |
| StreamRuns.Perform | src/stream.rs:369-512 | one poll with any arguments, or the reactor running the shared waker, keeps the law; only a write acknowledges bytes, a prefix of its buffer, and only while open; what libssl handed out is what the caller got; a pending poll moves no bytes and will be woken; whoever runs into a failure of the write side is told the very error of the event that caused it; a failed userspace stream is frozen; nobody who waits is forgotten, and a failure leaves nobody waiting |
| StreamRuns.Run | src/stream.rs:369-512 | any command sequence keeps the law; the acknowledged and the received history are what callers were told; after a failure in userspace nothing changes and every non-empty operation reports the latched error; every pending poll ends where it will be polled again; between any two points a waker leaves its slot only by being woken or because its own half registers again |
| StreamRuns.LatchedErrorIsOfTheEvent | src/stream.rs:166-172 | the latched error is a copy of the one that the event which ended the write side brought, with its kind, errno and message |
| TlsStream.TlsStream.constructor | src/stream.rs:121-145 | a fresh stream is lawful, open, in userspace, with nothing pending and no waiters allocated |
| TlsStream.TlsStream.PollWrite | src/stream.rs:421-464 | `Ok(n)` accepts exactly the first `n` caller bytes, at most one record in userspace, and never zero for a non-empty buffer; everything else accepts nothing; `Pending` only while older bytes are held back; the error cases, their order, and the very error of the call that failed, in kTLS mode too; the reader's waker is woken if the held bytes went out or the write side failed, and else still in its slot; a failure leaves both slots empty |
| TlsStream.TlsStream.WriteChunk | src/stream.rs:443-463 | one chunk of at most 16384 bytes is offered; a blocked chunk is owned and acknowledged in full; a fatal answer is reported as it is, latched, and wakes everyone who waits |
| TlsStream.TlsStream.KtlsPollWrite | src/stream.rs:515-528 | the whole buffer is offered to the kernel until it accepts, fails with its own error, or would block; only then readiness is asked for, and its answer is the poll's |
| TlsStream.TlsStream.KernelWriteOnce | src/stream.rs:517-526 | one round of that loop: it goes on exactly after an interruption or once the socket is writable |
| TlsStream.TlsStream.PollPendingWrite | src/stream.rs:174-208 | retries the held bytes first; success leaves none; `Pending` leaves them intact with the waker in its slot, and exactly when the last readiness check found nothing; it fails exactly if an error is latched, with the error of the event that failed or the latched report; the other half's waker hears of completion and failure and else stays; foreign calls are bounded by readiness events used |
| TlsStream.TlsStream.RetryOnce | src/stream.rs:179-205 | one round of the retry loop: it either settles or has used up a readiness event |
| TlsStream.TlsStream.WaitToWrite | src/stream.rs:199-201 | waiting for a retry or a close: parked with the waker in its slot, ready again, or failed, latched and announced |
| TlsStream.TlsStream.PollFlush | src/stream.rs:466-468 | success means every acknowledged byte has been written; a failure is the very error of the event that failed; the reader's waker hears of completion and failure and else stays in its slot |
| TlsStream.TlsStream.PollRead | src/stream.rs:370-417 | held bytes are retried first but never keep `SSL_read` from being tried with all the room there is; the answer is exactly that of the last event: bytes and close_notify succeed, a fatal code and a failing reactor are reported as they are, a WANT is waited for; a latched write error is reported without touching libssl; the writer's waker is woken if its bytes went out or the write side failed, and else still in its slot; in kTLS mode data ends the poll with exactly its bytes and a failure is the reader's; `Pending` is always rescheduled |
| TlsStream.TlsStream.SslPollRead | src/stream.rs:386-416 | the libssl branch: the failure of the flush, or the answer of the last event, with the writer's waker and the bound on foreign calls |
| TlsStream.TlsStream.ReadLoop | src/stream.rs:389-416 | the loop ends with the answer that its last event calls for, and never touches the writer's slot |
| TlsStream.TlsStream.ReadOnce | src/stream.rs:389-416 | one round of the read loop: it settles with exactly the answer of its last event, or goes on because the socket became ready and has used up that event |
| TlsStream.TlsStream.PollShutdown | src/stream.rs:470-511 | success means close_notify is out after every acknowledged byte; repeated shutdown does nothing; a failure is the very error of the event that failed, is latched and wakes everyone who waits; `Pending` is always rescheduled |
| TlsStream.TlsStream.SslShutdown | src/stream.rs:488-510 | succeeds exactly when the stream becomes closed and fails exactly when an error is latched, which wakes everyone who waits |
| TlsStream.TlsStream.CloseOnce | src/stream.rs:490-509 | one round of that loop |
| TlsStream.TlsStream.KtlsShutdown | src/stream.rs:478-487 | the alert is accepted once, then TCP is half-closed; either failure is latched and wakes everyone who waits |
| TlsStream.TlsStream.CloseTcp | src/stream.rs:482-486 | the TCP write half is shut after close_notify was accepted; a failure is latched and wakes everyone who waits |
| TlsStream.TlsStream.PollCloseNotify | src/ktls/io.rs:395-412 | at most 32 sends; the answer is that of the last send or readiness check; `Pending` has accepted no alert byte and either registered the waker or, after all 32, woken it |
| TlsStream.TlsStream.AlertOnce | src/ktls/io.rs:397-408 | one of these sends: both bytes succeed, a short count and an error are reported as they are, an interruption is retried, and readiness is asked for exactly if the send would block |
| TlsStream.TlsStream.PollSslReady | src/stream.rs:147-164 | the caller's waker is in its half's slot before readiness is checked, in the direction libssl asked for; the other half's slot is untouched |
| TlsStream.TlsStream.WriteFailure | src/stream.rs:166-172 | latches a copy of the error that ended the write side, hands back the original, wakes every registered waiter and so makes a failed stream lawful again |
| Basics.Duplicate | src/stream.rs:586-591 | a reproduced error has the same kind, errno and message |
| Trace.SslCode.Report | src/stream.rs:561-584 | `UnexpectedEof` exactly for a syscall error without errno and for the unexpected-EOF reason code; an errno is passed on as it is |
| TraceLaws.RetryContract | src/stream.rs:174-208 | once a write blocks, every later `SSL_write` carries the same bytes until one completes or fails, and no close is attempted meanwhile |
| TraceLaws.ShutdownOrder | src/stream.rs:433-438 | no application data follows a close attempt, and close_notify is accepted at most once |
| TraceLaws.EndsWritingExactly | src/stream.rs:195-205 | the write side fails at exactly these events: a fatal `SSL_write` or `SSL_shutdown`, a short answer to a retry, a reactor that fails while a write or a close waits, an alert that cannot be sent, a failed TCP shutdown |
| TraceLaws.FailureLatch | src/stream.rs:166-177 | after such an event no poll calls libssl, writes or registers again; the very next event wakes everyone who was registered, and nobody waits from then on |
| TraceLaws.CauseIsOfTheEvent | src/stream.rs:195-205 | the cause that the stream has to latch is the error of the one event that ended the write side |
| TraceLaws.BlockedExactly | src/stream.rs:178-206 | libssl is in the middle of a write exactly when the latest `SSL_write` asked to be retried |
| TraceLaws.LeavesOnlyWoken | src/stream.rs:43-58 | between any two points of a trace, a waker whose half has not registered again is still in its slot or was woken in between |
| TraceLaws.RegisteredBeforeChecked | src/stream.rs:147-164 | every readiness check directly follows a registration, which directly follows an SSL call that asked for that direction; so a poll always retries before it parks |
| TraceLaws.WireAlways | src/stream.rs:442-460 | the wire carries the completed plaintext followed by at most one alert, a close_notify exactly when the close was accepted |
| StreamLaws.RetryCompletes | src/stream.rs:186-192 | clearing `pending_write` after a full retry keeps conservation and the retry contract |
| StreamLaws.RetryWants | src/stream.rs:195-199 | keeping `pending_write` after a WANT keeps them too |
| StreamLaws.RetryFails | src/stream.rs:202-205 | any other answer, a short count included, is accounted for exactly and dooms the write side |
| StreamLaws.Latches | src/stream.rs:166-172 | latching a copy and waking everyone is all that a doomed stream needs to be lawful |
| StreamLaws.WriteAccepts | src/stream.rs:447-449 | acknowledging `n` bytes after a positive count conserves bytes |
| StreamLaws.WriteBlocks | src/stream.rs:452-459 | owning and acknowledging the whole chunk after a WANT conserves bytes |
| StreamLaws.CloseCalls | src/stream.rs:490-509 | what each answer of `SSL_shutdown` must do to the shutdown state |
| StreamLaws.AlertSends | src/stream.rs:479-484 | what each answer of the alert send must do to it |
| StreamLaws.Waits | src/stream.rs:199-201 | waiting for readiness changes nothing but the own slot, unless the reactor fails while the write side waits |
| Waiters.IoWaiters.Register | src/stream.rs:44-50 | one slot holds the waker afterwards, the other is unchanged, nobody is woken |
| Waiters.IoWaiters.Notify | src/stream.rs:52-57 | both slots are taken and each waker in them is woken once, in order |
| WakerProtocol.StepKeepsInv | src/stream.rs:147-164 | every atomic step of poller or reactor keeps the inductive invariant |
| WakerProtocol.NoLostWakeup | src/stream.rs:41-68 | in every state of every run and on every direction that the latest poll of a half found not ready, the one a read carried on from included, the half was woken, has its wake-up under way, or sits in its slot behind an armed direction that is clear or about to be delivered |
| WakerProtocol.ParkedHalfWaits | src/stream.rs:386-388 | a half that parked, or is about to, is one that the law above speaks of |
| WakerProtocol.EventReachesWaitingHalf | src/stream.rs:536-557 | after an event on any direction it waits on, also one between its readiness check and its return, whatever the other half and the reactor do, a half has been woken by the time the reactor is idle |
| WakerProtocol.ReactorMakesProgress | src/stream.rs:60-68 | each reactor step shrinks its backlog |
| WakerProtocol.IdleMeansNoBacklog | src/stream.rs:60-68 | the reactor is idle exactly when no backlog is left and none of its steps is enabled |
| WakerRefinement.EventWalks | src/stream.rs:147-164 | every event of a userspace poll, its own notify included, is a legal move of the protocol's poller and takes it to its next place |
| WakerRefinement.PollWalks | src/stream.rs:369-512 | a whole poll is a walk of the poller that leaves its half with the directions found not ready, parked exactly if it returned `Pending` |
| WakerRefinement.StreamRunsFollowTheProtocol | src/stream.rs:147-208 | any number of polls of a stream, interleaved with the reactor in any way, is a run of the protocol, inside polls and between them |
| WakerRefinement.PendingPollIsNotStranded | src/stream.rs:41-68 | once the polls have returned, a half whose latest one was `Pending` is parked and not stranded on any direction that poll found not ready |
| WakerRefinement.EveryRunCanBeWoven | src/stream.rs:536-557 | every log of polls has such an interleaving |
| StreamWakeups.RunWithReactor | src/stream.rs:369-512 | for any commands on a fresh userspace stream and any interleaving of its polls with the reactor: a run of the protocol, with nobody stranded |
| StreamWakeups.EventWakesTheCaller | src/stream.rs:60-68 | after such polls, an event on any direction that the latest poll of a half found not ready has its caller's waker woken by the time the reactor is idle |
| RecordReader.RecordReader.PollRead | src/ktls/io.rs:251-294 | for any kernel answers and buffer: every receive gets all the room there is; exactly the answers are taken in, exactly their application bytes become visible; trusted data that fits, met outside an alert, ends the poll with exactly its payload; zero bytes only after close_notify, terminal states answer without a system call, at most 32 calls, `Pending` is always rescheduled |
| RecordReader.RecordReader.ReceiveLoop | src/ktls/io.rs:265-293 | the budgeted loop behind the checks for a finished reader and an empty buffer |
| RecordReader.RecordReader.PollOnce | src/ktls/io.rs:266-290 | one round: exactly the answer that the kernel's last answer and the state of the reader call for |
| RecordReader.RecordReader.Consume | src/ktls/io.rs:315-354 | the in-place state refines the value-level reader, and the outcome says whether bytes became visible |
| RecordReader.RecordReader.ConsumeAlert | src/ktls/io.rs:356-385 | the two-byte buffer arithmetic stays in range and reaches the judgement of the value-level reader |
| RecordReader.RecordReader.Fail | src/ktls/io.rs:304-309 | latches a copy and returns the original |
| RecordReader.RecordReader.Finished | src/ktls/io.rs:296-302 | a terminal reader repeats EOF or the latched report |
| RecordReader.Received | src/ktls/io.rs:160-195 | a fragment is produced exactly for valid metadata and a payload that fits; the kernel's own error is passed on, everything else is `InvalidData` |
| Records.RecordTypeExact | src/ktls/io.rs:95-151 | the record type is trusted exactly for no message, one complete message, or two that both announce application data |
| RecordStream.StepExact | src/ktls/io.rs:315-385 | for any input to a live reader: exactly what keeps it live, what closes it, what is exposed, and which error kind everything else is |
| RecordStream.FragmentationIndependence | src/ktls/io.rs:315-385 | any cutting and coalescing of a record sequence delivers the same bytes and reaches the same verdict as a reader of whole records |
| RecordStream.RecordwiseSplitServes | src/ktls/io.rs:360-372 | cutting each record on its own, end-of-record on the last piece, is one of the admitted cuttings |
| RecordStream.WholeRecordsServe | src/ktls/io.rs:315-354 | every record sequence has an admitted cutting |
| RecordStream.PrefixOfRun | src/ktls/io.rs:251-294 | stopping at any fragment gives a prefix, and a verdict already reached is final |
| RecordStream.TerminalIsSticky | src/ktls/io.rs:321-323 | after a terminal state no input changes it or exposes a byte |
| RecordStream.LiveHoldsAtMostOneByte | src/ktls/io.rs:357-372 | a live reader holds at most one alert byte after any inputs |
| RecordStream.BreakIsNotEof | src/ktls/io.rs:327-340 | a FIN or socket error fails a live reader with its own kind, even inside an alert, and hides whatever follows |
| KtlsInstall.InstallRxThenTx | src/ktls/mod.rs:342-354 | success exactly when both directions are accepted; a refused RX leaves both inert; the only state with one direction active is reported as fatal; each with the kernel's own error |
| KtlsInstall.InstallKtls | src/ktls/mod.rs:100-122 | success exactly under `Offloads`, then with blocks for the version and AEAD that were negotiated; fatal failure exactly under `Condemns`, a fallback error only with both directions inert; which error, in the order of the steps, `IneligibleCipher` exactly if no suite of the crate was negotiated |
| KtlsInstall.DetectExact | src/ktls/cipher.rs:34-50 | a cipher is detected exactly if the handshake negotiated a suite of the crate, with that suite's version and AEAD |
| KtlsInstall.DerivedIsNegotiated | src/ktls/mod.rs:127-210 | the derived blocks carry the negotiated version, and the cipher number and field lengths of the negotiated AEAD |
| KtlsInstall.ClassifyUlpError | src/ktls/mod.rs:372-378 | exactly which errnos mean no module, a socket in the wrong state, or a fatal refusal, with the error kept |
| KtlsInstall.DeriveFailsAsInit | src/ktls/mod.rs:127-210 | a failed derivation is never taken for a reason to fall back |
| TlsStream.TlsStream.TryAutoInstallKtls | src/stream.rs:272-305 | `Ok` and active means both directions, with blocks for what was negotiated; `Ok` and inactive means neither; one direction alone is an error; exactly which answers lead where, and with which error |
| TlsStream.Establish | src/acceptor.rs:45-47 | no caller ever gets a stream with one direction offloaded; offloaded exactly under `Offloads`, refused exactly under `Condemns` with its error |
| KeyMaterial.EndpointsAgree | src/ktls/mod.rs:127-210 | client and server derive together, and each one's TX block is the other's RX block once sequence numbers agree |
| KeyMaterial.DirectionsAreRight | src/ktls/mod.rs:127-309 | TX material comes from the own write side and RX from the peer's, seeded with libssl's sequence numbers; for TLS 1.3 salt and iv together are the derived 12-byte IV; both blocks have the version, the kernel's number for the AEAD (51, 52 or 54) and the length of every field |
| KeyMaterial.KeyBlockAgreement | src/ktls/derive.rs:181-196 | the four parts tile the key block and the two endpoints see the same parts mirrored |
| KeyMaterial.DerivesExactlyWhen | src/ktls/derive.rs:109-139 | derivation succeeds exactly when both traffic secrets have the length of the negotiated hash and all four expansions work, or for TLS 1.2 when libssl gives a key block; a secret of another length never reaches the kernel |
| KeyMaterial.BuildHkdfInfo | src/ktls/derive.rs:59-71 | the info bytes parse back to the length, the prefixed label and an empty context |
| KeyMaterial.HkdfLabelInjective | src/ktls/derive.rs:59-71 | two different derivations never share an info string |
| KeyMaterial.LabelsAreSpelled | src/ktls/derive.rs:53-62 | the labels are the ASCII of their names |
| KeyMaterial.BigEndianRoundTrip | src/ktls/derive.rs:63-66 | big-endian fields read back as the number written |
| Handoff.GapFreeHandoff | src/ktls/mod.rs:225-239 | in every run whose switch is made with nothing pending and libssl's own number, however records coalesce and wherever it happens, the caller has seen a prefix of the peer's plaintext, and no record is met off its boundary or under a wrong sequence number |
| Handoff.SwitchIsSeamlessExactlyWhenNothingPending | src/stream.rs:276-289 | the switch is gap-free if and only if libssl holds nothing buffered, and then under no other number |
| Handoff.UnguardedSwitchCannotOpen | src/ktls/mod.rs:212-224 | a switch with transport bytes left in libssl, or under another number, ends at the first record the kernel meets |
| Switchover.InstallIsGapFree | src/stream.rs:272-305 | `try_auto_install_ktls` with libssl's answers: if it leaves a usable stream, every continuation is gap-free, in userspace or in the kernel with the very sequence number in the block it holds |
| Switchover.DerivedSeed | src/ktls/derive.rs:169-175 | the number the kernel reads out of the receive block is libssl's read sequence number, for every cipher |
| Handoff.StepStaysSeamless | src/ktls/derive.rs:169-175 | every pull, open, read, switch and kernel open keeps the stream without gap or repeat |
| Alpn.EncodeAlpnWire | src/config/mod.rs:63-74 | succeeds exactly when every identifier has 1 to 255 bytes, with the wire form of the list; otherwise the error of the first one that does not |
| Alpn.DecodeInvertsWire | src/config/mod.rs:45-58 | decoding inverts encoding |
| Alpn.DecodeIsLongestPrefix | src/config/mod.rs:45-58 | on arbitrary bytes exactly the longest well-formed prefix is read |
| Alpn.AlpnIter.Next | src/config/mod.rs:46-57 | yields the next decoded entry and always shortens the buffer, or stops for good |
| Alpn.AlpnSelect | src/config/server.rs:735-754 | the first server entry that the client offers, and none exactly when the decoded lists are disjoint; its length fits one byte |
| Alpn.ConfigureAndSelect | src/config/server.rs:707-755 | for a configured list: the first configured identifier offered by the client, never an empty one |
| CipherSuites.SplitForAwsLc | src/config/cipher_suite.rs:189-205 | the two strings are the per-version names joined by colons, absent when there are none |
| CipherSuites.SplitInvertsJoin | src/config/cipher_suite.rs:192-201 | splitting at the colons recovers the names in order |
| CipherSuites.SslCtx.ApplyToCtx | src/config/cipher_suite.rs:211-254 | bounds and prior options stay; an empty list changes nothing; success makes the context an allowlist; exactly which of the two lists is replaced when one is rejected |
| CipherSuites.AppliedIsAllowlist | src/config/cipher_suite.rs:207-210 | negotiable pairs are exactly the listed suites in versions enabled before, and each maps to a kTLS cipher |
| CipherSuites.SuitesAreTheOffloadableOnes | src/ktls/cipher.rs:53-89 | the mapping accepts exactly the crate's suites, and keeps their version, AEAD and key length |
| CipherSuites.SuiteIsItsParts | src/config/cipher_suite.rs:83-159 | each suite has its full AWS-LC name and its registered identifier, and no two suites share version, authentication and AEAD |

## Left out

- AWS-LC internals: handshake, AEAD, HKDF and PRF output and certificate checks appear only as arbitrary answers.
- System calls and FFI: pointer layouts, `unsafe` wrappers and the real `recvmsg`, `sendmsg` and `setsockopt` are not modelled, only their lengths, flags, types and results.
- TlsStream.TlsStream.KtlsPollWrite: signals come out of the same finite store as readiness events, because the source promises no bound on interrupted writes.
- RecordReader.Received: the diagnostic suffix that `recv_error` adds to messages is not modelled, only the kind.
- Trace.SslCode.Report: the operation name and error-queue text in messages are not modelled.
- Session.Session.SslWrite: a count is clamped to the offered length; a libssl that reports more is not modelled.
- Session.Session.PollClearReady: readiness is only reported while the store of events lasts.
- Session.Session.KernelAlert: a count is clamped to the two bytes offered; a kernel that reports more is not modelled.
- TlsStream.TlsStream.PollSslReady: a reactor that drains the slots during a poll is not in this class but in WakerProtocol; between polls it is `Fire` of StreamRuns.
- WakerProtocol: wakers of the kTLS paths are registered with Tokio directly and need no shared slot, so they are not part of the protocol.
- Handoff: the transmit direction is not modelled as a byte stream; its sequence number is covered by KeyMaterial.DirectionsAreRight.
- `drive_handshake`, connector and acceptor set-up: `drive_handshake` awaits readiness and calls `SSL_do_handshake` again until it is done; it keeps no state of its own, so there is nothing to preserve beyond what the retry loops of the polls show.
- PEM and DER loaders, named groups, client configuration, session snapshots, exporters and error formatting: linear calls and getters.
- The hyper adapters, examples, benches and the host probe: adapters and I/O.
