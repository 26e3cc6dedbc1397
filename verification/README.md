# Verified model of the Freizone server and client core

Freizone is an end-to-end encrypted messenger: a federating server (`internal/`,
`cmd/server`) and a client library (`pkg/`, `cmd/devclient`). This project models
the parts whose guarantees span several calls or a whole run, and proves them:

| file | what it models |
|---|---|
| `Collections.dfy` | shared: options and results, bytes, sequences without repeats, text order |
| `Rfc3339.dfy` | the text timestamps are stored as, and the order queries compare them by |
| `Gf2.dfy` | Go's bit operators on non-negative ints, and their GF(2) laws |
| `Bech32m.dfy`, `Bech32mVector.dfy` | the bech32m codec (BIP-173 section "Bech32", BIP-350 section "Bech32m"), and a test vector |
| `Address.dfy` | account and group ids: bit regrouping, derivation, normalization, display form |
| `Sessions.dfy`, `Rekey.dfy` | simultaneous X3DH session establishment between two clients, and a deliberate re-key |
| `Blobs.dfy`, `BlobLifecycle.dfy` | attachment rows, claims, quotas, files, sweeps and crashes |
| `GroupFacts.dfy` | a member's signed-fact set and the buffer of premature events |
| `AntiEntropy.dfy` | hash-driven reconciliation of two members |
| `GroupSend.dfy` | group fan-out, retries and the transcript |
| `SnapshotDebts.dfy` | who is owed a group's facts |
| `WakeCoalescer.dfy`, `Broker.dfy` | push-wake coalescing, live streams, and the notification of a queued message |
| `NonceCache.dfy` | replay protection: the sharded cache and the persistent table |
| `Dedup.dfy` | the handled-message window, its log, and the decrypt-failure counter |
| `Attest.dfy` | the attestation token codec |
| `SqlScanner.dfy` | the migration statement scanner |
| `Forecast.dfy` | the storage forecast |
| `MessageQueue.dfy` | the per-device message queue and its cap |

Code that updates state in place is a class (or a method with loops) proved equal
to a function on values; the laws are lemmas about that function, and a run is a
sequence of such steps in any order. `dafny verify dfyconfig.toml` checks it all.

Where a promise does not hold as the source's comments put it, the model follows
the code, a run or input on which it fails is exhibited, and the exact condition
is proved:

- the in-memory cache: a request is refused exactly while some record of its device
  and nonce is unexpired at the request's own clock reading and no purge or restart has
  taken it (`NonceCache.PassesExactly`). So, in one process, no pair is accepted again before
  `ts + MaxClockSkew`, while a restart lets a copy through at once
  (`NonceCache.RestartForgets`); and a second copy of a request passes if it was read at
  that very instant (`NonceCache.ClosingInstantPasses`), or was read earlier and recorded
  only after a purge at or past it (`NonceCache.StalledCopyPasses`, `NonceCache.LateCopyExactly`);
- the skew check accepts timestamps 2^63 nanoseconds or more ahead
  (`NonceCache.WithinSkewExactly`);
- stored timestamps sort like time up to year 9999, and beyond it by the four leading
  digits of the year (`Rfc3339.TextOrder`). So the nonce table forgets a record before
  its time exactly if its expiry lies past year 9999 and those digits are below the
  clock's year (`NonceCache.ForgottenEarlyExactly`, `NonceCache.FarFutureIsForgotten`);
  otherwise it is replay-free up to and including the closing instant, and after it for
  every copy not left waiting across a purge (`NonceCache.TableNeverReplays`,
  `NonceCache.TableStalledCopyPasses`);
- a blob's bytes go missing exactly if the orphan sweep found the file between its
  upload's rename and commit and went on to unlink it
  (`BlobLifecycle.BytesMissingExactly`, `BlobLifecycle.SweepInsideWindowLosesBytes`);
- a restart rebuilds the handled-message window exactly when no remembered id is empty
  or has an older copy left in the log (`Dedup.RestartRebuildsExactly`,
  `Dedup.RemarkedIdIsForgotten`);
- two consecutive wakes go out closer than a window exactly when the first overtook the
  device's overdue timer and the second is that timer firing before the window the first
  one opened is over (`WakeCoalescer.CloseSendsExactly`, `WakeCoalescer.OvertakenTimerSendsTwice`);
- a recipient's server sees a second wire id exactly when an attempt that had posted a copy
  under a new id was cut off before recording it and a later attempt posted
  (`GroupSend.WireIdReusedExactly`, `GroupSend.CutOffPostsTwice`); attempts that reach their
  end never cause one (`GroupSend.OneWireWithoutCutOffs`). A record without a wire id leaves
  the earlier id in place (pkg/client/messages.go:277-279), although the comment at
  pkg/client/messages.go:389-395 says it is replaced;
- every upload of prekeys replaces the signed prekey, so the envelope that establishes a
  session is readable exactly when its receiver uploaded none between the claim and the
  delivery; otherwise everything sent on that session is lost
  (`Sessions.PrekeyReadExactly`, `Sessions.EachMessageIsReadExactly`,
  `Sessions.UploadBetweenLosesTheSession`);
- a deliberate re-key wins at its receiver whatever the account ids, yet the two sides end up
  on it exactly if it arrives before the receiver's next upload and no establishment of the
  receiver arrives at a higher-id sender meanwhile (`Rekey.RekeyAgreesExactly`); where both
  agreed before, that cannot happen (`Rekey.RekeyReunites`), but a re-key made while the lower
  side's establishment is under way leaves them without a common session
  (`Rekey.CrossedRekeySeparates`);
- a message posted again under its id is answered as a repeat exactly if the first copy did
  not take the last place of the queue; else it is answered as a full queue, though it is
  there (`MessageQueue.ResendIsInert`);
- the measured inflow is the daily rate of a steady upload unless that falls on the snapshot's
  own second of the day, where the window counts it at both ends (`Forecast.SteadyRateExactly`);
- envelope-by-envelope delivery of group facts equals one batch exactly when every
  valid event past the 64 held ones arrives again (`GroupFacts.DeliveryEqualsBatchExactly`,
  `GroupFacts.SixtyFifthIsLost`);
- a decoded attestation can be encoded again exactly when its domain and tier are
  not empty, which decoding does not demand (`Attest.EncodeUndoesDecode`).

## Model

| member | source | states |
|---|---|---|
| `Bech32m.ComputePolymod` | pkg/address/bech32m.go:22-34 | the double loop computes the left fold of the checksum register |
| `Bech32m.StepLinear` | pkg/address/bech32m.go:24-34 | one register step is linear over GF(2) in register and symbol together |
| `Bech32m.StepKernel` | pkg/address/bech32m.go:24-34 | only the zero register is mapped to zero by a zero symbol: no register information is lost in a step |
| `Bech32m.StepInjective` | pkg/address/bech32m.go:24-34 | for a fixed symbol, different 30-bit registers stay different |
| `Bech32m.DifferenceSurvives` | pkg/address/bech32m.go:22-34 | registers that differ keep differing after any number of common symbols |
| `Bech32m.WindowGap` | pkg/address/bech32m.go:22-34 | from one register, two windows of at most six symbols collide only if equal |
| `Bech32m.BurstChangesPolymod` | pkg/address/bech32m.go:22-34 | any change inside six consecutive symbols changes the register, whatever surrounds it |
| `Bech32m.ExpandHrp` | pkg/address/bech32m.go:38-48 | high parts, a zero, low parts of the human-readable part; RelabelDetected says that each of them counts |
| `Bech32m.CheckChecksum` | pkg/address/bech32m.go:52-55 | accepts exactly when the register ends on the bech32m constant |
| `Bech32m.ComputeChecksum` | pkg/address/bech32m.go:58-67 | the six checksum symbols, characterised by ChecksumUnique |
| `Bech32m.ChecksumUnique` | pkg/address/bech32m.go:52-67 | of all six-symbol suffixes exactly the computed one verifies |
| `Bech32m.BurstDetected` | pkg/address/bech32m.go:22-67 | verifying data of any length stops verifying under any nonzero error confined to six consecutive symbols |
| `Bech32m.SubstitutionDetected` | pkg/address/bech32m.go:22-67 | any single substitution is detected |
| `Bech32m.AdjacentSwapDetected` | pkg/address/bech32m.go:22-67 | any swap of two different neighbours is detected |
| `Bech32m.ExpansionBurstDetected` | pkg/address/bech32m.go:38-55 | data that verifies under one human-readable part verifies under no other whose expansion differs from it within six consecutive places only |
| `Bech32m.RelabelDetected` | pkg/address/bech32m.go:38-55 | so no re-labelling that changes the low parts, or the high parts, of at most six consecutive characters verifies |
| `Bech32mVector.ShortestVector` | pkg/address/bech32m.go:101-140 | the shortest valid string of BIP-350, "a1lqfn3a", decodes to "a" and no data |
| `Bech32m.EncodeBech32m` | pkg/address/bech32m.go:71-97 | the loop renders hrp, separator, data and checksum, or the source's error |
| `Bech32m.DecodeBech32m` | pkg/address/bech32m.go:101-140 | length, mixed case, separator, hrp character, data character and checksum checks, in the source's order |
| `Bech32m.DecodeUndoesEncode` | pkg/address/bech32m.go:71-140 | decoding gives back hrp and data if and only if the hrp is nonempty and has no upper-case letter |
| `Bech32m.EncodeUndoesDecode` | pkg/address/bech32m.go:71-140 | re-encoding anything that decodes gives its lower-case form |
| `Bech32m.EncodesExactly` | pkg/address/bech32m.go:71-97 | encoding succeeds exactly for a printable hrp, symbols in range and at most 90 characters |
| `Bech32m.DecodesExactly` | pkg/address/bech32m.go:101-140 | text decodes to a result exactly if it is in one letter case and that result encodes to its lower-case form |
| `Bech32m.CaseExactly` | pkg/address/bech32m.go:101-112 | upper-case text decodes like its lower-case form; mixed case is refused exactly if letters of both occur |
| `Address.LeadingBitGroups` | pkg/address/address.go:218-237 | for every data, count and group size, the result is the most-significant-first bit fields, as many as asked for or as the data holds |
| `Address.DeriveIDVersion` | pkg/address/address.go:53-77 | version range and key size errors, else version marker, fourteen leading 5-bit fields of the digest, checksum |
| `Address.DerivedCharacters` | pkg/address/address.go:53-77 | character 0 of a derived id is the version, characters 1 to 14 the consecutive 5-bit fields of the digest |
| `Address.DerivedIdsEqualExactly` | pkg/address/address.go:53-77 | two derived ids are equal exactly if their versions are and their digests agree in the leading 70 bits |
| `Address.DeriveExactly` | pkg/address/address.go:53-61 | an id is derived exactly for a version below 32 and a 32-byte key, the version looked at first |
| `Address.MarkerExactly` | pkg/address/address.go:130-140 | the version marker is the charset index of the first character that is no separator, if it has one |
| `Address.GroupedExactly` | pkg/address/address.go:202-211 | where each character and each hyphen of the display form stands, and that there is nothing else |
| `Address.StripSeparators` | pkg/address/address.go:146-156 | the loop removes separators and lower-cases the rest |
| `Address.FormatForDisplay` | pkg/address/address.go:202-211 | a hyphen before every fifth character |
| `Address.Normalize` | pkg/address/address.go:173-194 | length, charset and checksum errors in order, else the stripped id |
| `Address.DerivedIdIsCanonical` | pkg/address/address.go:53-211 | every derived id normalizes to itself, survives the display form, and reports its version |
| `Address.AccountIsNeverGroup` | pkg/address/address.go:53-77 | no account id equals a group id, for any keys and digests |
| `Address.IdTypoDetected` | pkg/address/address.go:173-194 | two different valid ids differ outside any window of six characters |
| `Sessions.ClientState.UploadPrekeys` | cmd/devclient/prekeys.go:27-112 | new one-time prekeys are added to the old ones; the new signed prekey takes the place of the old |
| `Sessions.ClientState.GetOrCreateSession` | cmd/devclient/session.go:36-62 | the held session, or a new initiating one with its prekey block, or the claim's failure or the lack of own keys with nothing changed |
| `Sessions.ClientState.RespondToNewSession` | cmd/devclient/session.go:64-92 | the responder's derivation from its current signed prekey, spending the one-time prekey it uses; nothing changes without own keys or on a malformed block |
| `Sessions.ClientState.DecryptIncoming` | cmd/devclient/session.go:97-176 | new state and result of one envelope: re-key, tie-break, inbound session, error order |
| `Sessions.BlockAdoptedExactly` | cmd/devclient/session.go:131-149 | for every client and sender, a readable prekey block becomes the sending session exactly if it says re-key, or there was none, or the sender's id is lower; else it is kept for reading, and nobody else's session changes |
| `Sessions.ReadExactly` | cmd/devclient/session.go:97-176 | for every client, sender and envelope: when it is read, which error it gives otherwise, and which one-time prekey it spends |
| `Collections.LessIsStrictOrder` | cmd/devclient/session.go:97-176 | the account-id comparison never lets both sides win, nor neither |
| `Sessions.RedeliveredPrekeyIsHarmless` | cmd/devclient/session.go:64-176 | a prekey envelope that is readable and names a one-time prekey still held: delivering it twice reads it twice and changes nothing the second time |
| `Sessions.HeadDecrypts` | cmd/devclient/session.go:97-176 | in every state of the protocol, what arrives next is readable exactly if its prekey block is not outdated and it is not on a session whose prekey block was |
| `Sessions.StepKeeps` | cmd/devclient/session.go:36-176 | every send, delivery, upload of prekeys with its new signed prekey, and foreign claim keeps the two-party invariant |
| `Sessions.EachMessageIsReadExactly` | cmd/devclient/session.go:36-176 | in every interleaving each side has read what the other sent, in order, except what is in flight and, if its prekey block came outdated, exactly what was sent on that session |
| `Sessions.EveryDeliveredMessageDecrypts` | cmd/devclient/session.go:36-176 | in every interleaving, everything delivered from a side whose prekey block did not come outdated was read |
| `Sessions.PrekeyReadExactly` | cmd/devclient/prekeys.go:27-112 | in every run a prekey envelope is read on arrival exactly if the receiver uploaded no prekeys since it was claimed for |
| `Sessions.UploadBetweenLosesTheSession` | cmd/devclient/prekeys.go:27-112 | a run with such an upload, after which the envelope cannot be read |
| `Sessions.SessionsConverge` | cmd/devclient/session.go:97-176 | once the prekey envelopes are processed, both send on one session exactly if the winner's block did not come outdated, and it is the winner's: the lower account id if it initiated |
| `Sessions.ConvergenceIsFinal` | cmd/devclient/session.go:97-176 | no later step moves either side off it |
| `Rekey.RekeyAgreesExactly` | pkg/client/send.go:381-432 | over every run with one deliberate re-key by either side at any time, both send on its session exactly if it was delivered before the peer uploaded again and no establishment of the peer overtook it |
| `Rekey.RekeyReunites` | pkg/client/send.go:381-432 | from every state in which both agree, a re-key brings both onto the new session exactly if it is delivered before the peer's next upload, and no later step undoes that |
| `Rekey.CrossedRekeySeparates` | cmd/devclient/session.go:131-149 | a run in which the higher side re-keys while the lower one's establishment is under way, after which they share no session |
| `Rekey.AgreedIsRead` | cmd/devclient/session.go:160-170 | whatever arrives on the session both send on is read |
| `Blobs.BlobTable.BlobUsage` | internal/store/blobs.go:142-154 | count and bytes of the blobs a device holds a claim on |
| `Blobs.BlobTable.TotalBlobBytes` | internal/store/blobs.go:111-118 | the sum over all rows, each once |
| `Blobs.BlobTable.CreateBlob` | internal/store/blobs.go:39-64 | row and all claims, or nothing |
| `Blobs.BlobTable.CreateBlobWithQuota` | internal/store/blobs.go:82-104 | exactly the candidates whose quota still has room are stored, the rest refused, in order |
| `Blobs.BlobTable.RecordBlobWithQuota` | internal/api/blobs.go:384-409 | the same under the server-wide cap, in one transaction |
| `Blobs.BlobTable.DeleteBlobForDevice` | internal/store/blobs.go:164-194 | the claim goes; the row goes with the last claim; ClaimLeavesExactly and RowLeavesExactly say so of every step |
| `Blobs.RecordKeepsCaps` | internal/api/blobs.go:384-409 | however stale the pre-flight answers, a commit keeps every device's count and bytes and the total within their caps |
| `Blobs.RecordExactly` | internal/store/blobs.go:82-104 | for a new id and distinct existing candidates, exactly those with room in count and bytes are claimed for, unless the server-wide cap refuses the upload |
| `Blobs.RecordFailsExactly` | internal/store/blobs.go:39-64 | a commit fails, with nothing changed, exactly for a taken id, an unknown device or one named twice |
| `Blobs.ParseRecipients` | internal/api/blobs.go:313-339 | distinct recipients, refused exactly for an empty list, an empty name or too many |
| `Blobs.ClaimCommitted` | internal/api/blobs.go:223-272 | a committed upload claims exactly the candidates not refused |
| `Blobs.FinishUpload` | internal/api/blobs.go:157-284 | a recipient is reported stored exactly when its claim was committed; the file stays exactly when a row did; a body too large, with the wrong digest or not written changes nothing |
| `BlobLifecycle.StepKeeps` | cmd/server/main.go:404-502 | every step of uploads, deletes, sweeps and crashes keeps the invariant, orphan checks at any time included |
| `BlobLifecycle.StepKeepsCaps` | internal/api/blobs.go:384-409 | every step keeps the storage caps |
| `BlobLifecycle.Run` | internal/api/blobs.go:157-409 | in every run every cap holds |
| `BlobLifecycle.ClaimLeavesExactly` | internal/store/blobs.go:164-194 | in any step a claim leaves exactly if its own device deletes it, its device is removed, or a sweep that unlinked the file drops the row |
| `BlobLifecycle.ClaimComesExactly` | internal/api/blobs.go:384-409 | a claim comes exactly with the commit of an upload that stored for its device |
| `BlobLifecycle.RowLeavesExactly` | internal/store/blobs.go:164-194 | a row leaves exactly with its last deleted claim, its file then handed over to be unlinked, or with such a sweep, and is never altered |
| `BlobLifecycle.ClaimsNeverDangle` | internal/store/migrations/0013_multi_recipient_blobs.sql:37-46 | in every run each claim is an existing device's on an existing row |
| `BlobLifecycle.DevicesExactly` | internal/store/migrations/0013_multi_recipient_blobs.sql:37-46 | a device exists exactly from its registration to its removal |
| `BlobLifecycle.FailedUploadLeavesNothing` | internal/blobstore/blobstore.go:81-136 | an upload whose body could not be written, or whose process ended first, leaves neither row nor file in any continuation |
| `BlobLifecycle.PassCollectsExactly` | cmd/server/main.go:404-457 | a cleanup pass over a blob takes row, claims and file exactly if the row is expired, or unclaimed, as the pass asks |
| `BlobLifecycle.RowOutlivesItsFile` | cmd/server/main.go:411-427 | where the unlink fails the row stays, and after a crash nothing is unlinked or dropped without being listed again |
| `BlobLifecycle.ClaimStays` | internal/store/blobs.go:164-194 | over any continuation an unexpired claim and its row stay until that recipient gives the claim up |
| `BlobLifecycle.StrandedExactly` | cmd/server/main.go:481-502 | in every run a file is stranded exactly by a crash or a failed unlink, and until a sweep that has found it unlinks it |
| `BlobLifecycle.BytesMissingExactly` | cmd/server/main.go:481-502 | in every run, an unexpired row with a recipient lacks its file exactly if a sweep found the file inside its upload's window and unlinked it with no crash between |
| `BlobLifecycle.BytesStayBehindRows` | internal/blobstore/blobstore.go:81-136 | in every run whose orphan checks avoid the rename-to-commit window, every unexpired row with a recipient has its file |
| `BlobLifecycle.SweepInsideWindowLosesBytes` | cmd/server/main.go:481-502 | a run of six steps from an empty server that loses a live blob's bytes |
| `GroupFacts.ApplyBatch` | pkg/group/state.go:102-173 | genesis first: with a genesis everything valid is admitted, without one every other event is rejected as premature |
| `GroupFacts.HoldPremature` | pkg/client/groups.go:485-506 | the first 64 events rejected only for the missing genesis |
| `GroupFacts.GroupStore.ApplyGroupControl` | pkg/client/groups.go:316-379 | one control envelope: held and new events admitted together, or held |
| `GroupFacts.ReceiveShape` | pkg/client/groups.go:316-506 | what a member holds after any envelopes: the first 64 premature events, and everything timely |
| `GroupFacts.EverythingArrived` | pkg/client/groups.go:316-506 | premature and timely events together are all valid events |
| `GroupFacts.DeliveryEqualsBatchExactly` | pkg/client/groups.go:316-506 | delivery equals one batch exactly when each valid event past the bound arrived again in time |
| `GroupFacts.NothingLost` | pkg/client/groups.go:485-506 | with at most 64 premature events, delivery gives every valid event |
| `GroupFacts.OrderDoesNotMatter` | pkg/client/groups.go:316-506 | then any two orders of the same envelopes give the same facts |
| `GroupFacts.SixtyFifthIsLost` | pkg/client/groups.go:485-506 | of 65 valid events before the genesis the last is lost, though one batch admits it |
| `AntiEntropy.StepKeeps` | pkg/client/groupsend.go:915-952 | every statement, new fact and delivery keeps the two-member invariant |
| `AntiEntropy.EachHashAnsweredOnce` | pkg/client/groups.go:153-166 | in every run each member answers any one hash of the other at most once |
| `AntiEntropy.NothingInventedOrLost` | pkg/client/groupsend.go:883-952 | together the two members hold exactly the initial and minted facts |
| `AntiEntropy.QuietMeansUnion` | pkg/client/groupsend.go:915-952 | once anything was said and nothing is under way, both hold the union |
| `AntiEntropy.ChainIsShort` | pkg/client/groups.go:153-166 | answered hashes form a chain no longer than the facts allow |
| `AntiEntropy.DeliveriesFallSilent` | pkg/client/groupsend.go:915-952 | each delivery uses up one unit of a non-negative budget |
| `AntiEntropy.ExchangeEnds` | pkg/client/groupsend.go:915-952 | from every reachable state, deliveries alone end within the budget, in any order |
| `AntiEntropy.EveryDrainReachesTheUnion` | pkg/client/groupsend.go:915-952 | from every reachable state in which something was said, every way of delivering until nothing is left ends within the budget with both holding every fact |
| `AntiEntropy.OneStatementReconciles` | pkg/client/groupsend.go:915-952 | from every reachable state, one statement by either member and any complete delivery end with both holding every fact |
| `AntiEntropy.AnswersExactly` | pkg/client/groupsend.go:915-952 | a delivery is answered, with the whole view, exactly if the hash differs from the folded view and is not the last one answered |
| `AntiEntropy.AgreementIsSilent` | pkg/client/groupsend.go:925-937 | members in agreement answer nothing over any statements and deliveries |
| `GroupSend.GroupLine.AttemptFanOut` | pkg/client/groupsend.go:474-577 | the records one attempt leaves and the copies it posts |
| `GroupSend.GroupLine.SelectTargets` | pkg/client/groupsend.go:235-266 | whom a retry addresses, and which records it settles |
| `GroupSend.GroupLine.RecordDeliveries` | pkg/client/messages.go:266-281 | the records after the outcomes are read back over them: new states, and a new wire id only where one was recorded |
| `GroupSend.GroupLine.SendFirst` | pkg/client/groupsend.go:135-166 | the first fan-out, with no prior wire ids: records, state and copies posted |
| `GroupSend.GroupLine.RetryGroupMessage` | pkg/client/groupsend.go:194-376 | refused while sending; else the merged records, the new state and the copies posted |
| `GroupSend.GroupLine.FailInFlightSends` | pkg/client/messages.go:661-698 | opening the account turns what was pending into failed and keeps every wire id |
| `GroupSend.RetryRecord` | pkg/client/groupsend.go:194-376 | a retry, complete or cut off, acts on each recipient's record separately, by its fate, and never erases a wire id |
| `GroupSend.OneLinePerMessage` | pkg/client/groups.go:687-746 | over every run of attempts, cut-offs, lost answers, arrivals and redeliveries a transcript holds the message at most once |
| `GroupSend.FiledExactly` | pkg/client/groups.go:687-746 | over every run a transcript holds the message once if the account handled a copy of it from its queue, or filed that id otherwise, and else not at all |
| `GroupSend.LinesKeepTheirOrder` | pkg/client/groups.go:687-746 | over any continuation the lines filed stay where they are |
| `GroupSend.PostedCopyIsRead` | pkg/client/groups.go:687-746 | any copy ever posted that arrives and is handled has its line, and a second copy changes nothing |
| `GroupSend.OnlyOwedMembersArePostedTo` | pkg/client/groupsend.go:235-266 | over every run each post went to an original recipient, joined when the message was composed or, on a retry, at that time, and not recorded as sent |
| `GroupSend.WireIdReusedExactly` | pkg/client/groupsend.go:474-577 | over every run a recipient sees two wire ids exactly if an attempt that had posted it a copy under a new id was cut off before recording it and a later attempt posted |
| `GroupSend.OneWireWithoutCutOffs` | pkg/client/groupsend.go:474-577 | attempts that reach their end never post under a second wire id, whatever fails to prepare, post or answer |
| `GroupSend.CutOffPostsTwice` | pkg/client/messages.go:661-698 | a first attempt cut off after its post, a reopen and a retry: one copy under each of two ids |
| `GroupSend.AtMostOneCopyQueued` | pkg/client/groupsend.go:194-376 | without such a post after a cut-off a recipient's server queue never holds two copies of the message |
| `GroupSend.SentMeansPostedOrLeft` | pkg/client/groupsend.go:235-266 | over every run a record says sent only if a copy was posted to the member or an attempt found it no longer joined |
| `GroupSend.AttemptStateExactly` | pkg/client/groupsend.go:147-161 | after a complete attempt the message is sent exactly if some copy is or a retry found nobody to send to, and is never left sending |
| `GroupSend.TargetsExactly` | pkg/client/groupsend.go:194-266 | whom the first attempt and every later one address, also after a failed upload or a reopen |
| `GroupSend.CutOffExactly` | pkg/client/groupsend.go:335-349 | a cut-off attempt posts like a complete one, and leaves the message sending unless marked, to be failed by the next reopen |
| `GroupSend.ReopenExactly` | pkg/client/messages.go:661-698 | opening the account fails exactly what was pending and keeps every other state and every wire id |
| `GroupSend.CompleteIsRetry` | pkg/client/groupsend.go:194-376 | a complete later attempt of a run is one call of RetryGroupMessage |
| `GroupSend.CompleteIsFirst` | pkg/client/groupsend.go:135-166 | a complete first attempt is the fan-out of the call that composed the message |
| `SnapshotDebts.GroupPeers.SendGroupControl` | pkg/client/groupsend.go:1432-1458 | a control post succeeds or leaves nothing |
| `SnapshotDebts.GroupPeers.BroadcastGroupEvents` | pkg/client/groupsend.go:847-876 | every member not skipped was posted to or is owed a snapshot |
| `SnapshotDebts.GroupPeers.SendGroupSnapshot` | pkg/client/groupsend.go:883-905 | a successful snapshot clears the debt, a failed one does not |
| `SnapshotDebts.GroupPeers.MarkGroupHashAnswered` | pkg/client/groups.go:153-166 | whether the hash was the last one answered, and the new record |
| `SnapshotDebts.GroupPeers.ReconcileGroup` | pkg/client/groupsend.go:915-952 | when it answers, and that an answering call posts the snapshot or records the debt; without facts it changes nothing |
| `SnapshotDebts.GroupPeers.ForgetGroup` | pkg/client/groups.go:285-299 | facts, debts and answered hashes of the group go |
| `SnapshotDebts.GroupPeers.PayGroupSnapshotDebts` | pkg/client/groupsend.go:1086-1146 | the debts left, how many were paid, and exactly which accounts are reported gone |
| `SnapshotDebts.BroadcastCovers` | pkg/client/groupsend.go:847-876 | nobody due a fact is forgotten, and no debt is dropped |
| `SnapshotDebts.DebtStepExactly` | pkg/client/groupsend.go:847-1146 | in every kind of step, who is owed afterwards and who was posted what, exactly |
| `SnapshotDebts.AnsweredExactly` | pkg/client/groups.go:153-166 | the answered hash of a peer changes exactly when it states a foreign one, or with the group |
| `SnapshotDebts.ListedExactly` | pkg/client/groups.go:285-299 | only a membership change or forgetting the group changes who is listed |
| `SnapshotDebts.DebtOpenExactly` | pkg/client/groupsend.go:847-1146 | over any run from a client that owes nothing, a debt is open exactly if it was incurred and not cleared since |
| `SnapshotDebts.StepDischarges` | pkg/client/groups.go:128-149 | in one step a debt goes only by a snapshot, by the member being off the list, by the account being gone, or by forgetting the group |
| `SnapshotDebts.DebtsAreConserved` | pkg/client/groupsend.go:847-1146 | over any run a debt that is gone went in such a step |
| `SnapshotDebts.PayingSettlesReachable` | pkg/client/groupsend.go:1086-1146 | paying leaves an account owed only if it is listed, unreachable and not gone |
| `WakeCoalescer.Coalescer.Wake` | internal/api/wakecoalesce.go:74-103 | send now, ride along or arm, and the new window |
| `WakeCoalescer.Coalescer.Fire` | internal/api/wakecoalesce.go:107-119 | a timer sends exactly if its wake is still pending |
| `WakeCoalescer.Coalescer.Flush` | internal/api/wakecoalesce.go:126-140 | every pending device once, and only the flags change |
| `WakeCoalescer.Coalescer.EvictIdle` | internal/api/wakecoalesce.go:147-156 | only idle entries go |
| `WakeCoalescer.FlushSendsExactly` | internal/api/wakecoalesce.go:126-140 | a flush sends to exactly the pending devices; a second one, or a timer after it, sends nothing |
| `WakeCoalescer.EvictKeepsExactly` | internal/api/wakecoalesce.go:147-156 | an eviction keeps exactly the devices that are pending or whose window is not over |
| `WakeCoalescer.ZeroWindowKeepsNothing` | internal/api/wakecoalesce.go:74-78 | with a window of zero every wake of every run is sent at once and no state is kept |
| `WakeCoalescer.ArmedAlways` | internal/api/wakecoalesce.go:74-156 | in every run whoever is pending has an outstanding timer |
| `WakeCoalescer.EveryWakeSendsOrIsArmed` | internal/api/wakecoalesce.go:74-119 | each wake sends at once or is pending with a timer that sends when it fires |
| `WakeCoalescer.PendingEndsOnlyInASend` | internal/api/wakecoalesce.go:74-140 | no pending wake is lost in any continuation |
| `WakeCoalescer.ThreeSendsSpanAWindow` | internal/api/wakecoalesce.go:74-119 | without flush any three consecutive sends span a window |
| `WakeCoalescer.TwoSendsSpanAWindow` | internal/api/wakecoalesce.go:74-119 | any two do if no wake of the device overtakes its overdue timer |
| `WakeCoalescer.CloseSendsExactly` | internal/api/wakecoalesce.go:74-119 | in every run without flush, consecutive sends come closer than a window exactly when the first is a wake that overtook the device's timer and the second is that timer firing before nextAllowed |
| `WakeCoalescer.OvertakenTimerSendsTwice` | internal/api/wakecoalesce.go:74-119 | a run with such an overtaking wake and the timer firing any time later |
| `WakeCoalescer.EvictionIsUnobservable` | internal/api/wakecoalesce.go:147-156 | runs with and without eviction send the same wakes at the same times |
| `Broker.MessageBroker.SubscribeStream` | internal/api/broker.go:36-45 | a new channel under the cap, else a refusal with nothing changed |
| `Broker.MessageBroker.UnsubscribeStream` | internal/api/broker.go:47-62 | the channel leaves its device's list and is closed |
| `Broker.MessageBroker.PublishMessage` | internal/api/broker.go:102-113 | every stream with room takes the message, none is closed, and the answer says whether one did |
| `Broker.RunKeeps` | internal/api/broker.go:36-113 | in every run each device is within its stream cap and every subscribed channel is open |
| `Broker.ClosedChannelsAreSilent` | internal/api/broker.go:47-113 | a closed channel never receives anything again |
| `Broker.EveryMessageIsAnnounced` | internal/api/messages.go:266-285 | in every run a queued message enters a live buffer, or its wake is sent or armed |
| `Broker.SubscribedExactly` | internal/api/broker.go:36-62 | a channel is its device's exactly from the open granted under the cap to the close that names it |
| `Broker.WakesOnlyTheAbsent` | internal/api/messages.go:266-285 | a notification asks for a wake exactly if no stream of the device has room |
| `Broker.WakesAreARun` | internal/api/messages.go:266-285 | the wakes of every run are a run of the coalescer, one wake for each message no stream could take |
| `Broker.StreamsAreFifo` | internal/api/broker.go:102-113 | in every run a stream writes out exactly what it was handed, in order, each once |
| `NonceCache.HashDevice` | internal/auth/nonce_cache.go:38-42 | FNV-1a on 32 bits |
| `NonceCache.Cache.Record` | internal/auth/nonce_cache.go:54-64 | refused exactly for an unexpired record; else recorded |
| `NonceCache.Cache.PurgeExpired` | internal/auth/nonce_cache.go:69-83 | exactly the expired records go from all shards, and are counted |
| `NonceCache.Cache.Authenticate` | internal/auth/middleware.go:114-175 | the verdict, and that the nonce is spent exactly when skew, signature and nonce pass, for a clock reading made any time before the record |
| `NonceCache.WithinSkewExactly` | pkg/httpsig/signature.go:149-155 | when the saturating int64 check passes |
| `NonceCache.KeyInjective` | internal/auth/nonce_cache.go:44-46 | keys identify (device, nonce) for NUL-free device ids |
| `NonceCache.NulMakesPairsCollide` | internal/auth/nonce_cache.go:38-46 | with a NUL two pairs share shard and key, so the condition is needed |
| `NonceCache.AnswerIsHistory` | internal/auth/nonce_cache.go:54-83 | in every run, for every reading, the answer is given by what was recorded, purged and lost in a restart before |
| `NonceCache.PassesExactly` | internal/auth/middleware.go:120-167 | for NUL-free ids an admitted request passes exactly when every record of its device and nonce had expired at its reading or was taken by a purge or a restart since |
| `NonceCache.NoReplayBeforeExpiry` | internal/auth/middleware.go:120-167 | in every run a pair is accepted again before the first request's ts plus skew only after a restart; a second copy of one request was read at that instant, or a purge or a restart fell between |
| `NonceCache.LateCopyExactly` | internal/auth/middleware.go:120-167 | a waiting copy of the one accepted request passes exactly if it was read at the closing instant or a purge or a restart has taken the record |
| `NonceCache.StalledCopyPasses` | internal/auth/middleware.go:120-167 | a run in which a copy that waits out a purge is accepted any time after expiry |
| `NonceCache.ClosingInstantPasses` | internal/auth/nonce_cache.go:54-64 | a run in which a copy read at the closing instant is accepted |
| `NonceCache.RestartForgets` | internal/auth/nonce_cache.go:15-24 | a run in which a copy is accepted right after a restart |
| `NonceCache.RestartExactly` | internal/auth/nonce_cache.go:15-24 | a restart loses every record and waiting request of the cache; the table keeps its records |
| `NonceCache.RefinesOneMap` | internal/auth/nonce_cache.go:38-83 | for NUL-free ids the shards hold and answer exactly what one map over pairs does, over every run |
| `Rfc3339.TextOrder` | internal/store/accounts.go:268-270 | against a clock up to year 9999 the text order is time order for instants up to year 9999, and past it compares the four leading digits of the year |
| `NonceCache.NonceTable.RecordNonce` | internal/store/nonces.go:21-34 | inserted exactly if absent |
| `NonceCache.NonceTable.PurgeExpiredNonces` | internal/store/nonces.go:39-45 | rows go exactly when the text of their expiry sorts before the clock's |
| `NonceCache.TableAnswerIsHistory` | internal/store/nonces.go:21-45 | in every run, under any order of the columns, a pair is refused exactly while some acceptance of it has not been dropped by a later purge |
| `NonceCache.PurgedEarlyExactly` | internal/store/nonces.go:39-45 | a purge drops an unexpired row exactly if its expiry is past year 9999 and that year's four leading digits are below the clock's year |
| `NonceCache.ForgottenEarlyExactly` | internal/store/nonces.go:21-45 | in every run, up to its closing instant an acceptance is forgotten exactly if such a purge came after it |
| `NonceCache.TableNeverReplays` | internal/store/nonces.go:21-45 | in every run with clock and expiry before year 10000, a pair is not accepted again up to and including the closing instant, and a copy of the same request only if read no later than it |
| `NonceCache.FarFutureIsForgotten` | internal/store/nonces.go:21-45 | a run in 2026 that accepts a request stamped 10000-01-01 twice at one instant |
| `NonceCache.TableStalledCopyPasses` | internal/api/federation_sender.go:125-175 | a run in which a copy that waits out a purge is accepted |
| `Dedup.Client.LoadProcessed` | pkg/client/dedup.go:31-64 | first appearances, evicted and compacted |
| `Dedup.Client.EvictProcessed` | pkg/client/dedup.go:67-76 | the last 500 stay, set and order in step |
| `Dedup.Client.CompactProcessed` | pkg/client/dedup.go:79-96 | the log becomes the window |
| `Dedup.Client.WasMessageProcessed` | pkg/client/dedup.go:109-113 | membership in the window |
| `Dedup.Client.MarkMessageProcessed` | pkg/client/dedup.go:121-150 | window, log and failure record after a mark |
| `Dedup.Client.SaveFailures` | pkg/client/dedup.go:187-202 | the order list keeps the entries that still exist |
| `Dedup.Client.RecordDecryptFailure` | pkg/client/dedup.go:216-245 | when to give up, and the bounded record left |
| `Dedup.ReadBack` | pkg/client/dedup.go:41-64 | reading the log back gives the memory exactly when no remembered id is empty or has an older copy |
| `Dedup.UsableExactly` | pkg/client/dedup.go:41-55 | every line of the log but the blank ones counts towards compaction |
| `Dedup.MemoryIsWindow` | pkg/client/dedup.go:66-150 | over every such run, restarts included, memory is the last 500 accepted ids, all distinct |
| `Dedup.RestartRebuildsExactly` | pkg/client/dedup.go:31-64 | the same for a restart after any run |
| `Dedup.RemarkedIdIsForgotten` | pkg/client/dedup.go:41-64 | a run that marks an id, 500 others and the id again, after which the restart forgets it |
| `Dedup.WritesAreLinear` | pkg/client/dedup.go:79-150 | over every run n marks write at most 2n lines, compactions and restarts included |
| `Dedup.ThirdFailureGivesUp` | pkg/client/dedup.go:216-245 | while at most 500 ids fail, the counter is the failures since the last success or give-up |
| `Attest.SigningBytes` | pkg/attest/attest.go:317-346 | the layout, or the first length error |
| `Attest.Encode` | pkg/attest/attest.go:225-237 | layout and signature, exactly for encodable attestations |
| `Attest.Decode` | pkg/attest/attest.go:242-307 | the reader's step-by-step parse, characterised by the lemmas below |
| `Attest.DecodeUndoesEncode` | pkg/attest/attest.go:225-307 | for both versions; version 1 loses only its seats |
| `Attest.EncodeUndoesDecode` | pkg/attest/attest.go:242-346 | a token is the encoding of what it decodes to; it can be encoded again exactly if domain and tier are nonempty |
| `Attest.TokensAreSelfDelimiting` | pkg/attest/attest.go:292-294 | no extension and no strict prefix of a token that decodes decodes |
| `Attest.SigningBytesPrefixFree` | pkg/attest/attest.go:317-346 | signed bytes extend one another exactly when equal, exactly for the same signed content, across versions |
| `SqlScanner.Jump` | internal/store/migrate.go:151-180 | a jump lands where the automaton is back in code, with no cut skipped |
| `SqlScanner.SplitStatements` | internal/store/migrate.go:146-196 | the jumping scanner equals the character automaton, for every script |
| `SqlScanner.TrimEmptyExactly` | internal/store/migrate.go:183-194 | a piece is dropped exactly when it is white space |
| `SqlScanner.TrimExactly` | internal/store/migrate.go:183-194 | trimming takes all the white space at both ends and nothing else |
| `SqlScanner.StatementsExactly` | internal/store/migrate.go:146-196 | for every script the statements are exactly the pieces between cuts that are not blank, in order and trimmed |
| `SqlScanner.CutsExactly` | internal/store/migrate.go:182-187 | cuts are exactly the semicolons in code, in order |
| `SqlScanner.PiecesLieBetweenCuts` | internal/store/migrate.go:182-195 | each piece is the text between two cuts |
| `SqlScanner.PiecesJoinToScript` | internal/store/migrate.go:146-196 | the pieces joined by semicolons give the script back |
| `SqlScanner.DoubledQuotesNeedNoCase` | internal/store/migrate.go:172-180 | SQL's doubled-quote rule cuts at the same semicolons |
| `Forecast.GroupingIsExact` | internal/store/stats.go:182-206 | daily buckets ascend and lose nothing |
| `Forecast.BytesStillStoredOn` | internal/api/stats.go:142-151 | the bytes in buckets of that date or later |
| `Forecast.StorageForecast` | internal/api/stats.go:70-135 | absent exactly without retention; else every point of both curves |
| `Forecast.ProjectionShape` | internal/api/stats.go:99-135 | drain starts at the total, never rises, is zero at the horizon; with inflow it ends on the equilibrium |
| `Forecast.DrainIsWhatSweepsLeave` | internal/api/stats.go:137-151 | each later point is what an expiry sweep at the start of that day leaves |
| `Forecast.InflowIsSteadyUploads` | internal/api/stats.go:111-124 | the projection is the drain of the table that gains the daily rate each day |
| `Forecast.WindowIsUnexpired` | internal/api/stats.go:82-91 | nothing created in the inflow window has expired, for any retention of at least a day |
| `Forecast.WindowExactly` | internal/api/stats.go:82-91 | the inflow window is the longest of at most seven days that fits twice into the retention, or one day |
| `Forecast.SteadyRateExactly` | internal/api/stats.go:92-97 | a steady daily upload is measured as its rate, unless it falls on the snapshot's own second of the day and is counted at both ends of the window |
| `Forecast.SweepKeepsTheRate` | internal/store/stats.go:208-223 | so a sweep does not change the measured rate |
| `MessageQueue.Queue.CountPendingMessages` | internal/store/messages.go:67-74 | the size of the device's queue |
| `MessageQueue.Queue.CreateMessageUnderCap` | internal/store/messages.go:50-59 | full before duplicate before queued, and the row exactly when queued |
| `MessageQueue.Queue.EnqueueMessage` | internal/api/messages.go:151-218 | the outcome of one item, checks in order |
| `MessageQueue.Queue.DeleteMessage` | internal/store/messages.go:103-119 | only the recipient device removes its message |
| `MessageQueue.Queue.PurgeExpiredMessages` | internal/store/messages.go:123-129 | exactly the expired rows go, and are counted |
| `MessageQueue.Queue.SendBatch` | internal/api/messages.go:66-95 | refused exactly when empty or too large; else one result per item, in order, each against what the earlier ones left |
| `MessageQueue.QueueStaysWithinCap` | internal/store/messages.go:50-59 | in every interleaving of batches, deletions, purges and removed devices no queue exceeds its cap |
| `MessageQueue.QueuedMeansCommitted` | internal/api/messages.go:202-218 | "queued" is reported exactly when the message became a new row and nothing else moved |
| `MessageQueue.AnswerExactly` | internal/api/messages.go:151-218 | when each of the five answers is given |
| `MessageQueue.ResendIsInert` | internal/store/messages.go:50-59 | posting a queued message again adds nothing, and is answered as a repeat exactly if the queue is not full by now |
| `MessageQueue.LeavesExactly` | internal/store/messages.go:100-129 | a queued message leaves in a step exactly if its device deletes it, its retention has passed at a purge, or its device is removed, and is never altered |
| `MessageQueue.QueuedMessageStays` | internal/store/messages.go:100-129 | over any continuation it stays unaltered while no step is one of those |
| `MessageQueue.RefusedItemsAreInert` | internal/api/messages.go:144-150 | a refused item leaves the rest of its batch as if it had not been there |

## Left out

- HTTP, JSON, base64, TLS, logging, configuration, the SQL text and storage errors; a table is a map or a set and a transaction one step. Ids that are only compared for equality are numbers.
- Ed25519, SHA-256, AES-GCM and the Double Ratchet: a signature check is a given answer, a digest a parameter, a session an abstract secret that decrypts exactly what was encrypted with it.
- Sessions: duplicated envelopes beyond `RedeliveredPrekeyIsHarmless`, prekey redelivery without a one-time prekey, and an upload that changes only one of client and server.
- Sessions.ClientState.RespondToNewSession: failures to load the device's own keys other than having none.
- Sessions.ClientState.DecryptIncoming: envelopes, headers and ciphertexts that do not decode.
- Rekey: a second re-key in a run, and the rule of pkg/client/receive.go that a session with confirmed traffic gives way to an ordinary establishment: both sides receive by cmd/devclient/session.go.
- Bech32m.DecodeBech32m: text is ASCII, the input the codec's inverse laws are promised for; Go's case mapping of other characters is not modelled.
- Bech32m.EncodeUndoesDecode: for ASCII text only, for the same reason.
- Address.StripSeparators: ids are ASCII text.
- Address.FormatForDisplay: ids are ASCII text, so that a byte index is a character index.
- Address.Normalize: ids are ASCII text.
- Address.IdTypoDetected: ids are ASCII text.
- Address.LeadingBitGroups: integers are unbounded, which agrees with Go's 64-bit accumulator for group sizes up to 57.
- BlobLifecycle: a crash is the end of the process, not a power loss, since the directory is not synced after the rename (internal/blobstore/blobstore.go:124-133); blob ids never repeat; leftover temporary files and batch sizes of the sweeps are not counted.
- GroupFacts.ApplyBatch: an event is valid when it verifies under this group's root key, so nil events and two groups' genesis events in one envelope are not modelled; nor are the roles and membership that facts resolve to.
- GroupFacts.GroupStore.ApplyGroupControl: sync requests, invitations and the narrated lines are left out.
- AntiEntropy: outright sync requests and members without a genesis; the state hash is injective.
- GroupSend.GroupLine.AttemptFanOut: grouping copies by server and the batch-to-single fallback appear as a per-copy fate (the answer lost or not); session rollback and the snapshot debt of a failed copy are not modelled here.
- GroupSend.GroupLine.RetryGroupMessage: the refusals for an unknown line, missing facts or a dissolved group, and re-uploaded attachments are left out. An attempt that ends early, by an error or with its process, is a step of the runs (`CutOff`); one that ends while it is still settling the records of departed members is not.
- SnapshotDebts.GroupPeers.SendGroupControl: a blocked peer, a failed preparation and a failed post are one given answer.
- SnapshotDebts.GroupPeers.ReconcileGroup: without facts of its own the client asks the peer for them; that request changes none of this state and is not modelled.
- NonceCache: instants before year 0 have one text, and a clock past year 9999 is not ranked.
- Dedup: ids are valid UTF-8, so that a line reads back as written.
- Attest: `Valid`, `Verify` and `Sign` are single branches around the codec.
- SqlScanner: scripts are valid UTF-8, one `char` per code point; every character the scanner looks for is ASCII.
- Forecast: the server's zone is UTC, so a day is 86400 seconds; sums fit an int64.
- MessageQueue.Queue.EnqueueMessage: database errors, and the notification, which `Broker` models.
- Push delivery, web push, the gateway client, diagnostics, the interactive chat, invites, roles, reports, and file locking: network, user interface, or single-branch checks.
