# peersh: verified models of its stateful core

peersh is a remote shell: a host (`peershd`) keeps PTY sessions alive, clients attach to
them over QUIC after meeting through a signaling server, and a few small caches and
limiters decide who gets in.  This project models those components in Dafny and proves
what holds over every run of them.

Each component has the same three layers.

* **State machine.** A pure `Step` (one critical section, one transaction or one delivered
  frame) and `StateAt(es, k)`, the state after `k` events of an arbitrary event list.  An
  event list is an interleaving; an event whose section cannot run changes nothing.
* **Object.** A class with the fields of the original and methods that update them in
  place, each proved to perform exactly one such step.
* **Theorems.** Lemmas over all event lists, stated against an independent description:
  the plain byte log, the limiter that never prunes, the history of a run, a reference
  parser without a cap.

| file | component |
|---|---|
| `RingBuffer.dfy` | scrollback ring, a window on the byte log |
| `PtySession.dfy` | pump, sinks and the attach snapshot of one PTY |
| `PtyTable.dfy`, `PtyStreams.dfy` | manager state, and client streams section by section |
| `PtyAccounting.dfy`, `PtyOwners.dfy`, `PtyHistory.dfy` | attach counts and sweeping; separation of owners and streams end to end; what the manager answers, from the events alone |
| `OscTracker.dfy` | incremental OSC 9;9 parser (sections 8.3.89 and 8.3.143 of ECMA-48, with BEL as terminator too) |
| `Registry.dfy`, `PeerAuth.dfy`, `Admission.dfy`, `AdmissionHistory.dfy` | signaling rooms, one-shot grants, the protocol from Connect to accept, and who gets in, from the events alone |
| `Psk.dfy`, `RateLimit.dfy`, `Pairing.dfy`, `ClaimLimit.dfy` | nonce cache, token bucket, pairing codes, claim limiter |
| `PwshSessions.dfy` | PowerShell session manager with its idle sweeper |
| `Notify.dfy` | command notifications of one PTY stream |
| `Wire.dfy` | varint-delimited framing |
| `Bytes.dfy` | shared sequence facts |

Clocks are integers (nanoseconds or milliseconds) or reals that never go back; HMAC and
marshalling are function parameters; random identifiers come with the event.

## What the proofs show about the code

* A ring snapshot is exactly the tail of the output, the `need > len(p)` branch inside
  `write` is dead code, and replay plus live frames is gap-free and duplicate-free for
  every stream of every run of the manager.
* `Register` without a sink does not count the caller, yet its `Detach` decrements:
  harmless exactly when the count is zero (`UncountedDetachIsHarmlessIff`), and
  `NilRegisterLosesALiveClient` is a run in which a live client's session is swept.
* `Sweep` looks at the count only, so it can evict an entry whose sole live sink belongs
  to an attach between its two sections (`SweepEvictsALiveSink`); an overdue entry goes
  exactly when all its streams are there or gone (`EvictedIffNoneCounted`).
* A client that attaches after the child has exited gets the scrollback and no Exit frame.
* `Authenticate` reads the clock before the store call and takes the cache's lock after
  it.  If that takes at most a lag, a replay is possible exactly when the nonce window is
  shorter than `(2 * floor(skew seconds) + 1) s - 1 ns` plus the lag (`ReplayPossibleIff`).
* Pruning idle token buckets can be noticed exactly when the capacity is at least one and
  the bucket does not refill within the idle time (`PruningObservableIff`).
* The claim limiter admits at most 19 attempts in any sixty seconds, one fewer than two
  full windows, because a window's first attempt opens it.  The clock is read before the
  transaction, and commits that are out of order by two milliseconds or more make it 28,
  with nine more for every further minute of lag; all of these are reached (`BoundIsTight`).
* `SessionManager.attached` is a flag and not a count, so a session shared by two clients
  counts as idle when one leaves, and is swept while the other is using it
  (`SharedSessionSweptInUse`).  A sole user is safe (`SoleUserKeepsSession`), and
  `LossPossibleIff` is the exact condition.
* The token bucket refuses only what it must: a call is admitted exactly when one more
  admission exceeds the bound of no stretch since a remembered call (`RateLimit.AdmittedIff`).
* A wrong signature still uses up its nonce, and a nonce is forgotten by the first call to
  the cache with a clock more than the window later (`Psk.CacheIsHistory`).
* Two Connects of one device that arrive before it dials make one grant (`ConnectsCollapse`).
* The idle notification measures silence from the last output only; with no output yet, a
  first input is answered at the next tick (`IdleMayFireAtOnce`).
* `wire.Write` has no size limit, so a payload over 4 MiB is written and then refused by
  the reader; `FrameRoundTrip` states both sides.

## Model

| member | source | states |
|---|---|---|
| `RingBuffers.RingBuffer.Write` | windows/ptyhost/manager.go:427-475 | for any state and chunk size, the contents become the last `cap` bytes of old contents plus chunk; the inner `need > len(p)` branch is unreachable |
| `RingBuffers.RingBuffer.Overwrite` | windows/ptyhost/manager.go:456-475 | the same for a full buffer, including chunks of at least `cap` bytes |
| `RingBuffers.RingBuffer.OverwriteAll` | windows/ptyhost/manager.go:457-462 | of a chunk of at least `cap` bytes only its last `cap` bytes survive |
| `RingBuffers.RingBuffer.OverwriteInside` | windows/ptyhost/manager.go:463-471 | the same when the chunk fits before the end of the array, including the exact fit that returns the head to zero |
| `RingBuffers.RingBuffer.OverwriteAcross` | windows/ptyhost/manager.go:472-474 | the same when the chunk wraps around the end |
| `RingBuffers.RingBuffer.Snapshot` | windows/ptyhost/manager.go:479-491 | returns the contents, oldest byte first |
| `RingBuffers.RotatePastHead` | windows/ptyhost/manager.go:463-471 | overwriting after the head drops exactly the oldest bytes |
| `RingBuffers.RotateAcrossEnd` | windows/ptyhost/manager.go:472-474 | overwriting across the end drops exactly the oldest bytes |
| `RingBuffers.RingIsLogTail` | windows/ptyhost/manager.go:410-491 | after any sequence of writes of any sizes the buffer is the last `cap` bytes of the whole log |
| `PtySession.Session.SetRingAppend` | windows/ptyhost/ptyhost.go:219-223 | from here on the session's scrollback is the ring's |
| `PtySession.Session.AddSink` | windows/ptyhost/ptyhost.go:179-183 | installs a sink under a token never used before |
| `PtySession.Session.RemoveSink` | windows/ptyhost/ptyhost.go:187-191 | removes that sink and nothing else |
| `PtySession.Session.AddSinkWithSnapshot` | windows/ptyhost/ptyhost.go:198-213 | snapshot and installation are one step: the replay is the scrollback at the moment the sink starts receiving |
| `PtySession.Session.DispatchData` | windows/ptyhost/ptyhost.go:303-322 | one chunk reaches the ring and every installed sink, in one step |
| `PtySession.Session.DispatchExit` | windows/ptyhost/ptyhost.go:324-334 | one Exit frame with that code and error reaches every installed sink, and the session has exited |
| `PtySession.Session.PumpRead` | windows/ptyhost/ptyhost.go:270-286 | one read: dispatched, and the cwd becomes the last path reported so far |
| `PtySession.Session.PumpLoop` | windows/ptyhost/ptyhost.go:267-287 | any number of reads, as the same number of chunk events |
| `PtySession.Session.Pump` | windows/ptyhost/ptyhost.go:242-295 | the whole pump is the run of its reads followed by the exit, with the low 32 bits of the child's code and the error of waiting for it unless that is the end of file; the final cwd depends only on the concatenated output |
| `PtySession.SessionInvariant` | windows/ptyhost/ptyhost.go:193-213 | after any interleaving the scrollback is the last `cap` bytes of the output, and tokens are fresh |
| `PtySession.LeftAtIsFirstRemoval` | windows/ptyhost/ptyhost.go:187-191 | a sink's end of service is the first removal of its token |
| `PtySession.LiveBytes` | windows/ptyhost/ptyhost.go:297-334 | a sink's Data frames are exactly the output between its installation and its removal, then an Exit iff the child exited meanwhile, with the code and error of that exit |
| `PtySession.AttachSeesEveryByteOnce` | windows/ptyhost/ptyhost.go:193-334 | replay is the last min(cap, N) bytes; replay plus live bytes is one contiguous segment ending at the current output or at removal; frames are Data* and then, iff the child exited in between, one Exit with the code and error of the run's first exit |
| `PtyTable.SortByRecency` | windows/ptyhost/manager.go:373-380 | the in-place nested-loop sort gives a permutation, most recently seen first |
| `PtyTable.PtyManager.RegisterInsert` | windows/ptyhost/manager.go:141-158 | first section of Register: a new listed entry with its owner, command, time and count zero, all others untouched; refused when closed |
| `PtyTable.PtyManager.AttachLookup` | windows/ptyhost/manager.go:211-222 | first section of Attach: found iff open and listed for this owner |
| `PtyTable.PtyManager.AttachCount` | windows/ptyhost/manager.go:236-239 | last section of Attach: count and lastSeen of that entry only |
| `PtyTable.PtyManager.DetachLookup` | windows/ptyhost/manager.go:254-261 | first section of Detach: found iff listed for this owner |
| `PtyTable.PtyManager.DetachUncount` | windows/ptyhost/manager.go:267-275 | last section of Detach: guarded decrement, lastSeen restarted at zero |
| `PtyTable.PtyManager.Drop` | windows/ptyhost/manager.go:281-293 | true iff the handle is listed for this owner; it is then listed no more, and every other handle and all entries stay |
| `PtyTable.PtyManager.Sweep` | windows/ptyhost/manager.go:296-311 | the deleting loop unlists exactly the expired entries |
| `PtyTable.PtyManager.Close` | windows/ptyhost/manager.go:314-327 | unlists everything and refuses from then on |
| `PtyTable.PtyManager.PumpEnded` | windows/ptyhost/manager.go:179-193 | after the pump's end its entry is listed no more; every other handle and all entries stay |
| `PtyTable.PtyManager.Get` | windows/ptyhost/manager.go:399-406 | answers iff listed for this owner |
| `PtyTable.PtyManager.List` | windows/ptyhost/manager.go:357-382 | exactly the owner's listed entries with command, 32-bit count, cwd and time, each once, most recently seen first |
| `PtyAccounting.DecrementNeverGuarded` | windows/ptyhost/manager.go:267-275 | under the accounting invariant a decrementing stream finds a positive count |
| `PtyAccounting.StepAccounted` | windows/ptyhost/manager.go:141-275 | every section of every operation keeps the accounting invariant |
| `PtyAccounting.AlwaysAccounted` | windows/ptyhost/manager.go:141-275 | the invariant holds in every interleaving of sink-bringing streams that detach at most once |
| `PtyAccounting.LiveSinksEquation` | windows/ptyhost/manager.go:141-275 | live sinks = count + attaches not yet counted - detaches not yet decremented; the guard is never needed |
| `PtyAccounting.EvictedSinksAreInFlight` | windows/ptyhost/manager.go:296-311 | a live sink of an evicted entry belongs to an attach that is not counted yet |
| `PtyAccounting.EvictedIffNoneCounted` | windows/ptyhost/manager.go:296-311 | in every disciplined run an overdue listed entry is swept iff every stream bound to it is between sink and count or gone; it then has a live sink iff one is of the first kind |
| `PtyAccounting.SweepEvictsALiveSink` | windows/ptyhost/manager.go:211-311 | a concrete disciplined run in which a client's sink is installed and live and its entry is swept before it is counted |
| `PtyAccounting.UncountedDetachIsHarmlessIff` | windows/ptyhost/manager.go:171-177 | the Detach of a sink-less Register keeps the count right iff the count is zero |
| `PtyAccounting.NilRegisterLosesALiveClient` | windows/ptyhost/manager.go:171-177 | a concrete run in which it is not, and a live client's entry is swept |
| `PtyAccounting.IdleSince` | windows/ptyhost/manager.go:254-275 | an entry idle now was idle ever since its lastSeen |
| `PtyAccounting.SweepEvictsOnlyIdle` | windows/ptyhost/manager.go:296-311 | an evicted entry's count was zero at every point of the timeout before the sweep |
| `PtyOwners.OthersUnseen` | windows/ptyhost/manager.go:211-293 | no section of another owner changes what an owner can see |
| `PtyOwners.StepSame` | windows/ptyhost/manager.go:141-293 | two managers alike for an owner stay alike under every event |
| `PtyOwners.OwnerNonInterference` | windows/ptyhost/manager.go:141-293 | deleting all of one owner's calls from any run leaves the other owner's entries, sessions and streams the same at every point |
| `PtyOwners.OwnerObservationsUnchanged` | windows/ptyhost/manager.go:357-406 | so List, Get, Attach's answer, tokens and replays are the same |
| `PtyOwners.SessionsFollowTraces` | windows/ptyhost/manager.go:160-246 | each session of the manager runs exactly the trace of its own events |
| `PtyOwners.EveryStreamSeesEveryByteOnce` | windows/ptyhost/manager.go:160-246 | the stream theorem, with the code and error of its Exit, for every stream with a sink in every run of the manager, counted from the event that installed that stream's own token |
| `PtyHistory.MadeIff` | windows/ptyhost/manager.go:141-158 | in every run an entry exists iff a Register made it while the manager was open |
| `PtyHistory.EntryIs` | windows/ptyhost/manager.go:141-158 | an entry keeps the owner and the command it was made with |
| `PtyHistory.ListedIff` | windows/ptyhost/manager.go:141-327 | an entry is listed iff it was made and since then its owner did not drop it, its child did not exit, no sweep found it overdue and idle, and the manager was not closed |
| `PtyHistory.UnlistedIsGone` | windows/ptyhost/manager.go:179-327 | once an entry is dropped, swept, ended or closed, no later Attach, Detach, Drop, Get or List of any owner knows its handle |
| `PtyHistory.LastSeenIs` | windows/ptyhost/manager.go:141-275 | an entry's time is that of its making, the last stream counted in, or the last one counted out to zero |
| `PtyHistory.CountIs` | windows/ptyhost/manager.go:141-275 | in every disciplined run the count is the streams counted in less those counted out |
| `PtyHistory.ListReports` | windows/ptyhost/manager.go:357-382 | a line is listed iff it is that of an entry of the owner, made and not taken off since, with its command, count, cwd and milliseconds as the history gives them |
| `PtyHistory.AttachIsServed` | windows/ptyhost/manager.go:211-246 | whatever runs between its sections, an Attach of a listed entry by its owner gets a sink and the last bytes put out; any other is refused for good |
| `PtyHistory.TraceIsWhatWasSaid` | windows/ptyhost/ptyhost.go:242-334 | the output and exit that the stream theorem speaks of are the chunks read between the pump's start and the exit, in every run of the manager |
| `OscTracker.ParseOsc99` | windows/session/cwdtracker.go:98-110 | a parsed path is non-empty and cut out of the body after the prefix |
| `OscTracker.CleanIsFixed` | windows/session/cwdtracker.go:98-110 | a path survives trimming unchanged iff it has no outer white space or quotes |
| `OscTracker.TrimmedExactly` | windows/session/cwdtracker.go:98-110 | of any text, outer white space goes first, then outer quotes, and nothing else |
| `OscTracker.CWDTracker.FeedEscaped` | windows/session/cwdtracker.go:61-72 | the state after a byte that follows ESC |
| `OscTracker.CWDTracker.AppendPayload` | windows/session/cwdtracker.go:74-80 | the byte is kept up to the cap, beyond it overflow is set |
| `OscTracker.CWDTracker.FinishOsc` | windows/session/cwdtracker.go:82-90 | emits the path of a complete body and returns to the initial state |
| `OscTracker.CWDTracker.Feed` | windows/session/cwdtracker.go:29-59 | the byte loop is the run of the parser over the chunk |
| `OscTracker.RunAppend` | windows/session/cwdtracker.go:29-59 | running over two pieces is running over their concatenation |
| `OscTracker.ChunkIndependence` | windows/session/cwdtracker.go:29-96 | paths, parser state and cwd do not depend on how the output is split into reads |
| `OscTracker.CappedParserRefinesUncapped` | windows/session/cwdtracker.go:74-96 | against a parser that keeps whole bodies: payload is the first min(4096, n) bytes, overflow iff n > 4096, same paths |
| `OscTracker.OpenResynchronises` | windows/session/cwdtracker.go:61-72 | from any state ESC ] leads to the same state, emitting nothing |
| `OscTracker.SelfSynchronising` | windows/session/cwdtracker.go:29-96 | trackers in any two states agree for ever after the first ESC ] |
| `OscTracker.PrintedPlainPath` | windows/shell/shell.go:170 | from any state a printed prompt marker emits exactly what its body parses to, and resets the parser |
| `OscTracker.EmittedPathsArePlain` | windows/session/cwdtracker.go:29-110 | no emitted path contains ESC or BEL |
| `OscTracker.ReportsExactly` | windows/session/cwdtracker.go:29-110 | after any output the next byte reports a path iff it ends ESC ] body with BEL or ESC \\, the body free of both, at most 4096 bytes and parsing to that path |
| `OscTracker.PromptSetsCwd` | windows/ptyhost/ptyhost.go:267-283 | after a printed prompt the cwd is its path, whatever came before and however it was read, until another marker |
| `OscTracker.RoundTripExactly` | windows/shell/shell.go:239 | printing a clean path of at most 4092 bytes and parsing it back, with BEL or ST, from any state, returns exactly that path |
| `Rooms.Registry.Register` | server/room/registry.go:42-55 | stores the connection, returns the one replaced, keeps the registry sound |
| `Rooms.Registry.Unregister` | server/room/registry.go:59-72 | removes the connection only if it is still the stored one, and no empty room is left |
| `Rooms.Registry.Forward` | server/room/registry.go:79-111 | delivers iff the target is another device in the sender's room, stamped with the sender; the cross-user branch is unreachable |
| `Rooms.Registry.CountByUser` | server/room/registry.go:115-119 | the number of devices a lookup finds for the user, zero iff the user has no room |
| `Rooms.StepLookup` | server/room/registry.go:42-72 | a step changes the lookup of its own user and device only |
| `Rooms.RegistryIsLatest` | server/room/registry.go:42-72 | in every interleaving the registry holds exactly the latest registration of each device, and is sound |
| `Rooms.LatestMeaning` | server/ws/handler.go:214-262 | the latest registration stays until its own deferred Unregister: a replaced connection's exit never removes its successor |
| `PeerAuth.Authz.Allow` | windows/peerauth/peerauth.go:60-67 | records a grant of one ttl, ignoring the empty id |
| `PeerAuth.Authz.Check` | windows/peerauth/peerauth.go:72-88 | true iff granted and not expired, and the grant is consumed |
| `PeerAuth.Authz.Sweep` | windows/peerauth/peerauth.go:91-100 | drops exactly the expired grants |
| `PeerAuth.SweptRunLags` | windows/peerauth/peerauth.go:60-100 | with and without sweeps the grants agree up to expired ones |
| `PeerAuth.SweepTransparent` | windows/peerauth/peerauth.go:60-100 | every Check answers as if no Sweep had ever run |
| `PeerAuth.KeptIffOpen` | windows/peerauth/peerauth.go:60-100 | in every run exactly the grants not renewed, used or swept as expired are kept, each with its own expiry |
| `PeerAuth.ChecksIffOpen` | windows/peerauth/peerauth.go:72-88 | a Check succeeds iff such a grant of its device was made at most ttl ago |
| `Admission.GrantsAreAuthz` | windows/peerauth/peerauth.go:60-100 | the grants of the protocol model are those of Authz, step for step |
| `Admission.ServerStep` | server/ws/handler.go:214-262 | every step keeps connections and registry consistent |
| `Admission.AlwaysInv` | server/ws/handler.go:344-430 | in every run each message under way to the host was forwarded by the server from a live connection of the same user to the connection registered for the host, and each grant comes from the effective receipt of such a message |
| `Admission.AdmissionIsGranted` | windows/cmd/peershd/main.go:864-873 | an admitted peer's id was stamped by the server on a Connect from a live connection of the host's own user, forwarded to the host's registered connection and received on it at most ttl earlier |
| `Admission.SpentStays` | windows/cmd/peershd/main.go:507-524 | a Connect neither under way nor granted is never granted again |
| `Admission.AdmissionsAreInjective` | windows/cmd/peershd/main.go:864-873 | different admissions use different Connects: no grant admits two connections |
| `Admission.AdmittedByReceipt` | windows/cmd/peershd/main.go:864-873 | a peer is admitted iff the latest Connect from it received since its last check was received at most ttl ago, and by that Connect's grant |
| `Admission.ConnectsCollapse` | windows/cmd/peershd/main.go:507-524 | once a later Connect of a device is received, an earlier one can admit nobody |
| `AdmissionHistory.DialIff` | server/ws/handler.go:214-262 | a connection exists, as the host's or another's, iff it was dialed so |
| `AdmissionHistory.LivesIff` | server/ws/handler.go:214-262 | a connection is live iff it was dialed, greeted as that user and device, joined and has not left, in that order |
| `AdmissionHistory.ListedIff` | server/room/registry.go:42-72 | a connection is in the room iff it is the latest of its user and device to have joined and has not left |
| `AdmissionHistory.SentIsUnderWay` | server/room/registry.go:79-111 | a delivered Connect from a live connection to the connection listed for another device of the same user is under way to it, stamped with the sender, until its first receipt |
| `AdmissionHistory.ReceivesIff` | windows/cmd/peershd/main.go:507-524 | the host receives a Connect iff it was so sent to a connection the host dialed, is received on it for the first time, and names its sender |
| `AdmissionHistory.AdmittedIff` | windows/cmd/peershd/main.go:864-873 | exactly who gets in, on the events alone: a live connection of the host's user and the peer's device sent a Connect while a connection of the host was the listed one, the host received it at most ttl before, and nothing of that peer was received or checked in between |
| `Psk.CacheKeyInjective` | core/auth/psk/psk.go:80-95 | different (user, nonce) pairs of 16-byte nonces have different cache keys |
| `Psk.HexInjective` | core/auth/psk/psk.go:80-95 | hexadecimal text determines the nonce |
| `Psk.MemoryNonceCache.Add` | core/auth/psk/psk.go:80-95 | forgets exactly what is older than the window, then records the nonce iff it is new |
| `Psk.Provider.Authenticate` | core/auth/psk/psk.go:117-158 | the condition of each answer: accepted iff well shaped, timely, recorded and not revoked, not known within the window, and correctly signed; each of the eight errors iff its own check is the first to fail; and what the cache holds afterwards |
| `Psk.SkewExactly` | core/auth/psk/psk.go:117-158 | the clock check in nanoseconds, on both sides and for negative skews |
| `Psk.VerdictExplained` | core/auth/psk/psk.go:117-158 | the same conditions for the verdict that the runs are made of |
| `Psk.CacheIsHistory` | core/auth/psk/psk.go:80-158 | in every run the cache holds a nonce iff a call recorded it and no later call that got to the cache had a clock beyond the window |
| `Psk.AcceptedIff` | core/auth/psk/psk.go:117-158 | a request of any run is accepted iff it passes shape, clock, record and signature and no earlier call recorded its nonce within the window |
| `Psk.AcceptancesOutsideWindow` | core/auth/psk/psk.go:80-158 | two acceptances of one (user, nonce) in any run are more than the window apart, less the lag between clock reading and cache section |
| `Psk.AtMostOnce` | core/auth/psk/psk.go:117-158 | with a window of at least the span plus the lag, one (user, nonce, signed_at) is never accepted twice, however concurrent calls overtake each other within that lag |
| `Psk.ReplayPossibleIff` | core/auth/psk/psk.go:117-158 | for every window, skew and lag, a run with a replay exists iff the window is shorter than the span plus the lag |
| `Psk.SignedRegisterAccepted` | core/auth/psk/psk.go:166-211 | sign, extract, authenticate: accepted iff clocks agree within the skew and the nonce is not cached |
| `Psk.SignatureBindsRegister` | core/auth/psk/psk.go:166-211 | without collisions, whatever is accepted with the signature of a signed Register is that Register |
| `RateLimit.Bucket.Allow` | server/ratelimit/ratelimit.go:44-75 | refill, clamp, consume and prune, as one step on the buckets |
| `RateLimit.Bucket.Prune` | server/ratelimit/ratelimit.go:63-68 | the deleting loop removes exactly the buckets idle for longer than the limit |
| `RateLimit.AllowOnKey` | server/ratelimit/ratelimit.go:44-75 | a call changes another key's bucket by pruning only |
| `RateLimit.PruningUnobservable` | server/ratelimit/ratelimit.go:44-75 | if a bucket refills within the idle time, every answer equals that of a limiter of this key alone that never prunes |
| `RateLimit.WitnessShows` | server/ratelimit/ratelimit.go:44-75 | otherwise a constructed run gives a different answer |
| `RateLimit.PruningObservableIff` | server/ratelimit/ratelimit.go:44-75 | pruning is observable by some run iff capacity >= 1 and the bucket does not refill within the idle time |
| `RateLimit.RateBound` | server/ratelimit/ratelimit.go:44-75 | any stretch of calls admits at most capacity + rate * elapsed for a key |
| `RateLimit.StoredBucket` | server/ratelimit/ratelimit.go:44-75 | a stored bucket dates from an earlier call of its key and is never negative |
| `RateLimit.SpacedCallerNeverRefused` | server/ratelimit/ratelimit.go:44-75 | calls at least 1/rate apart are never refused when capacity >= 1 |
| `RateLimit.AdmittedIff` | server/ratelimit/ratelimit.go:44-75 | for every rate and capacity, a call is admitted iff one more admission keeps to the capacity and, for every stretch from a call of the key not pruned since, to capacity plus rate times elapsed |
| `Pairing.CodeReadsBack` | firebase/functions/src/index.ts:75-78 | every drawn number gives six digits that read back as that number, so codes are distinct and acceptable to a claim |
| `Pairing.PairingCodes.TryMint` | firebase/functions/src/index.ts:89-106 | stores the document iff the code is unused or its document has expired |
| `Pairing.PairingCodes.Create` | firebase/functions/src/index.ts:80-110 | the bounded retry loop mints the first free candidate, never code zero, and fails only if all sixteen are in use |
| `Pairing.PairingCodes.Redeem` | firebase/functions/src/index.ts:254-270 | the claim transaction: not found, expired or redeemed, deleting in the last two cases |
| `Pairing.StoreFollowsHolder` | firebase/functions/src/index.ts:80-110 | the stored document is that of the last mint not yet claimed |
| `Pairing.InTimeSucceeds` | firebase/functions/src/index.ts:254-270 | a claim within the TTL of an unclaimed mint succeeds with its uid and token, and every mint in between was refused |
| `Pairing.SuccessHasMint` | firebase/functions/src/index.ts:207-217 | conversely every success has such a mint, the latest one of the code |
| `Pairing.OutcomeExactly` | firebase/functions/src/index.ts:80-110 | a code is handed out iff no unclaimed mint of it is within its TTL; a claim lapses iff an unclaimed one is past it, and finds nothing iff there is none |
| `Pairing.EveryMintAccountedFor` | firebase/functions/src/index.ts:254-270 | mints = redeemed + lapsed + replaced + stored, so successful claims never exceed mints |
| `Pairing.StaleDocsInvisible` | firebase/functions/src/index.ts:80-110 | stores differing only in expired documents give the same mints and the same successful claims in every later run |
| `Pairing.MintReplacesIffStale` | firebase/functions/src/index.ts:89-106 | a mint takes over a stored code iff no later run of mints and claims gives different outcomes with that document removed |
| `ClaimLimit.ClaimLimiter.Consume` | firebase/functions/src/index.ts:126-184 | the limiter's transaction: new window, counted attempt or refusal with Retry-After |
| `ClaimLimit.AlwaysCovers` | firebase/functions/src/index.ts:126-184 | the stored window bounds the attempts admitted since any instant, in every run whose commits are out of clock order by at most a lag |
| `ClaimLimit.AdmissionBound` | firebase/functions/src/index.ts:126-184 | every half-open sixty-second interval of clock readings admits at most 19 attempts per key, and nine more for each window that late commits can fall into, for every lag |
| `ClaimLimit.BoundIsTight` | firebase/functions/src/index.ts:126-184 | for every lag, a run that reaches that bound |
| `ClaimLimit.RetryAfterIsEnough` | firebase/functions/src/index.ts:158-169 | an attempt after the announced seconds is admitted if all attempts in between were refused |
| `ClaimLimit.RetryAfterIsNeeded` | firebase/functions/src/index.ts:158-169 | attempts up to one second earlier than announced are all refused |
| `ClaimLimit.WindowIsHistory` | firebase/functions/src/index.ts:126-184 | in every run a key's stored window is that of its own latest opening attempt, with the attempts since up to ten |
| `ClaimLimit.RefusedIff` | firebase/functions/src/index.ts:126-184 | an attempt is refused iff ten attempts of the same key came before it in its window; other keys play no part |
| `PwshSessions.ClampIdleTimeoutSec` | windows/pwsh/manager.go:35-47 | zero means the default; other values are clamped into the permitted range |
| `PwshSessions.SessionManager.TryAttach` | windows/pwsh/manager.go:90-106 | resumes iff open, known and not expired, restarting its clock and replacing its timeout; otherwise nothing changes |
| `PwshSessions.SessionManager.Create` | windows/pwsh/manager.go:108-129 | stores a new attached session unless closed |
| `PwshSessions.SessionManager.Detach` | windows/pwsh/manager.go:143-150 | marks the session idle from now on |
| `PwshSessions.SessionManager.Sweep` | windows/pwsh/manager.go:154-170 | removes exactly the expired sessions and counts them |
| `PwshSessions.SessionManager.Close` | windows/pwsh/manager.go:187-204 | evicts every session and refuses from then on |
| `PwshSessions.SweptRunLags` | windows/pwsh/manager.go:90-170 | with and without sweeps the sessions agree up to expired ones |
| `PwshSessions.SweepTransparent` | windows/pwsh/manager.go:90-170 | with fresh ids and no stale Detach, every reconnect is answered as if no Sweep had run |
| `PwshSessions.SweepsShowIff` | windows/pwsh/manager.go:90-170 | for a sweep-free run with fresh ids, some insertion of sweeps changes the answer of a later reconnect iff the run has a Detach of an expired session |
| `PwshSessions.SoleUserKeepsSession` | windows/pwsh/manager.go:90-170 | in any run with at most one user of a session at a time, it is present and attached iff it has a user |
| `PwshSessions.LossPossibleIff` | windows/pwsh/manager.go:90-170 | with clients only leaving and the sweeper running, a user can lose its session iff the session is shared or no longer marked attached |
| `PwshSessions.SharedSessionSweptInUse` | windows/pwsh/manager.go:90-170 | a run with two users of which one leaves: the session is swept while the other is using it |
| `PwshSessions.ExpiredIff` | windows/pwsh/manager.go:226-231 | a stored session has expired iff its last client left it for longer than the seconds it asked for, clamped, or the default |
| `PwshSessions.PresentIff` | windows/pwsh/manager.go:90-170 | in every run a session is stored iff it was created and no sweep since found it expired in that sense |
| `PwshSessions.ResumesIff` | windows/pwsh/manager.go:90-106 | a reconnect resumes iff it names a stored session that has not expired in that sense |
| `Notify.PtyNotifyState.Configure` | windows/cmd/peershd/notify.go:80-87 | replaces the configuration and nothing else |
| `Notify.PtyNotifyState.OnInput` | windows/cmd/peershd/notify.go:93-102 | records the input and that a command runs |
| `Notify.PtyNotifyState.RecordOutput` | windows/cmd/peershd/notify.go:108-118 | records the output time, feeds the tracker and tells whether a marker completed |
| `Notify.PtyNotifyState.MaybeFire` | windows/cmd/peershd/notify.go:143-208 | decides, updates the fields and says what is sent |
| `Notify.PtyNotifyState.OnOutput` | windows/cmd/peershd/notify.go:108-120 | both sections of an output chunk without interruption |
| `Notify.AlwaysRemembers` | windows/cmd/peershd/notify.go:60-66 | in every run the fields are exactly the last configuration, input, output and notification |
| `Notify.PumpFollowsOutput` | windows/cmd/peershd/notify.go:108-120 | a firing section is owed iff an earlier chunk completed a marker in the concatenated output |
| `Notify.FiresIffDue` | windows/cmd/peershd/notify.go:143-208 | a step notifies iff its history calls for it: configured, five seconds since every notification, an unanswered input, and either a marker with every input at least the configured seconds old (ten by default) or every output at least the configured idle seconds old |
| `Notify.FireReportsLastInput` | windows/cmd/peershd/notify.go:197-207 | what is sent names the configured device and tab and the time since the last input |
| `Notify.FiresAreSpaced` | windows/cmd/peershd/notify.go:143-208 | two notifications are at least five seconds apart with an input between them |
| `Notify.FiresBoundedByInputs` | windows/cmd/peershd/notify.go:143-208 | notifications never exceed inputs, at any point of any run |
| `Notify.IdleMayFireAtOnce` | windows/cmd/peershd/notify.go:182-191 | before any output a first input is answered by an idle notification with duration zero |
| `Wire.EncodeLength` | core/wire/wire.go:34-35 | the loop writes the base-128 varint of the length |
| `Wire.ReadUvarint` | core/wire/wire.go:55-58 | the loop reads one 64-bit varint, or reports end of input or overflow |
| `Wire.UvarintInverts` | core/wire/wire.go:34-35 | every 64-bit number reads back from its encoding, whatever follows |
| `Wire.UvarintPrefix` | core/wire/wire.go:55-58 | no proper prefix of an encoding reads as a number |
| `Wire.VarintIsBase128` | core/wire/wire.go:34-35 | an encoding is the base-128 digits, all but the last marked as continued, and no longer than needed |
| `Wire.UvarintExactly` | core/wire/wire.go:55-58 | for every input: a number iff at most ten bytes, all but the last continued, the tenth at most one, with the value of its digits; otherwise cut short or overflow, and when |
| `Wire.Stream.Write` | core/wire/wire.go:29-43 | appends the length and then the payload |
| `Wire.Stream.Read` | core/wire/wire.go:50-70 | a message leaves what follows prefix and payload, an oversized one what follows the prefix; a short payload, a cut length and an overflow consume what the reader took |
| `Wire.Stream.ReadEach` | core/wire/wire.go:50-70 | as many reads as frames return the payloads in order and leave exactly the tail on the stream |
| `Wire.FrameRoundTrip` | core/wire/wire.go:29-70 | a frame reads back with the rest untouched iff within 4 MiB; otherwise it is refused with its payload unread |
| `Wire.NoPrefixReads` | core/wire/wire.go:50-70 | no proper prefix of a frame reads as a message |
| `Wire.StreamRoundTrip` | core/wire/wire.go:29-70 | any concatenation of frames reads back as that sequence, leaving trailing bytes untouched |
| `Wire.ReadIsFaithful` | core/wire/wire.go:50-70 | whatever is read was there: a length prefix announcing exactly the payload, then the payload |

## Left out

- QUIC, TLS, STUN, UDP punching, WebSocket transport: a delivered frame is an event, and whether a send succeeds comes with it.
- SHA-256, HMAC, base32, protobuf marshalling, ed25519: functions handed in as parameters, or not modelled.
- Process spawning, ConPTY and forkpty, PowerShell hosting, shell resolution: only the prompt format that shells print is used.
- Session.Write, Resize and Close, and the child: what waiting for it returns is an input of Pump.
- Manager.Append: writes the ring outside the sink lock and is not used by the server.
- Order of ack, replay and live frames on the wire: the stream theorem is about the replay and the calls of the sink callback.
- How a listing reads the sessions' working directories: List takes them as an input.
- PwshSessions runs end at Close, after which every call is refused.
- PtyOwners.OwnerNonInterference: assumes that handles never repeat and that sessions are distinct, as random handles intend.
- Distinct sink tokens beyond 64 bits: tokens are unbounded.
- RateLimit.Bucket.Allow: tokens and times are reals, so float64 rounding is not captured; Reset is not modelled.
- Rate limiting, metrics and hello timeouts inside the WebSocket handshake: a handshake event is one the server accepted.
- Admission.AdmissionIsGranted: speaks of signaling mode, with one host and any number of other clients; direct mode admits by other means.
- Clock order of the pairing transactions: pairing runs assume that the times they read do not go back, on one instance or across several; the claim limiter and the PSK cache are proved for readings out of order by any bounded lag.
- Psk.Provider.Authenticate: is one method; in the runs its clock reading and its cache section have separate times.
- Pairing.PairingCodes.Create: other transactions between its attempts appear in the event lists, where every attempt is its own step, and not inside this method.
- The 24-hour deletion of claim-limit documents: such a document's window has long ended, so its absence is treated the same way.
- The stores (SQLite, Firestore, in memory), App Check, admin commands, configuration, service and update commands, OAuth and token clients: plumbing.
- Notification dispatch and its text, FCM delivery and the budget guard.
- Writer errors in core/wire, and unmarshalling of the payload.
- Kotlin, Swift and Flutter bridges and the command-line pickers.
