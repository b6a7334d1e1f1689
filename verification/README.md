# Relay verification

A Dafny model of the hard parts of a UDP push-to-talk relay, with proofs. Time is a natural
number of nanoseconds, map iteration visits keys in any order, randomness and outcomes of
signature checks are parameters, and cryptographic functions are uninterpreted. Where the
relay is concurrent, a step of a machine is one critical section, and a theorem is about
every run of such steps.

- **Managed-service revocation.** `ServiceAdmission` has the four maps of service admission
  and their critical sections; `Membership` the peer records and the JOIN decision;
  `Revocation` the race between a revocation, which installs a rule under one lock and
  evicts members under another, and an admission on its way to a peer; `AdmissionLaws` who
  is admitted in the end.
- **Revocation commands.** `CommandCache` has the idempotency cache and the state file,
  `CommandMachine` any number of commands, duplicates, crashes and restarts at lock
  granularity, `CommandVerdicts` what their senders are answered, `Durability` what an
  acknowledgement is worth while the relay runs, `Restart` what it is worth across crashes
  and which renames keep it, `Publishing` which publications do, and `EndToEnd` joins the
  commands to the members they evict.
- **Handshake and replay.** `ReplayWindow` has the 64-entry window, `Handshake` the pending
  challenges and sessions, `SessionLife` a window from HELLO to joined traffic, `RelayNonce`
  the relay's own nonces, `DirectoryReplay` the Directory's replay records.
- **Floor control.** `Floor` has the channels and all sections that change who talks,
  `FloorRun` runs of sections, `FloorPackets` runs of whole packets, cleanup ticks and
  revocations, `FloorInterleaved` ticks and revocations between a packet's sections,
  `FloorPriority` preemption, `FloorLaws` who stays, who talks and who may ask, in the
  fields of leases and admissions.
- **Bounded responses and packets.** `Encoding` has the lengths of encoded text,
  `DirectoryPacking` and `DirectorySnapshot` the Directory's packers, `SnapshotChunking` the
  Private Control Link's snapshots and `SnapshotText` their frames, `Packet` the binary format.

Five things the code does not always do, with the condition under which it does:

- *An acknowledgement survives a restart.* It does unless a file is renamed that could be
  restored and lacks an acknowledgement or its rule, and each such rename can lose one
  (`Restart.RenameExact`, `Restart.DurableExactly`). Such a rename needs a command that
  publishes while another holds a snapshot, or has read the rules, without it; each such
  publication can lose one (`Publishing.PublishExact`), and there are runs that do
  (`Publishing.CrossingLosesAcknowledgement`).
- *A talker has a peer.* It does unless a JOIN takes the last peer of another talker
  (`FloorRun.JoinExact`, `FloorPackets.RebindingOrphans`), or a tick or revocation between
  a PTT_ON's check and its grant takes the last peer of the sender (`FloorRun.TakeExact`,
  `FloorPackets.EvictionRace`); nothing else can do it (`FloorInterleaved.OnlyGrantsFail`).
- *Preemptions come to an end.* They do if no two senders are rivals, and with one place only
  then (`FloorPriority.PreemptionsEndExactly`). Two endpoints of one sender can make it a
  rival; unique senders never are.
- *A repeated Directory datagram is refused.* It is exactly while its record lives
  (`DirectoryReplay.RepeatVerdict`).
- *A counter is accepted at most once.* It is within one window's life; a new HELLO starts
  another (`SessionLife.NewHelloRestarts`).

`dafny verify dfyconfig.toml` checks the whole project.

## Model

| member | source | states |
|---|---|---|
| ServiceAdmission.ServiceAdmissionState.CleanupLocked | service_admission.go:365-386 | Exactly the entries whose time has passed go from all four maps, in whatever order they are visited |
| ServiceAdmission.ServiceAdmissionState.DeniedLocked | service_admission.go:402-409 | True if and only if some installed rule matches the admission |
| ServiceAdmission.ServiceAdmissionState.InstallRevocation | service_admission.go:426-454 | Succeeds if and only if the deadline is ahead, the target is specific, and the rule is known or there is room; the state afterwards is the specified one, with matching admissions in flight dropped and the later deadline kept |
| ServiceAdmission.ServiceAdmissionState.BeginAdmission | service_admission.go:456-499 | Reason and new state of a begin for every grant, deny rule, full table and failed random read |
| ServiceAdmission.ServiceAdmissionState.ProveAdmission | service_admission.go:513-541 | Reason and new state of a proof; the pending entry is used up either way |
| ServiceAdmission.ServiceAdmissionState.TakeVerifiedAdmission | service_admission.go:543-558 | Returns a verified, undenied admission and removes it whatever the outcome |
| ServiceAdmission.ServiceAdmissionState.AdmissionForJoin | service_admission.go:560-579 | The JOIN verdict and what it consumes |
| ServiceAdmission.ServiceAdmissionState.AdmissionAllowedForMembership | service_admission.go:414-422 | Allowed if and only if the grant is current and no rule denies it |
| ServiceAdmission.TargetAgreesWithRule | service_admission.go:102-129 | A target and the deny rule made from it match the same admissions on every channel |
| ServiceAdmission.RuleRoundTrip | private_control_state.go:57-78 | A canonical rule written out and read back as a target gives the same rule, and only a canonical one does |
| ServiceAdmission.RulesSurvive | service_admission.go:365-454 | No critical section with an earlier clock drops a rule, or lowers its deadline |
| ServiceAdmission.ReachableQuiet | service_admission.go:365-579 | In every reachable state no pending or verified admission matches an installed rule, and pending admissions and deny rules stay within 1024 |
| ServiceAdmission.RechecksNeverFire | service_admission.go:526-570 | The deny checks repeated at proof, take and JOIN never fire: a proof is never refused as revoked, a verified admission is always found |
| AdmissionLaws.InstallLeaves | service_admission.go:426-454 | What an installed revocation leaves in flight is exactly what has not expired and differs from its target in channel, service or grant; failures and other rules stay |
| AdmissionLaws.InstallsExactly | service_admission.go:426-441 | A revocation is refused exactly if it is late, names nothing, or is new while 1024 rules are in force |
| AdmissionLaws.BeginDecides | service_admission.go:456-486 | The reason a begin is refused with: what the check of the grant said, a rule in force, or 1024 begins outstanding |
| AdmissionLaws.ServiceIsAdmitted | service_admission.go:426-579 | From every reachable state: an accepted begin, a signed proof and a JOIN in time give exactly that admission, whatever other endpoints do and whatever revocations that do not concern it are installed in between |
| AdmissionLaws.AdmissionIsProved | service_admission.go:456-579 | In every run a JOIN is admitted only with an unexpired, unforbidden admission that an earlier begin of the same endpoint was granted and a signed proof followed |
| AdmissionLaws.UnsignedIsRefused | service_admission.go:513-541 | A proof without a valid signature or without a challenge in time is refused and uses the challenge up |
| AdmissionLaws.RefusedIsDenied | service_admission.go:456-579 | After a refused begin or proof the JOIN is refused with the same reason for 30 seconds, whatever others do |
| AdmissionLaws.UnprovedIsDenied | service_admission.go:487-579 | A JOIN between an accepted begin and its proof is refused as unproved, whatever had failed before |
| AdmissionLaws.SecondJoinFindsNothing | service_admission.go:543-579 | An admission is used up by the JOIN it admits; the next one finds neither it nor a failure |
| Membership.Expired | main.go:1255-1272 | A membership has ended exactly if its deadline or one of its admissions has; the reason is the admission that ended if it ended strictly before the deadline, and the timeout otherwise |
| Membership.IdentityForJoin | identity_admission.go:390-412 | The identity verdict of a JOIN with its reason: a current verified identity, else the recorded failure, else a proof still pending, else required mode |
| Membership.IdentityAdmissionState.CleanupLocked | identity_admission.go:279-295 | Exactly the expired entries go from the three identity maps |
| Membership.IdentityAdmissionState.AdmissionForJoin | identity_admission.go:390-412 | That verdict, and only an admitted identity is used up |
| Membership.ResolveJoin | main.go:901-921 | Exactly when a JOIN is admitted and with what: at most one kind of admission, exactly one under required mode; and the reason of every refusal |
| Membership.IdentityUsedOnce | identity_admission.go:390-412 | An admitted identity is used up, and every other endpoint keeps its verdict |
| Revocation.NoRevokedMember | management.go:994-1027 | In every lock-level interleaving, once the eviction section of a revocation has run and until its deadline, no peer of its channel carries a matching service admission, even when an attachment was checked before the rule was installed |
| Revocation.ExactlyOneAdmission | main.go:447-474 | With identity admission required, in every interleaving with revocation and expiry, a peer whose membership ever started has exactly one of an identity and a service admission |
| Revocation.CheckSpares | control_auth.go:543-563 | An attachment whose check passed under a rule does not match its target |
| Revocation.HandlerClear | control_auth.go:543-563 | Between the check and the write of an attachment, what is about to be written is clear of every evicted revocation |
| Revocation.RulesKept | service_admission.go:426-454 | Every installed rule is in force until its deadline, whatever section runs |
| Revocation.OneAdmissionStep | control_auth.go:524-563 | Each section keeps: never both admissions, and one for a started membership under required mode |
| Revocation.JoinMakesMember | main.go:447-474 | The counterpart: an uninterrupted JOIN whose service admission is found, of an endpoint without an identity, makes its sender a member with just that admission for a whole lease, and changes no other peer |
| CommandCache.IdempotencyExpiry | private_control_state.go:39-48 | An entry outlives its deny rule when the command was applied, and ten minutes in any case |
| CommandCache.PrivateControlLink.BeginRevocation | private_control.go:510-530 | Conflict, cached, wait, overloaded or execute, decided as specified, and only execute creates an entry |
| CommandCache.PrivateControlLink.PublishRevocation | private_control.go:534-551 | The acknowledgement goes into the open entry of that command and nowhere else |
| CommandCache.PrivateControlLink.FinishRevocation | private_control.go:552-564 | Completes an open, acknowledged entry and closes a channel that was not closed |
| CommandCache.PrivateControlLink.AbandonRevocation | private_control.go:566-576 | Removes an open entry and closes a channel that was not closed; a completed entry stays |
| CommandCache.PrivateControlLink.CachedCompletedRevocation | private_control.go:578-587 | Answers a waiter from a completed entry with the same body only |
| CommandCache.PrivateControlLink.CleanupIdempotencyLocked | private_control.go:495-506 | Only completed, acknowledged, expired entries go |
| CommandCache.PrivateControlLink.SnapshotRules | service_admission.go:388-400 | The snapshot holds every unexpired rule with its deadline in whole seconds |
| CommandCache.PrivateControlLink.SnapshotEntries | private_control_state.go:155-181 | The snapshot holds exactly the acknowledged, unexpired entries, completed or not |
| CommandCache.RestoreRules | private_control_state.go:191-217 | The unexpired rules of the file are installed one by one; it fails exactly if they do not fit |
| CommandMachine.OneExecutor | private_control.go:508-587 | However commands, duplicates and restarts interleave, a command has one executor; what was started is executing, finished or abandoned and only one of these; and the "changed during persistence" branches are dead |
| CommandMachine.ClosesOnce | private_control.go:552-576 | An executor ends in one complete or abandon, which closes its own channel for the first time |
| CommandMachine.OwnedStep | private_control.go:508-587 | Every section keeps open entries and executors in one-to-one correspondence |
| CommandMachine.BeginShape | private_control.go:510-530 | A begin touches no other open entry, and creates one only where none is open |
| CommandVerdicts.DuplicatesWait | private_control.go:510-523 | In every run: while a command executes, a duplicate is told to wait for that execution, and another body under the same message conflicts |
| CommandVerdicts.WaitersAreAnswered | private_control.go:508-587 | In every run: a finished execution closes the channel its duplicates wait on, and until the entry expires each of them gets its very acknowledgement, a new duplicate gets it from the cache, and another body conflicts |
| CommandVerdicts.DecisionIsApt | private_control.go:1000-1035 | What an execution decides: applied, with its rule in force and the counts of the eviction, exactly if the deadline is ahead |
| CommandVerdicts.PublishedUntil | private_control.go:534-551 | A published acknowledgement is kept for twenty minutes, and an applied one until its deadline if that is later |
| CommandVerdicts.AbandonedIsForgotten | private_control.go:566-576 | An abandoned command leaves nothing to its waiters, and the next one to come executes it |
| CommandVerdicts.OverloadedExactly | private_control.go:495-530 | A command that is not held is refused as overloaded exactly if 1024 others are held after the cleanup, and executed otherwise |
| CommandVerdicts.CacheBounded | private_control.go:508-530 | In every run, across restarts, cache and file hold at most 1024 entries |
| CommandVerdicts.FileHolds | private_control_state.go:155-181 | A file holds exactly the acknowledgements whose time had not passed when they were read, in whole seconds |
| CommandVerdicts.FileRules | service_admission.go:388-400 | And the rules in force when they were read |
| CommandVerdicts.RestartGivesBack | private_control_state.go:191-236 | A restart gives back the rules whose time has not passed and all entries, complete |
| Durability.AcknowledgementsHold | private_control.go:532-564 | While the relay runs, in every interleaving, a duplicate of an acknowledged command gets the identical acknowledgement while its entry lives, all acknowledgements of a living entry agree, and an applied rule is in force until its deadline |
| Durability.FaithfulStep | private_control.go:951-1040 | Every section keeps all acknowledgements enforced and honoured |
| Durability.CompletedStay | private_control.go:495-506 | No section changes a completed entry before it expires |
| Restart.DurableAcknowledgements | private_control_state.go:155-236 | If no rename puts a file on the disk that lacks something a restart needs then, across any number of crashes and restarts, every command ever acknowledged is still answered identically until its entry expires, and its rule is in force until its deadline |
| Restart.RenameExact | private_control_state.go:183-189 | A rename is safe if and only if, however the run goes on without another rename, no acknowledgement is lost |
| Restart.DurableExactly | private_control_state.go:155-236 | All renames of a run are safe if and only if no continuation from any of its points, without another rename, loses an acknowledgement |
| Restart.UnsafeLoses | private_control_state.go:183-236 | An unsafe rename is followed by at most three steps that lose one: get the acknowledgement, crash, wait or ask again |
| Restart.RestartsUnlessExpired | private_control_state.go:191-236 | In every run a restart fails if and only if the file holds an expired idempotency entry; the rules always fit |
| Restart.RestartDurable | private_control_state.go:191-236 | A restart from a file that lacks nothing gives back the entry and the rule of every acknowledgement |
| Restart.DiskStep | private_control_state.go:183-189 | Every section but an unsafe rename keeps each unexpired acknowledgement on disk with its rule, or its command before its rename |
| Publishing.GuardedAcknowledgements | private_control.go:532-551 | All renames are safe, so every acknowledgement holds, if nothing is published while another command holds a snapshot without it, or has read rules without its rule |
| Publishing.PublishExact | private_control.go:532-551 | That guard is exact: a publication meets it if and only if, however the run goes on without another publication, no acknowledgement is lost |
| Publishing.PublishLosesBySnapshot | private_control_state.go:155-189 | In every sound world: publishing under another command's snapshot, with its file restorable and the entry unexpired, has a continuation without a further publication that loses an acknowledgement |
| Publishing.PublishLosesByRules | private_control_state.go:155-189 | The same beside rules that were read before and lack the publisher's rule |
| Publishing.NonOverlappingGuarded | private_control_state.go:183-189 | Windows from publishing to renaming that do not overlap meet the guard; overlapping ones may meet it too |
| Publishing.CrossingLosesAcknowledgement | private_control_state.go:183-189 | Any two commands with different rules have a run from the start that loses an acknowledgement |
| EndToEnd.AcknowledgedRevocationHolds | private_control.go:951-1040 | Once a command has been acknowledged as applied, then until its deadline, in every interleaving of commands, packets, sweeps and safe renames, and across crashes and restarts, no peer of its channel carries a service admission it revokes |
| EndToEnd.RunsKeeps | management.go:994-1027 | A step of the commands, of the members or of both keeps every acknowledged revocation evicted and its rule installed |
| EndToEnd.CrashKeeps | private_control_state.go:191-236 | So does a crash: the members are gone, and the rules of the unexpired acknowledgements are back |
| ReplayWindow.AcceptReplayCounter | control_auth.go:584-605 | Accepts a counter exactly if it is new or recent and unseen, and then remembers it and every recent one seen before |
| ReplayWindow.AcceptTracks | control_auth.go:584-605 | The mask is exactly the recent part of the set of accepted counters, after every step |
| ReplayWindow.AtMostOnce | control_auth.go:584-605 | In one window's life no counter is accepted twice |
| ReplayWindow.LifeVerdict | control_auth.go:584-605 | After any life a counter is accepted if and only if it is less than 64 behind the highest and was not accepted before |
| Handshake.ControlAuth.CleanupPendingLocked | control_auth.go:359-370 | Exactly the challenges and sessions whose deadline has passed go |
| Handshake.ControlAuth.CreateChallenge | control_auth.go:316-357 | Which HELLO is answered, and the challenge and provisional session it creates |
| Handshake.ControlAuth.AcceptPreJoinControl | control_auth.go:375-395 | Advances the window of a provisional session, and of no other |
| Handshake.ControlAuth.ConsumeJoinChallenge | control_auth.go:397-436 | Hands the window over only for a live challenge and a fresh counter, and then removes both |
| Handshake.StepPaired | control_auth.go:316-436 | Every outstanding challenge keeps belonging to a provisional session with the same deadline |
| Handshake.PairedBounds | control_auth.go:316-357 | Challenges map injectively to provisional sessions |
| Handshake.ReachableBounded | control_auth.go:332-370 | In every reachable state challenges are at most as many as provisional sessions, and those at most 1024, although only the latter are counted |
| Handshake.ConsumedOnce | control_auth.go:397-436 | No challenge is consumed more often than it was issued |
| Handshake.HelloExactly | control_auth.go:316-357 | Exactly when a HELLO is answered and which failure it meets otherwise; the cookie covers the session and an expiry 30 seconds ahead |
| Handshake.HandshakeCompletes | control_auth.go:316-436 | From any state: once a challenge is issued, whatever HELLOs, packets and JOINs of other sessions come between, a JOIN that presents it in time succeeds exactly if the window accepts its counter |
| Handshake.JoinNeedsChallenge | control_auth.go:397-436 | Only such a JOIN succeeds |
| Handshake.PreJoinExactly | control_auth.go:375-395 | A packet before the JOIN advances its own live session, if the window accepts it, and no other |
| SessionLife.LifeIsExact | control_auth.go:375-436 | From HELLO through pre-JOIN packets and the JOIN to the joined peer, in every run, no life of a window accepts a counter twice, and a peer accepts exactly the recent or new counters its life has not accepted |
| SessionLife.JoinKeeps | control_auth.go:397-436 | A JOIN moves the window with its history; nothing else shares it |
| SessionLife.PeerKeeps | control_auth.go:501-582 | Promotion and the joined peer's packets keep window and history together |
| SessionLife.NewHelloRestarts | control_auth.go:316-436 | The limit of it: a new HELLO of the same session and a JOIN in time accept any counter from 1 on |
| RelayNonce.RelayNonces.Start | control_auth.go:83-113 | With authentication on, a relay starts exactly if an instance ID can be drawn |
| RelayNonce.RelayNonces.NewRelayInstanceIDLocked | control_auth.go:275-292 | The first draw that is neither zero nor used, among 32, unless a read fails first |
| RelayNonce.RelayNonces.NextRelayNonce | control_auth.go:294-314 | The next nonce, with the rollover tried again after a failed draw |
| RelayNonce.NoncesNeverRepeat | control_auth.go:275-314 | Across any number of rollovers and failed draws no two calls give the same nonce, and the high half is never zero |
| RelayNonce.DrawExactly | control_auth.go:275-292 | The first usable draw is taken unless a read fails before it |
| RelayNonce.NoncesCount | control_auth.go:294-314 | Until the counter is used up the calls return consecutive nonces |
| RelayNonce.RolloverExactly | control_auth.go:294-314 | With the counter used up a call goes on under a fresh instance ID, or fails and changes nothing |
| Floor.Config.Limit | main.go:174-196 | 1 without multi-talk, and otherwise the configured maximum brought into 1 to 16 |
| Floor.Relay.RemoveWhere | main.go:1274-1303 | Removes exactly the selected peers and ends exactly their senders' talks, in any order of the map |
| Floor.Relay.ExpireMembershipIfNeeded | main.go:1274-1303 | Ends exactly the expired memberships of the channel, and deletes it with its last peer |
| Floor.Relay.EvictRevoked | management.go:1005-1032 | Evicts exactly the matching members; the two counts are those of the removed peers and of the ended talks |
| Floor.Relay.RevokeManagedServiceAdmission | management.go:994-1047 | Either the rule is installed and the members are evicted, or nothing of the channels changes |
| Floor.Relay.ExpireTalkers | main.go:1219-1247 | Ends exactly the talks that have reached the maximum, and starts the clock of those without a start |
| Floor.Relay.ExpireTalkIfNeeded | main.go:1219-1247 | The same for one channel, leaving all others alone |
| Floor.Relay.RunCleanup | main.go:1488-1525 | One tick sweeps every channel independently of the order: expired members, late talks, empty channels |
| Floor.Relay.JoinPeer | main.go:680-694 | A JOIN creates or rebinds the endpoint's peer in its channel |
| Floor.Relay.SetPeerIdentityAdmission | control_auth.go:524-541 | Attached only to the packet's own peer, and only if it has no service admission |
| Floor.Relay.SetPeerServiceAdmission | control_auth.go:543-563 | Attached only if allowed at the time, to the packet's own peer without an identity admission |
| Floor.Relay.StartMembership | main.go:753-773 | Starts the lease of the packet's own peer only |
| Floor.Relay.RefreshMembership | main.go:775-793 | Extends a running lease of the packet's own peer only; true exactly if it had one |
| Floor.Relay.HandlePttOn | main.go:1136-1177 | Granted, repeated or denied by the talkers and the limit alone |
| Floor.Relay.ReleaseTalk | main.go:1179-1217 | Ends the sender's talk if there is one |
| Floor.Relay.RemovePeer | main.go:848-884 | Removes the peer at the address, or else some peer of the sender, or none if it has none |
| Floor.Relay.ActiveTalkerPriority | main.go:959-975 | A priority one of the sender's peers currently holds, or 0 if none does |
| Floor.Relay.SelectVictim | main.go:1098-1106 | Whatever the order of the map, the talker least by priority and then sender ID; 0 only if nobody talks |
| Floor.Relay.DecideRequest | main.go:1052-1122 | The outcome of a floor request: unauthorized, repeated, granted, denied, or a preemption of the least talker if its priority is strictly lower |
| Floor.Relay.HandlePttRequest | main.go:1052-1134 | That outcome carried out on the channel |
| FloorRun.SectionExact | main.go:1136-1303 | The guard is exact: a section leaves every talker a peer and ends or starts talks only visibly if and only if it meets a condition on its input; only JOIN, PTT_ON and the removal of a peer have one |
| FloorRun.JoinExact | main.go:680-694 | A JOIN keeps talkers owned if and only if it does not take the last peer of another talker |
| FloorRun.TakeExact | main.go:1136-1177 | A PTT_ON keeps talkers owned if and only if it is not granted or its sender has a peer |
| FloorRun.DepartExact | main.go:848-884 | Removing a peer is harmless if and only if its sender does not talk or has another peer |
| FloorRun.SweepKeeps | main.go:1488-1525 | A sweep that deletes a channel drops no talker |
| FloorRun.SectionBounded | main.go:1136-1177 | In any interleaving at all the talkers stay within the limit |
| FloorRun.EventsAlternate | main.go:1136-1247 | Over any guarded run, talk_started and talk_ended of a sender strictly alternate, and the last one tells whether it talks |
| FloorRun.EvictionAgrees | management.go:1005-1032 | The eviction leaves exactly the members the revocation protocol spares |
| FloorRun.EndedStaysEnded | main.go:775-793 | A membership whose deadline has passed is never extended; only a new JOIN starts it again |
| FloorRun.LeaseLasts | main.go:753-793 | A lease started or extended lasts exactly its length from then, unless an admission ends first |
| FloorRun.SweepClears | main.go:1488-1525 | After a sweep exactly the current memberships are left, and no talk has reached the maximum |
| FloorLaws.ExpiryDecides | main.go:1255-1303 | In the fields of leases and admissions, a listener's grace included: exactly the lapsed members go, and exactly their senders' talks end |
| FloorLaws.EvictionDecides | management.go:1005-1032 | A revocation removes exactly the members its service and grant name, and ends exactly their senders' talks |
| FloorLaws.TalkTimeDecides | main.go:1219-1247 | A talk goes on exactly if there is no maximum, its clock has not started, or less than the maximum has passed |
| FloorLaws.SweepDecides | main.go:1488-1525 | After a cleanup tick a sender talks exactly if it did, no member of its lapsed and its talk has time left; the released are exactly the rest |
| FloorLaws.RequestDecides | main.go:1052-1122 | A request is unauthorized exactly unless the three settings are on, the endpoint is the sender's with a running lease, and its identity, or else its service admission, is current with a priority and both the talk and the interrupt bit; then what is found of the talkers decides |
| FloorLaws.FoundExactly | main.go:959-975 | What is found of a talker: the priority of a current admission of one of its endpoints, or 0 without one |
| FloorLaws.TakeDecides | main.go:1136-1177 | Who talks after a PTT_ON's section, and that others go on |
| FloorLaws.GrantDecides | main.go:1098-1134 | Who talks after a granted request, and who no longer |
| FloorLaws.ReleaseDecides | main.go:1179-1217 | Exactly the sender's talk ends |
| FloorLaws.JoinDecides | main.go:680-694 | A JOIN gives the endpoint its sender; a known endpoint keeps lease and admissions, a new one has none |
| FloorLaws.AttachDecides | control_auth.go:524-563 | An admission is attached exactly to the sender's own peer without one of the other kind, and changes nothing else |
| FloorLaws.LeaseDecides | main.go:753-793 | The deadline after a start and after a refresh, for the sender's own endpoint only |
| FloorLaws.DepartDecides | main.go:848-884 | The endpoint that goes is the packet's if it is the sender's; no talk changes |
| FloorLaws.OthersUntouched | main.go:680-884 | A packet's section changes the record of one endpoint at most |
| FloorLaws.PttOnDecides | main.go:322-536 | After a whole PTT_ON of a member the sender talks exactly if it did already, or if it may talk and there is a place |
| FloorLaws.KeepaliveExtends | main.go:522-559 | KEEPALIVE and CODEC_CONFIG make a running lease full again and do nothing else |
| FloorLaws.PttOffReleases | main.go:542-548 | A whole PTT_OFF ends the sender's talk, and nobody else's |
| FloorLaws.LeaveDeparts | main.go:514-521 | A whole LEAVE ends the sender's talk and removes its endpoint, and nobody else's |
| FloorPackets.PlanGuarded | main.go:322-564 | All sections of an uninterrupted packet, tick or revocation are guarded if and only if its JOIN, should it have one, does not take the last peer of another talker |
| FloorPackets.FloorIsSafe | main.go:322-564 | Over every run of packets, ticks and revocations without a rebinding: every talker has a peer, at most 1 to 16 talk, no talk is dropped with a channel, and talk_started and talk_ended strictly alternate from the first |
| FloorPackets.RebindingOrphans | main.go:680-694 | A run from the empty channel with one rebinding: an endpoint JOINs, takes the floor and JOINs as another sender, which leaves a talker without a peer; then it leaves, and the talk ends untold with the channel |
| FloorPackets.EvictionRace | main.go:527-536 | A revocation between a permission check that passed and the grant of the PTT_ON: if it evicts all of the sender's peers but not all of the channel's, a free floor goes to a sender without a peer |
| FloorInterleaved.OnlyGrantsFail | main.go:322-564 | With ticks and revocations between any two sections of a packet and no rebinding, every section meets its guard except the grant after PTT_ON's check, and that one too while the sender has a peer |
| FloorInterleaved.InterleavedFloorIsSafe | main.go:322-564 | The floor is as safe as above over every such interleaving in which what comes between a PTT_ON's check and its grant leaves the sender a peer |
| FloorPriority.PreemptsExactly | main.go:1098-1122 | A contested request preempts if and only if some talker has a strictly lower priority; the unique least talker goes, the number of talkers stays |
| FloorPriority.OrderDecidesNothing | main.go:959-975 | With unique senders the order of map iteration does not change the outcome |
| FloorPriority.OutbidderStandsHigher | main.go:959-975 | Of two senders that are no rivals, the one that can preempt the other has the higher sum of least found and best own priority |
| FloorPriority.UniqueNoRivals | main.go:959-975 | Unique senders are never rivals |
| FloorPriority.PreemptionRises | main.go:1115-1122 | Without rivals a preemption strictly raises the summed standing of the talkers |
| FloorPriority.PreemptionsEnd | main.go:1098-1122 | Without rivals and with unchanged admissions at most 510 preemptions for each of at most 16 places follow one another, with requests, PTT_ONs and refreshes in any order |
| FloorPriority.Duel | main.go:1052-1134 | Two rivals can preempt each other any number of times |
| FloorPriority.RivalsGoOn | main.go:959-1134 | With one place, free at first, every channel with rivals has a run of n preemptions for every n |
| FloorPriority.PreemptionsEndExactly | main.go:959-1134 | So there the number of preemptions is bounded if and only if no two senders are rivals, that is, each able to preempt the other at some order of map iteration |
| DirectoryPacking.FillGroup | directory_v3.go:1221-1235 | The longest run of rows from a start that still fits, counted one by one |
| DirectoryPacking.PackDirectoryRows | directory_v3.go:1213-1248 | The loop of at most six attempts, against the specification its properties are proved of |
| DirectoryPacking.Settles | directory_v3.go:1213-1248 | If fitting depends on the count through its decimal width and is monotone in it and in dropping rows, three attempts decide: "unable to stabilize" cannot occur |
| DirectoryPacking.PackedIsPartition | directory_v3.go:1217-1246 | What is packed is an in-order partition into 1 to 32 non-empty groups, each fitting at its own index with the final count, and no partition for that count is smaller |
| DirectoryPacking.PacksIfPossible | directory_v3.go:1213-1248 | With monotone indices packing succeeds if and only if some packing fits its own count, and uses the fewest fragments of all |
| DirectoryPacking.StaysAhead | directory_v3.go:1219-1238 | Greedy stays ahead of every partition for an equal or wider count |
| DirectoryPacking.ErrorsAreApt | directory_v3.go:1213-1248 | "Row too large" means that the rows cannot be divided under a two-digit count, and is the answer if they cannot under a one-digit one; "too many fragments" means that more than 32 would do |
| DirectoryPacking.ParticipantsMonotone | directory_v3.go:580-614 | The size of a sealed participants datagram has all these monotonicities |
| DirectoryPacking.ParticipantsPack | directory_v3.go:1160-1211 | So participant responses always settle, and are sent exactly if possible |
| DirectorySnapshot.SplitPages | directory_v3.go:1353-1367 | The page loop, against the specification |
| DirectorySnapshot.PagesCover | directory_v3.go:1353-1367 | Pages hold all rows in order, 1 to 31 each, and 4096 rows take at most 133 pages |
| DirectorySnapshot.PackDirectorySnapshotRows | directory_v3.go:1254-1292 | The packing loop, terminating although the channel-only branch packs no row |
| DirectorySnapshot.PageIsArranged | directory_v3.go:1254-1292 | A packed page holds its rows in order in at most 32 fragments, only fragment 0 may be empty, each still fits with the true count, and the fragment-count error is unreachable |
| DirectorySnapshot.PagePacksIfPossible | directory_v3.go:1254-1292 | A page is packed if and only if it can be arranged for the largest count, with the fewest fragments |
| DirectorySnapshot.PageErrorsAreApt | directory_v3.go:1254-1292 | A page is refused for its channel row exactly if neither a speaker nor null fits beside it; otherwise some row does not fit a later fragment alone |
| DirectorySnapshot.SnapshotIsWhole | directory_v3.go:1254-1430 | All pages together give back the speakers in order, in at most 133 pages; an empty list is one page of one fragment without rows |
| DirectorySnapshot.SnapshotMonotone | directory_v3.go:580-614 | The size of a sealed snapshot datagram has the monotonicities, from fragment 1 on for the index |
| DirectorySnapshot.NullProbeRefuses | directory_v3.go:1274-1283 | The channel-only probe encodes null where an empty array is sent, and refuses a page that would fit |
| DirectorySnapshot.NullProbeInstance | directory_v3.go:1254-1283 | Such a page exists: a channel row of 470 bytes and one speaker of 60 |
| DirectoryReplay.OpensBeforeExpiry | directory_v3.go:483-485 | The truncated test at opening holds exactly before the expiry |
| DirectoryReplay.Directory.PurgeLocked | directory_v3.go:1051-1055 | Exactly the expired records go |
| DirectoryReplay.Directory.CommitInbound | directory_v3.go:953-972 | Verdict and new records of a commit |
| DirectoryReplay.DomainsBounded | directory_v3.go:960-964 | In every schedule there are at most 1024 replay domains |
| DirectoryReplay.AdmittedOnce | directory_v3.go:714-972 | For every schedule of commits and purges: while no clock read since has reached its expiry, no datagram of an admitted channel, epoch and sequence number is admitted again |
| DirectoryReplay.OnceBeforeExpiry | directory_v3.go:953-972 | Under a monotone clock a datagram is committed at most once before its expiry |
| DirectoryReplay.VerdictExactly | directory_v3.go:953-972 | After any schedule: with a live record a datagram is admitted exactly if its sequence number is less than 64 behind the highest admitted since the record was made and was not admitted since then |
| DirectoryReplay.NewDomainExactly | directory_v3.go:953-964 | Without one it is admitted exactly if fewer than 1024 records are live |
| DirectoryReplay.CommitKeeps | directory_v3.go:953-972 | A commit lengthens its own record to the later expiry and leaves every other one |
| DirectoryReplay.RepeatVerdict | directory_v3.go:946-972 | A repeated datagram is admitted again exactly if its second commit reads the clock after the record's expiry |
| SnapshotChunking.Chunker.AppendChunk | private_control_snapshot.go:102-117 | Adding a piece keeps the chunks those that take the longest run of pieces that fits; it is refused exactly if the piece fits no chunk |
| SnapshotChunking.ChunkSnapshotEntries | private_control_snapshot.go:99-156 | The nested loops fail if and only if every in-order division of the pieces into chunks that fit has more than 64, and otherwise use the fewest of all |
| SnapshotChunking.ChunksAreWhole | private_control_snapshot.go:99-156 | Merging the pieces across chunks gives back the snapshot, empty channels included; every chunk fits and lists no channel twice |
| SnapshotChunking.ChunksAreFewest | private_control_snapshot.go:99-156 | Every in-order division of the pieces into chunks that fit has at least as many |
| SnapshotChunking.ChunksAreFull | private_control_snapshot.go:102-117 | No chunk had room for the first piece of the next one |
| SnapshotChunking.ContinuationClashes | private_control_snapshot.go:126-146 | Two pieces of one channel do not fit one chunk |
| SnapshotChunking.FramesFit | private_control_snapshot.go:158-171 | Every frame fits with its own index and count, not only those of the probe |
| SnapshotText.FrameMeasured | private_control_snapshot.go:158-171 | The size the chunker tests is the length of the frame's JSON text, built member by member |
| SnapshotText.FrameTextsFit | private_control_snapshot.go:21-61 | Every frame sent has a text of at most 64512 bytes |
| Packet.AcceptedSplits | main.go:1705-1755 | Every accepted datagram splits exactly into header, extension, payload and tag, and its header length is that of the first two |
| Packet.HeaderFields | main.go:1705-1755 | Which bytes of a datagram each header field is read from |
| Packet.ParsesExactly | main.go:1705-1755 | Exactly which datagrams are accepted, by kind, flag, header length and size |
| Packet.ParsedParts | main.go:1705-1755 | How they are classified, and where the payload lies |
| Packet.ExtensionFields | main.go:1705-1755 | Which bytes nonce, nonce base, counter and key ID are read from |
| Packet.VerifiesExactly | control_auth.go:243-253 | A received packet verifies exactly if its key has 32 bytes, its flags and header length are those of authenticated control, nonce and key ID are not zero, and its last 16 bytes are the tag of all before them |
| Packet.PutUint | control_auth.go:259-273 | Writes a big-endian number after what is already there |
| Packet.BuildRelayControlPacket | main.go:1761-1791 | The bytes of a relay control packet, with or without crypto |
| Packet.RelayRoundTrip | main.go:1705-1791 | Parsing a built relay control packet gives back every field and the payload; one built without crypto is refused by a relay with crypto |
| Packet.BuildAuthenticatedControlPacket | control_auth.go:259-273 | The bytes of an authenticated packet, its tag over all that precedes it |
| Packet.AuthenticatedRoundTrip | control_auth.go:243-273 | Parsing it gives back every field, payload and tag, and it verifies exactly if the key has 32 bytes and nonce and key ID are not zero |
| Packet.GetPut | control_auth.go:259-273 | A number that fits its width is read back from its bytes |

## Left out

- Publishing.PublishExact: for a command that has read the rules but not the entries, only where no cached acknowledgement has outlived its time: an expired one that is snapshot with the rest keeps the file from being restored, so that publication may lose nothing. `Restart.RenameExact` has no such restriction.
- Restart.DurableAcknowledgements: an expired acknowledgement in the file makes the restart fail; what an operator does then is not part of this model.
- FloorPriority.PreemptionsEndExactly: the converse is proved for one place, free at first, with Floor Interrupt on and all memberships running; `FloorPriority.PreemptionsEnd` has no such restriction.
- FloorPackets.FloorIsSafe: packets are not interrupted between their sections; `FloorInterleaved.InterleavedFloorIsSafe` lets ticks and revocations in. Packets do not interrupt each other: one loop handles them. Events are in the order of the sections; they are published after the lock is released, so two goroutines may publish out of that order.
- SessionLife.LifeIsExact: about one life of a window; a new HELLO starts another.
- DirectoryReplay.AdmittedOnce: the clock of a commit is read before the lock, so the hypothesis is on all clocks read in between.
- Sockets, sends, goroutine start-up, TLS, socket credentials, HTTP handlers, event streams and logs.
- CSV files, flags, environment variables and file permissions.
- HMAC, AES-GCM, SHA-256 and Ed25519 are uninterpreted; a command stands for its body hash, a cookie is a function of what it covers.
- JSON and Base64 texts of Directory responses are modelled by their lengths; string escapes are part of a row's size.
- The claims of grants and tickets: their validation is a parameter that gives an admission or a reason.
- The begin, proof and take sections of identity admission: its JOIN verdict and cleanup are modelled, over arbitrary maps.
- Identifiers of services and messages are checked before the cache is reached; they are plain strings here.
- The limit on concurrent commands (acquireCommand): without it there are only more interleavings.
- A waiting duplicate that times out: it gets no acknowledgement, and changes nothing.
- The state file is one variable replaced atomically, or possibly not at all on an error; restored entries share one channel that is already closed.
- Cached entries are values, not shared objects; nothing in the source keeps a reference to one across the mutex, except the completion channel, which is modelled.
- Packet statistics, name tables, diagnostics, audit records and the text of events.
- Directory registrations, heartbeats, preauthentication budgets, cursors and publication.
- Capturing the state snapshot: the chunker is given channels in ascending order, as the capture sorts them.
- The media checks before a refresh are one parameter of a media packet, apart from the talker and permission checks.
- PING and the fallback of touchKnownPeer: they change neither talkers nor leases.
- The contents of codec configurations: a codec packet is modelled by its lease refresh.
- Wrap-around of the outbound sequence number, which nothing modelled depends on.
