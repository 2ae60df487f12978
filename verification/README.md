# dpb, modelled and proved

dpb is a macOS tool that gets connections past a censoring middlebox. It changes system settings and
must put them back whatever happens; it retries a connection over a ladder of strategies without ever
sending a request twice; and it cuts first messages up in ways that must not change them. This project
models the six parts where that is decided, and proves what each of them promises.

**The write-ahead journal and its manager** (`Settings`, `Captures`, `Checks`, `Journal`, `Recovery*`,
`Mac`, `FileJournal`, `LiveOp`, `Manager`). Every change to the machine goes prepare, verify (adoption),
begin (fsync), apply, verify, commit, and is undone in reverse. `Recovery` is a step relation in which
every event is one durable line, one command to one subsystem, or one decision, so a crash may fall
anywhere: between two variables of one Apply, inside rollback, inside UndoAll, inside an earlier Replay.
Any command may fail, and any record may fail to close.

The state carries what the user is to get back (`owed`). The invariant of every run (`RecoveryAlways`) is
that reverting all pending records, newest first, gives what is owed, for every setting but two kinds
whose loss the state accounts for: `crossed` settings, of a record closed under a newer one that had been
left pending, and `untidy` ones, servers that could not be cleared. Which settings a closed record takes
from a recovery is an if and only if (`CloseDecides`); nothing is crossed as long as a record left pending
shares no setting with an older one (`RecoveryStack`); only servers captured as blank are ever untidy, and
the switch beside each is off (`RecoveryTheorems`). `RecoveryOriginals` compares what is owed with what
was there before the first operation, and `RecoveryRuns` has the two runs in which something is lost.
The classes `Mac`, `FileJournal`, `LiveOp` and `Manager` are the imperative code; each of their commands
is proved to be an enabled event of the step relation, so every theorem about runs holds of every
execution of the methods. `Mac` counts its faults, the reads, commands, appends and truncations that fail
while the process lives; where there are none the methods do exactly what they are for (`Do`, `UndoAll`,
`Replay`, `Reverify`). A journal line is torn at any octet by a crash; the next open heals it.

**The escalation ladder** (`Ladder`, `Escalation`, `Learning`). `WalkFrom` is the walk against an arbitrary network
(a function from the number of the dial to what that connection does); the methods of `LadderRunner`
compute it. `Escalation` says how every walk ends from the network alone. `History` ranges over every
sequence of walks and of store losses.

**The emitter** (`Coalesce`, `Sender`, `Governor`). A plan's meaning is its flattened trace of waits and
of octets with their kind and hop limit. The socket may fail at any call, and may take part of a write;
`Transport` counts what goes wrong, and a plan is sent where nothing does.
The token bucket is over reals.

**HTTP heads** (`HttpHead`, `HttpLaws`, `HttpMangle`, `HttpRender`, `HttpReplay`). The header walker works
on absolute offsets with the MAX_HEAD limit; the theorems say that every written head parses back, what a
parse depends on, and what the rewriters take and keep.

**ClientHello padding** (`TlsPad`, `TlsHello`). Three nested lengths, patched in place in a fresh buffer;
padding a written hello is writing the padded one.

**Two stateful machines** (`Counters`, `Watcher`, `Debounce`). The drift counters against a plain filter
of the whole history; the watcher's holds and settle sequence as laws of the trace of handler calls; the
debounce as a schedule of arrivals and timer firings.

## Where the code and its comments differ

The model follows the code.

- `internal/netwatch/watcher.go:758-761` says an undecided probe never releases the portal hold. The
  switch releases it whenever the probe did not say "behind": `NetWatch.Watcher.ProbePortal` states that.
- `internal/netwatch/watcher.go:643-646` promises that connections are never judged under an outdated
  namespace. Coming back from a lost uplink lifts that hold before the settle takes its own
  (`NetWatch.UplinkBackGap`: nothing is suspended then exactly when no other hold was on);
  `NetWatch.BackElsewhere` is the run. The settle itself is covered (`NetWatch.SettleIsSuspended`).
- `internal/httpmsg/mangle.go:17-19` says a pad can never push a head past MaxHead. It can; the exact
  condition is in `HttpMangle.PadKeeps` and `HttpMangle.DotKeeps`.
- `internal/flow/ladder.go:758` says "plain failed before any response byte" where plain may not have
  connected at all: `Learning.DesyncOnlyAfterPlain` claims that plain brought no octet, and no more.
- `internal/netstate/manager.go:241-243` leaves a record that cannot be reverted to a later Replay, and
  UndoAll goes on below it. Where an older record has the same setting and is closed, that Replay restores
  the older operation's value and reports no failure: `RecoveryRuns.StuckRevertResurrects` is such a run.
  `RecoveryTheorems.StuckThenReplayed` and `RecoveryAlways.CloseDecides` say exactly when it happens, and
  `RecoveryStack.ReachableApart` that it does not where stuck records share no setting with older ones.
- `internal/netstate/op_proxy.go:294-297` lets a revert succeed whose clearing command was refused. Our
  host and port then stay stored for good, although the Replay reports no failure:
  `RecoveryRuns.RefusedClearStays` is such a run. `RecoveryTheorems.CloseUntidies` says what holds then.

## Model

| member | source | states |
|---|---|---|
| Settings.CaptureCovers | internal/netstate/op_launchenv.go:96-124 | what an operation captures covers every key it will write |
| JournalFormat.EntriesText | internal/netstate/journal.go:356-382 | what was appended line by line reads back as exactly those entries |
| JournalFormat.TornTailHeals | internal/netstate/journal.go:319-350 | any number of whole lines and any strict fragment of one more, healed, then any further lines, read back as the whole entries and the further ones: nothing hidden, nothing welded |
| JournalFormat.UnhealedTailHidesNextRecord | internal/netstate/journal.go:124-160 | without healing, the record appended next to a fragment is lost |
| JournalFormat.CorruptLineCostsOnlyItself | internal/netstate/journal.go:356-382 | an undecodable line hides itself and no other entry |
| JournalFormat.CompactionInvisible | internal/netstate/journal.go:274-289 | truncating a file with nothing outstanding changes no later reading, whatever is appended |
| JournalFormat.InOrderSorted | internal/netstate/journal.go:356-382 | the outstanding records come in strict order of their tokens |
| Recovery.MatchRouteIsKeyed | internal/netstate/op_route_darwin.go:148-172 | on a table whose scoped entries sit on their interface, scanning for the route is the same as looking up the one key a delete resolves to |
| Captures.SoftIsOff | internal/netstate/op_proxy.go:317-323 | where a payload clears a server it turns the switch beside it off |
| RecoveryProof.OldestDecides | internal/netstate/manager.go:273-306 | when records stack on one key, a full revert gives it the value the oldest of them captured |
| RecoveryAlways.StepKeepsAlways | internal/netstate/manager.go:167-393 | every micro-step, crashes, refused commands and stuck records included, keeps: the journal holds exactly what the process has in hand, reverting the pending records newest first gives what is owed for every setting not accounted as lost, and the owed routes are the unclaimed ones |
| RecoveryAlways.CloseDecides | internal/netstate/manager.go:281-304 | closing a record leaves the outcome of a full recovery for a setting as owed if and only if it does not count the setting as lost: no older pending record covers it, and the newer ones and the world leave it other than captured |
| RecoveryAlways.HeldIsPending | internal/netstate/manager.go:208-268 | in every run, whatever the process holds as applied, or is applying or reverting, is durably pending with its captured values |
| RecoveryAlways.WrittenAhead | internal/netstate/manager.go:208-233 | in every run, a setting is written, by Do or by Reverify, only while a durable pending record covers it, and a route added only while one will delete that entry |
| RecoveryAlways.TokenIsFresh | internal/netstate/journal.go:163-219 | in every run, the next token is above every outstanding one |
| RecoveryAlways.ForeignRoutesIntact | internal/netstate/op_route_darwin.go:105-216 | in every run, every route that is not ours is in the table unaltered, and every other entry is one a pending record will delete |
| RecoveryAlways.OursKeepsForeignRoutes | internal/netstate/manager.go:185-268 | no step of the tool, failing or not, changes which routes are not ours |
| RecoveryStack.StepKeepsStacked | internal/netstate/manager.go:244-306 | every step but a record left pending keeps the process's own records the newest of the pending ones |
| RecoveryStack.ReachableApart | internal/netstate/manager.go:273-306 | in a run whose stuck records share no setting with an older pending record, no setting is ever crossed |
| RecoveryTheorems.CompletedReplayRestores | internal/netstate/manager.go:337-393 | from every run, once nothing is pending, every route is as owed and so is every setting but the crossed and the untidy; none is crossed in a run as above, and the untidy ones were refused |
| RecoveryTheorems.RefusedFailed | internal/netstate/op_proxy.go:278-289 | a server counts as refused only if some command that clears it failed |
| RecoveryTheorems.CloseUntidies | internal/netstate/op_proxy.go:294-311 | a server closing leaves uncleared was captured as blank, which is what is owed for it; the switch beside it is off and nothing pending will touch either |
| RecoveryTheorems.ReplayOutcome | internal/netstate/manager.go:337-393 | every Replay that gives up no record, after any run at all, leaves nothing pending, crosses nothing more, and puts back all that is owed but servers captured as blank |
| RecoveryTheorems.ReplayRecovers | internal/netstate/manager.go:337-393 | from every state any run can leave a dead process in, one further Replay gets there and loses nothing more |
| RecoveryTheorems.UndoAllRestores | internal/netstate/manager.go:273-306 | an UndoAll that gives up no record closes the process's own records and no other; what is then pending is exactly what lay beneath its stack, and all else owed is back but blank servers |
| RecoveryTheorems.StuckThenReplayed | internal/netstate/manager.go:289-304 | a newest record left pending by UndoAll and replayed later gives the undisturbed outcome for a setting if and only if no older record covers it too, or both captured the same value |
| RecoveryTheorems.PendingCovers | internal/netstate/manager.go:208-268 | at every micro-step of every run, a setting that is not as owed and not lost is covered by a durable pending record, and the oldest such record holds the owed value |
| RecoveryTheorems.PendingIsStack | internal/netstate/manager.go:208-306 | where no record was left pending short of a crash, the pending records are what earlier processes left and then exactly the live stack, in order |
| Checks.VerifyRevertedPasses | internal/netstate/op_proxy.go:363-401 | once a record's values are back, refused clearings aside, the check that closes it passes exactly when scutil does not show our value, which it cannot for a primary service of the list |
| RecoveryOriginals.OwedIsOriginal | internal/netstate/op_launchenv.go:96-133 | with nobody else at work, in every run, every route is owed as it was, and every uncrossed setting its original as its reader prints it, or nothing where the original was blank or the own value of an operation begun on it while nothing pending covered it |
| RecoveryOriginals.UntouchedIsOwedAsIs | internal/netstate/manager.go:167-306 | a key no operation writes is owed exactly as it was, and never lost |
| RecoveryOriginals.RecoveryRestoresOriginals | internal/netstate/manager.go:337-393 | after any operations, crashes and failed reverts, once nothing is pending: every route and every setting that is not lost is back at its original in that sense, and a server left uncleared was owed blank and is switched off |
| RecoveryRuns.StuckRevertResurrects | internal/netstate/manager.go:289-304 | a whole run, from boot to a completed Replay without a failure, in which a revert that failed short of a crash makes the older operation's value come back |
| RecoveryRuns.RefusedClearStays | internal/netstate/op_proxy.go:302-311 | a whole run in which networksetup refuses the empty URL: the Replay completes without a failure and our URL is still stored, switched off |
| MacWorld.Mac.Append | internal/netstate/journal.go:253-269 | one line becomes durable, or nothing does, or the process dies with any prefix of it on disk |
| FileJournals.FoldJournal | internal/netstate/journal.go:356-382 | the loop over the file's lines gives the outstanding records in order |
| FileJournals.SortBySeq | internal/netstate/journal.go:376-380 | the collected records, sorted, are the outstanding ones in token order |
| FileJournals.FileJournal.Open | internal/netstate/journal.go:124-174 | opening heals the tail and starts the sequence at the highest outstanding token |
| FileJournals.FileJournal.Begin | internal/netstate/journal.go:201-220 | a begun record is durable under the next token, or the sequence and the file are as before |
| FileJournals.FileJournal.Commit | internal/netstate/journal.go:222-236 | the commit is durable, or nothing changed |
| FileJournals.FileJournal.Done | internal/netstate/journal.go:238-248 | closing, then compacting; a failed compaction is reported with the entry closed, a failed append leaves it pending |
| FileJournals.FileJournal.CompactFile | internal/netstate/journal.go:274-289 | the file is truncated exactly when nothing is outstanding |
| FileJournals.FileJournal.Pending | internal/netstate/journal.go:291-317 | reads the outstanding records, oldest first |
| FileJournals.ClosedSeqIsReused | internal/netstate/journal.go:163-172 | a concrete file in which a closed token is used again, and still only the new record is outstanding |
| LiveOps.LiveOp.Prepare | internal/netstate/op_proxy.go:121-147 | captures once, what Revert will restore, for the resolved service list; where no read fails an operation is prepared exactly when there is a service |
| LiveOps.LiveOp.ResolveServices | internal/netstate/op_proxy.go:127-136 | no list stands for every enabled service, of which there must be one |
| LiveOps.LiveOp.CaptureEnv | internal/netstate/op_launchenv.go:96-124 | the loop over variables captures each one's normalised previous value |
| LiveOps.LiveOp.CaptureProxies | internal/netstate/op_proxy.go:137-188 | the loop over services captures each one's previous server and switch |
| LiveOps.LiveOp.Verify | internal/netstate/op_proxy.go:223-268 | passes only when the setting is in force: every variable as asked, scutil's proxy for the primary service, the route in the table; and exactly then, where no read fails |
| LiveOps.LiveOp.Apply | internal/netstate/op_proxy.go:190-221 | every command in order, stopping at the first failure: the settings are those with exactly that prefix written; where nothing fails all are, and a route is added exactly when its destination is free |
| LiveOps.LiveOp.Revert | internal/netstate/op_proxy.go:272-292 | carries on past failures and touches only its own keys; without a failure, tidying aside, every captured value is back but for servers that refused; where nothing fails at all, the machine is as reverting the record leaves it |
| LiveOps.LiveOp.RevertWrite | internal/netstate/op_proxy.go:278-289 | one command: the value is written, or nothing is; a failure counts unless it only tidies |
| LiveOps.LiveOp.RevertRoute | internal/netstate/op_route_darwin.go:182-205 | at most our own entry goes from the table, and the delete's report is not believed |
| LiveOps.LiveOp.ConfirmReverted | internal/netstate/op_proxy.go:366-401 | passes only when scutil, and every service of the list, show nothing of ours; and exactly then, where no read fails |
| Managers.ConfirmPasses | internal/netstate/manager.go:255-267 | in every run, at the end of a revert none of whose commands failed, the check that closes the record passes exactly when scutil shows nothing of the operation, and always when the primary service is one of the list |
| Managers.RevertAndClose | internal/netstate/manager.go:255-267 | the record is closed and no other, or the journal is as it was; it is closed only after a confirmed revert, and nothing but its keys is touched; where nothing fails it is closed exactly when scutil shows nothing of the operation, as it always does when the primary service is one of the list |
| Managers.UndoTop | internal/netstate/manager.go:281-304 | the same for the record on top; an adopted one is closed and the machine left alone |
| Managers.Manager.Do | internal/netstate/manager.go:167-233 | on success the operation is in force, everything it writes is written, and it is on the stack and durably recorded; on failure the stack is as before and no entry but its own can have been added; nothing but its own settings is touched. Where nothing fails around it, it succeeds if and only if what it writes verifies, and leaves no entry if it does not |
| Managers.Manager.FinishAdopted | internal/netstate/manager.go:191-206 | state that was already there is committed to the journal and the machine is left alone |
| Managers.Manager.ApplyAndCommit | internal/netstate/manager.go:208-233 | what is committed is in force; any failure is rolled back; where nothing fails, it commits if and only if what it writes can be added and verifies |
| Managers.Manager.Rollback | internal/netstate/manager.go:244-268 | an operation that changed nothing is closed and the machine left alone; any other is reverted; its entry is closed or stays as it was, and is closed where nothing fails and the primary service is listed |
| Managers.Manager.UndoAll | internal/netstate/manager.go:273-306 | the stack is emptied past failures; failed counts exactly the operations left, and all others are closed; with none, the process's own records are closed and no other, what is owed is back but what is accounted as lost, and after a run without stuck records nothing is crossed. Where no read, command, append or truncation fails, none is left but proxies whose list omits the primary service |
| Managers.Manager.Reverify | internal/netstate/reverify.go:57-104 | journal and stack unchanged; only settings of operations that were not adopted are rewritten, and no table entry is altered; lost counts exactly the operations of ours not seen in force at their own turn; where nothing fails, what is in force is left alone, all else is re-applied, and what is counted is not in force after it; with none lost and no setting shared, every operation of ours is in force at the end |
| Managers.Manager.Turn | internal/netstate/reverify.go:73-97 | one operation: adopted state is left alone; ours is seen in force as it stands, or after its re-apply, or counted |
| Managers.AllInForce | internal/netstate/reverify.go:29-56 | turns that each saw their operation in force leave all of them in force, where none writes what shows an earlier one |
| Managers.Manager.Restore | internal/netstate/reverify.go:111-128 | success only when the operation is in force again; nothing but its own keys is touched; where nothing fails, all of it is written again, and it succeeds exactly when that verifies |
| Managers.Replay | internal/netstate/manager.go:337-393 | every pending record ends in exactly one of reverted, skipped and failed; those reverted or skipped are closed, and only adopted ones are skipped; with none failed nothing is pending, nothing more is crossed, and the machine is as owed but for what is lost, new losses being blank servers switched off. Where no read, command, append or truncation fails, no record fails but proxies whose list omits the primary service |
| Ladder.Judge | internal/flow/ladder.go:702-729 | the first read with octets or an error decides, and silence is a timeout |
| Ladder.BuildRungs | internal/flow/ladder.go:245-280 | the loop builds the deduplicated rung list |
| Ladder.RungsLaws | internal/flow/ladder.go:245-280 | no rung twice, none of the ladder lost, plain first unless a desync verdict names another, only plain for a bypass |
| Ladder.LookAhead | internal/flow/ladder.go:416-435 | the loop answers whether a later rung could be emitted or is unparseable |
| Ladder.ConnectionsConserved | internal/flow/ladder.go:283-405 | dials equal emitted attempts and never exceed the budget; each connection that opened is closed exactly once or is the one returned |
| Ladder.CommitGuard | internal/flow/ladder.go:499-595 | once a connection has brought an octet nothing is dialled after it, it is the one returned, and Pre is exactly what it brought |
| Ladder.UnreplayableDialsOnce | internal/flow/ladder.go:308-312 | a first message that may not be replayed costs at most one dial |
| Ladder.LookAheadExact | internal/flow/ladder.go:347-356 | `final` is true if and only if the rest of the walk, on a live context and any network, would neither dial nor meet an unparseable rung |
| Ladder.SilenceHandedOverLast | internal/flow/ladder.go:585-594 | a silent connection is handed over only on a rung safe to hand over, after which nothing more could have been emitted on any network |
| Ladder.WinIsEvidence | internal/flow/ladder.go:563-626 | a winning connection answered, and nothing it said counts against the rung |
| Escalation.AttemptDecides | internal/flow/ladder.go:499-595 | an attempt goes on only when the connection could not carry the rung, or broke or stayed silent before its first octet, and then whenever there is a next rung; octets win, or are handed over when they count against the rung; anything else stops |
| Escalation.WalkDecided | internal/flow/ladder.go:283-405 | on a live context, from the network alone: the walk dials usable rung after usable rung until one connection settles it, and ends there as that connection says: won, handed over, or lost as after a torn write |
| Escalation.FirstToSettle | internal/flow/ladder.go:499-595 | the first dial in reach that settles anything decides the walk, and is the last; where it brings octets that do not count against it, the walk is won on it |
| Escalation.NoneSettles | internal/flow/ladder.go:682-688 | a walk in which every connection in reach fails to open, is reset, or is silent, is lost only after as many dials as the budget and the applicable rungs allow |
| Learning.Store.Put | internal/policy/store.go:188-224 | writes that one verdict, or nothing; others may be evicted, none is altered; an open store with room writes it and evicts nothing |
| Learning.Store.DemoteHost | internal/policy/store.go:226-264 | an open store counts a loss, drops the host at the third, and never creates a verdict |
| Learning.ThreeLossesDrop | internal/policy/store.go:226-264 | a cached winner stands two losses and not a third |
| Learning.LadderRunner.AttemptRung | internal/flow/ladder.go:499-595 | one emission, judged branch by branch |
| Learning.LadderRunner.TryRung | internal/flow/ladder.go:298-389 | one turn of the walk: budget, live context, replay gate, parse, applicability, dial, attempt |
| Learning.LadderRunner.WalkRungs | internal/flow/ladder.go:283-405 | the loop computes the walk the laws are about; on a live context the network alone decides how it ends |
| Learning.LadderRunner.Run | internal/flow/ladder.go:180-243 | one connection: that walk, and exactly the effect on the store its ending calls for, carried out by an open store with room |
| Learning.LearnedVerdictsWereSeen | internal/flow/ladder.go:734-854 | over every history, each learned verdict in the store was written by a walk of that host, and only ever demoted since; that very walk saw its rung answer, with no alert, no sinkhole and no hard error, after every earlier connection had brought nothing |
| Learning.AnswerIsLearned | internal/flow/ladder.go:734-763 | the rung of the connection that answered is what the store then holds, without a loss, unless the verdict was a bypass |
| Learning.RejectionIsForgotten | internal/flow/ladder.go:794-817 | a learned rung whose connection is answered with octets that count against it is forgotten at once |
| Learning.LossIsCounted | internal/flow/ladder.go:768-784 | a learned verdict none of whose rungs is answered counts a loss, unless the client had gone |
| Learning.DesyncOnlyAfterPlain | internal/flow/ladder.go:245-280 | unless a verdict already names a desync, one wins only after plain was emitted first and brought no octet |
| Learning.BypassNeverEscalates | internal/flow/ladder.go:245-250 | a bypass verdict dials at most once, only plain, is never written over, and is demoted exactly when it came from an observation and its one dial was lost |
| Learning.RuleBypassLeavesStore | internal/flow/ladder.go:838-854 | under a rule's bypass the store never changes |
| Governors.Governor.constructor | internal/emit/governor.go:45-60 | a full bucket, burst defaulting to the rate |
| Governors.Governor.Reserve | internal/emit/governor.go:62-102 | a grant in [1, n], two or more only without debt, counted so that granted and coalesced add up to what was asked; cut short only when less than one token is left; whole where the bucket, with what the time since has brought in, covers it; after a wait that fills the bucket, all or the whole burst |
| Governors.Served | internal/emit/governor.go:76-102 | of any bucket: a call is cut short only below one token, never when tokens and refill cover it, and after a full wait only to the burst |
| Governors.RunBound | internal/emit/governor.go:62-102 | over any run of calls, what is granted is bounded by tokens spent, refill and forced writes |
| Governors.WindowBound | internal/emit/governor.go:62-102 | over any window on a clock that does not go back: granted is at most burst + rate * T + forced calls |
| Plans.Coalesce | internal/emit/sender.go:179-215 | the nested loops compute the closed form |
| Plans.CoalescedLaws | internal/emit/sender.go:179-220 | over the grant, the result has as many segments as were granted, or as many as nothing more can be merged of; it is the right-most mergeable boundaries that go, the segments before the cut are untouched, the flattened trace is identical, and a plan still over its grant has nothing left to merge |
| Plans.MergeableMeans | internal/emit/sender.go:217-220 | two neighbouring stream segments are mergeable if and only if merging them changes nothing on the wire |
| Plans.JoinFacts | internal/emit/sender.go:217-220 | merging leaves the mergeability of every earlier boundary as it was and nothing mergeable behind |
| Plans.JoinOneMore | internal/emit/sender.go:199-212 | merging the last mergeable boundary moves the cut there |
| Plans.JoinKeepsWire | internal/emit/sender.go:199-212 | what goes on the wire, when, and with which hop limit, is unchanged |
| Senders.EmitSegment | internal/emit/sender.go:112-150 | a segment goes out whole or as a prefix, under the socket's hop limit, in one write, and whole where nothing fails |
| Senders.EmitNext | internal/emit/sender.go:77-108 | delay, hop limit and octets of one segment, or a prefix of them |
| Senders.EmitAll | internal/emit/sender.go:77-110 | a prefix of the plan, all of it in as many writes as segments on success, which comes where nothing fails; a hop limit off its default only when marked so |
| Senders.Degrade | internal/emit/sender.go:51-62 | what the governor leaves of a plan: its grant in writes, never fewer, or as few as can be, with the same trace |
| Senders.Send | internal/emit/sender.go:34-110 | for every pattern of failures: the wire carries a prefix of the original plan's trace, each octet under its own hop limit; the socket ends on its default unless the last restore failed; missing capabilities emit nothing; the governor is asked only about several writes, and on success there are as many as it granted, or as few as can be. Where nothing fails the plan is sent |
| HttpHead.ForEachHeader | internal/httpmsg/parse.go:180-210 | the loop visits the fields of the head, never past MaxHead, and finds its end |
| HttpHead.VisitLine | internal/httpmsg/parse.go:194-204 | the field on a line, its value trimmed |
| HttpHead.Parse | internal/httpmsg/parse.go:129-173 | computes the parse the laws are about, the kept Host field included |
| HttpHead.Detect | internal/httpmsg/parse.go:80-99 | true exactly when the buffer begins, or could go on to begin, with a method and a space |
| HttpRender.RenderParses | internal/httpmsg/parse.go:129-173 | round trip: every head written from a method, a target, a version and fields, with anything behind it, parses back to exactly those, and is complete if and only if it fits MaxHead |
| HttpRender.DetectedMeans | internal/httpmsg/parse.go:80-99 | a buffer counts as HTTP if and only if it is not empty and some continuation of it starts with a method and a space |
| HttpRender.PrefixWaits | internal/httpmsg/parse.go:107-124 | a written head that arrives piece by piece is waited for at every piece, never given up, and taken exactly when it is whole |
| HttpRender.HostReads | internal/httpmsg/parse.go:236-251 | of a Host value with a port, without one, or with a bracketed literal, the hostname is what stands in front of the port |
| HttpLaws.WalkPrefix | internal/httpmsg/parse.go:180-210 | a walk that finds the end of the head depends on the octets up to it and on nothing else, wherever it stands |
| HttpLaws.Bounded | internal/httpmsg/parse.go:180-191 | MaxHead only cuts the walk short: within it the result is that of the whole buffer |
| HttpLaws.HeadLocality | internal/httpmsg/parse.go:129-173 | replacing everything after the head by any octets leaves the whole parse unchanged |
| HttpLaws.OffsetsNest | internal/httpmsg/parse.go:45-61 | every offset lies inside the header block, in order, on the octets it names |
| HttpLaws.NeedStands | internal/httpmsg/parse.go:107-124 | "complete", and "never HTTP" for a non-empty buffer, stand under every extension |
| HttpLaws.NeedOfNothing | internal/httpmsg/parse.go:107-110 | for the empty buffer "never HTTP" does not stand |
| HttpMangle.RequireHost | internal/httpmsg/mangle.go:45-57 | the shared refusals, and where the host stands |
| HttpMangle.HostSpell | internal/httpmsg/mangle.go:65-80 | a copy with the new spelling in place of the name, or the refusal |
| HttpMangle.HostDot | internal/httpmsg/mangle.go:85-101 | one dot after the hostname, or the refusal |
| HttpMangle.HostPad | internal/httpmsg/mangle.go:127-148 | a filler line of n octets before the Host line, or the refusal |
| HttpRender.RewritableWhen | internal/httpmsg/mangle.go:45-57 | a head can be rewritten if and only if it is whole and one of its headers names a host |
| HttpRender.RewritesWhen | internal/httpmsg/mangle.go:65-148 | each rewriter goes ahead if and only if it can and has something to say: another spelling, a hostname that is no literal and does not end in a dot, a filler within bounds |
| HttpMangle.PickFirst | internal/httpmsg/parse.go:158-168 | the first Host field with a hostname is the one kept, whatever is around it |
| HttpMangle.SpellKeeps | internal/httpmsg/mangle.go:65-80 | the re-parse is identical, every header but the renamed one is unchanged, and so is everything after the head |
| HttpMangle.DotKeeps | internal/httpmsg/mangle.go:85-101 | complete if and only if the head still fits MaxHead; then the same parse with one dot more, offsets behind it moved by one, every other header unchanged |
| HttpMangle.PadKeeps | internal/httpmsg/mangle.go:127-148 | complete if and only if the head still fits MaxHead; then the same parse n octets on, and the same headers with the filler before the host's |
| HttpReplay.ReplayableReason | internal/httpmsg/idempotent.go:25-65 | the loop stops at the first objection and reports it |
| HttpReplay.ReplayableMeans | internal/httpmsg/idempotent.go:25-65 | replayable if and only if the buffer is one whole head and nothing more, of an idempotent method, with no body, expectation or upgrade announced |
| HttpReplay.TokenMeans | internal/httpmsg/idempotent.go:90-104 | a header lists a token if and only if one of its parts between commas, trimmed and without regard to case, is that token |
| HttpReplay.RewriteKeepsReason | internal/httpmsg/idempotent.go:25-65 | the same answer for the same reason before and after every rewrite that leaves the head complete |
| TlsPad.WalkHelloExtensions | internal/ops/pad.go:194-241 | the loop finds the extension block and the extensions that tile it |
| TlsPad.ExtsTile | internal/ops/pad.go:224-238 | every extension lies inside its block |
| TlsPad.AddUint16 | internal/ops/pad.go:165-172 | the length in place grows by delta, or stays when it would not fit |
| TlsPad.AddUint24 | internal/ops/pad.go:174-182 | the same for three octets |
| TlsPad.FindName | internal/ops/pad.go:124-133 | the last server_name extension, unless there is padding |
| TlsPad.Rebuild | internal/ops/pad.go:138-162 | only the record length can still refuse: the two inner ones always fit |
| TlsPad.CheckMeta | internal/ops/pad.go:99-121 | the refusals that come before the hello is looked at |
| TlsPad.PadHello | internal/ops/pad.go:99-163 | the in-place code computes the specified rewrite and refuses exactly where it does |
| TlsPad.PadHelloKeeps | internal/ops/pad.go:99-163 | the three lengths grow by the same delta; version, random, session id, cipher suites and compression are unchanged; the new body walks to the old extensions with one padding of zeros before server_name and every extension's octets unchanged; what is outside the record is unchanged; the hostname starts at `to` |
| TlsHello.HelloWalks | internal/ops/pad.go:194-241 | round trip: every hello a client writes walks, to the extensions it was written with, each where it stands |
| TlsHello.PaddingIsWritten | internal/ops/pad.go:99-163 | on every hello a client writes, wherever its record stands: refused if and only if the padding is shorter than its header or the record would outgrow its limit; otherwise the result is, octet by octet, the record of the same hello with that padding extension in front of server_name |
| DriftCounters.WithDefaults | internal/observ/counters.go:187-222 | every option comes out positive: as it was, or the default where it was not |
| DriftCounters.Counters.constructor | internal/observ/counters.go:187-222 | no host, no total, no event |
| DriftCounters.Counters.Observe | internal/observ/counters.go:259-321 | files one event under its key; the table is within its cap and each display ring holds the host's last outcomes; a drift event is made if and only if enough hosts were judged, more than the rate of them escalated, and none was made within the cooldown |
| DriftCounters.Counters.Prune | internal/observ/counters.go:328-346 | the loops drop what is older than the window, and hosts with nothing left |
| DriftCounters.Counters.Evict | internal/observ/counters.go:349-361 | the cap holds, and those that go were least recently seen |
| DriftCounters.Counters.Rate | internal/observ/counters.go:369-394 | the two counts are of distinct hosts judged and escalated |
| DriftCounters.Counters.Evaluate | internal/observ/counters.go:398-418 | every drift event is at least the cooldown after each earlier one, on enough hosts and over the rate |
| DriftCounters.FiredExactly | internal/observ/counters.go:398-418 | a drift event is due against the last one exactly when it is against every one ever made |
| DriftCounters.TotalsCount | internal/observ/counters.go:273-294 | the totals count the whole history, each under its own heading, and add up |
| DriftCounters.PruneIsFilter | internal/observ/counters.go:328-346 | on ordered times, dropping old samples from the front is filtering the whole history |
| DriftCounters.FiledAgrees | internal/observ/counters.go:296-307 | filing and pruning take a table that agrees with the history to one that does |
| DriftCounters.CountersAgree | internal/observ/counters.go:259-418 | for events in order that never overfill the table: each host's window is the filter of everything ever filed, and the drift pair is the one computed from scratch |
| NetWatch.Watcher.Hold | internal/netwatch/watcher.go:802-814 | a hold is suspended once, when it was not on |
| NetWatch.Watcher.Release | internal/netwatch/watcher.go:816-828 | a hold is lifted once, when it was on |
| NetWatch.Watcher.ProbePortal | internal/netwatch/watcher.go:725-762 | a probe is made exactly when somebody insists or the last was long enough ago; after it the portal hold is on exactly when that probe said behind; one that could not decide says no, and lifts a hold that was on |
| NetWatch.Watcher.Settle | internal/netwatch/watcher.go:647-679 | the whole bracket, in order: suspend, quiesce, namespace, re-verify, probe, resume, lift |
| NetWatch.Watcher.OnUplinkLost | internal/netwatch/watcher.go:699-709 | one suspension however often the uplink is found missing |
| NetWatch.Watcher.OnUplinkBack | internal/netwatch/watcher.go:711-719 | lifts it when it was on |
| NetWatch.Watcher.OnChange | internal/netwatch/watcher.go:576-638 | the calls of each branch, in order: unreadable facts, lost uplink, refusal, the same network, another one; a probe whenever one is due; the uplink hold follows the uplink, the namespace the facts, and the run stops exactly on a fatal VPN |
| NetWatch.Watcher.Repoll | internal/netwatch/watcher.go:767-773 | probes, and re-verifies exactly when the portal has cleared |
| NetWatch.Run | internal/netwatch/watcher.go:442-522 | every input is handled, in order, by its whole reaction or poll, until a fatal one; the run then believes in the last network it could read and is suspended for the uplink exactly when the last reading found none. Every run keeps the trace laws: holds alternate, every namespace swap is part of one whole settle with a probe insisted on, nothing follows Stop |
| NetWatch.HoldsAlternate | internal/netwatch/watcher.go:174-182 | for each reason Suspend and Unsuspend alternate, starting with Suspend |
| NetWatch.SettleIsSuspended | internal/netwatch/watcher.go:640-679 | the settling hold is on at every call of a settle between its Suspend and its Unsuspend |
| NetWatch.UplinkBackGap | internal/netwatch/watcher.go:592-638 | in the reaction to another network, after the uplink hold is lifted there is a point with nothing suspended and the old id still believed if and only if that hold was the only one |
| NetWatch.BackElsewhere | internal/netwatch/watcher.go:592-638 | a whole run to that point: the uplink goes, and comes back on another network |
| Debounce.WithDefaults | internal/netwatch/watcher.go:348-366 | each duration as it was where it is positive, its default where not, and the cap at least the debounce |
| Debounce.Run | internal/netwatch/watcher.go:469-494 | the loop reacts exactly when the schedule's reference says |
| Debounce.OneWake | internal/netwatch/watcher.go:469-494 | the deadline never moves back within a burst |
| Debounce.EveryBurstOnce | internal/netwatch/watcher.go:469-494 | on every exact schedule each burst gets one reaction, at min(last + debounce, first + cap); no arrival waits longer than the cap, is lost, or counted twice |
| Debounce.ReactionComes | internal/netwatch/watcher.go:482-494 | left alone, a burst's timer fires at most twice and the reaction comes at the deadline |

## Left out

- JSON: a journal line is an abstract encoding that decodes back, holds no newline and has no decodable strict prefix.
- Torn or unsynced appends in a process that lives on: a failed append leaves nothing, and fragments come from crashes only.
- Two processes with the journal open at once, and Replay's skip of records whose owner is alive: one opener at a time.
- Sequence wrap-around at 64 bits, PIDs, start times and notes of records.
- DNS, PAC-file and interface operations of netstate.
- The primary service and the list of enabled services are fixed while the machine runs.
- Routes: the table is readable, a failed add adds nothing, and nobody else adds a route that a pending record of ours claims.
- Others change settings and routes only between operations or while no process is up.
- Managers.Manager.Do: takes an operation object that has not been prepared before, as every caller passes.
- RecoveryStack.StepKeepsStacked: excludes a record left pending short of a crash, for which it is false; RecoveryAlways.StepKeepsAlways excludes nothing.
- RecoveryTheorems.ReplayRecovers: takes the checks that close its records to pass; Checks.VerifyRevertedPasses says exactly when they do.
- RecoveryOriginals.OwedIsOriginal: says nothing of a crossed setting; RecoveryStack.ReachableApart says which runs cross none.
- Singleflight collapsing of parallel walks, round-trip smoothing, and the response window's length.
- Escalation.WalkDecided: takes a context that stays live; one that ends stops the walk at that rung.
- Sinkhole address matching is a flag of the answering connection; whether a strategy parses and applies to a message is a function of the rung.
- Store expiry, normalisation and eviction order are arbitrary losses between walks.
- Senders.Send: raw packets are emitted whole or not at all, and the wait of an aborted sleep is not recorded.
- Floating point: governor tokens, rates and times are reals; times elsewhere are integers.
- Octets of a request are characters of a string; the offsets are the same.
- HttpRender.RenderParses: is about heads with CRLF and one space behind each colon; what holds of every other head is in HttpLaws.
- TlsHello.PaddingIsWritten: is about hellos that end with their extensions; PadHelloKeeps covers octets behind them too.
- The message parser that finds the SNI: PadHelloKeeps takes its offsets as given and says what follows when they lie inside server_name.
- DriftCounters.Counters.Observe: keeps no strategy, attempt count or latency in the display ring.
- The sleep detector, the routing-socket reader and the portal timer's period; every reaction to them is modelled.
- NetWatch.Run: a handler with every hook set; a missing hook is a call that is not seen.
- Command line, configuration, rendering, logging, the control socket and the launch agent.
