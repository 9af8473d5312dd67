# What is proved here about the agent and the panel

A Dafny 4.11 model of the parts of the repository that must hold when calls fail, processes die and several
actors interfere. `dafny verify dfyconfig.toml` checks all of it.

- `TelemtUpdate.dfy` (with `Versions.dfy`): the durable update of telemt on one node. The node is a class; every
  external call may succeed, fail or be the moment the agent dies, and a call that fails or dies may have taken
  effect all the same. The ghost `faults` counts the calls that did not succeed, `trespass` records a step of
  an update or a recovery that touched the node without an active intent and its copies.
- `FleetRollout.dfy`: the panel's sequential rollout as a transition system over the durable row, the job
  table, the lock and its connection, any number of panels, and the log of Start calls. `Do` is one atomic
  step, `Run` any interleaving of steps, crashes, lost connections, stops and foreign jobs.
- `ApplyTelemt.dfy`, with the values it works on in `TelemtUsers.dfy`, `Quotas.dfy`, `NodeState.dfy`,
  `UserSteps.dfy`, `Undo.dfy` and `WebPolicy.dfy`: applying a desired state to a telemt node over an API with
  partial failures, a fingerprint file on disk and an undo record. `late` is the last call of an apply that was
  reported as failed and took effect all the same; `faults` counts what went wrong and `sent` the requests that
  change something.
- `Recovery.dfy`: automatic restarts and failovers, rate-limited through a bounded event list on disk.
- `RateLimit.dfy`, `Blocklist.dfy`, `TlsRecords.dfy`, `TomlLines.dfy` and `TomlServer.dfy`: the sliding-window
  limiter, the CIDR list, TLS record framing (section 5.1 of RFC 8446) and the editor of one TOML key.
- `Options.dfy`, `Characters.dfy` and `Sequences.dfy` are shared.

Methods follow the Go code and are proved against functions and invariants; the lemmas are about those.

## What the proofs turned up

- A base version that telemt reports as more than a version (`3.5.7 (ab)`) is recorded shortened
  and later compared with the whole report, so the recovery of an interrupted update never succeeds:
  `Versions.RecordedIsVerifiable` says exactly when it can, `TelemtUpdate.Node.LiveThenRecover` that nothing
  else stands in its way.
- docs/runbook.md:1149-1152 says that an update that ends with admission closed keeps its record open; the code
  closes it (internal/agent/telemtupdate.go:419-421). The model follows the code.
- An update that ends as refused leaves an active journal exactly if the write of the journal reported an error
  and took effect, after its rename. The node is then exactly as it was (`TelemtUpdate.Node.RunTelemtUpdate`).
- A rollback is never reported as rolled back on a node without a WEB runtime, also when the previous telemt is
  back and running, because it resumes as if it had paused (internal/agent/telemtupdate.go:656-667):
  `TelemtUpdate.Node.RollbackTelemt` says exactly when one without faults ends as rolled back.
- After a stop two Starts can still follow, not one: a panel that lost its connection between committing a
  dispatch and calling Start is overtaken by another (`FleetRollout.TwoStartsAfterStop`). Each belongs to a
  dispatch committed before the stop, to different nodes (`FleetRollout.EndIsDecisive`, `FleetRollout.PendingDispatches`);
  `FleetRollout.StartsAfterEndIff` and `FleetRollout.SingleStartIff` say exactly how many can follow, and
  `FleetRollout.SteadyRunsStartOnce` that it takes a lost connection.
- The minute between the end of a job and the next node is measured after the health reading, which may be
  older: `FleetRollout.ReadingAgeIff` says by how much.
- An apply can say that it was rolled back over a node that is not as it was: a request that is reported as failed
  and takes effect all the same is neither recorded for the undo nor as irreversible. `Undo.RollbackIff` says
  exactly when the report is right. A late creation or deletion of a user and a late patch of the profiles or
  the middle proxy always stay behind, a late patch of a user or of the WEB table if it made a difference; the
  decoy, the address, the options and the listeners are recorded before they are touched and come back, and the
  site is exchanged in one step. `Undo.LateCreationStays` is an example.
- Reverting to the previous desired state after a failed apply can leave users with the new one: the
  fingerprint file still names the old goal. `TelemtUsers.StaleAfterRevert` is the run,
  `TelemtUsers.SentReachesIff` the exact condition for one user, `ApplyTelemt.Agent.Apply` for an apply; a file
  that fits the desired state goes on fitting it through failed tries (`ApplyTelemt.Agent.ApplyUntilDone`).
- A user is reset twice for one period if the first reset's checkpoint is lost, or if an earlier period is applied
  in between (`UserSteps.WhenResetsRepeat`).
- The hourly cap of automatic actions relies on a list cut to fifty events; `Recovery.CapIff` gives the number
  of other events in an hour from which on it can be exceeded.
- Garbage collection changes an answer of the limiter exactly when the block is shorter than the window
  (`RateLimit.PruneIsInvisibleIff`); the server builds no such limiter.
- A network such as 169.0.0.0/8 is accepted although it covers link-local addresses;
  `Blocklist.SpecialCoveredIff` shows that this is the only kind of special address an entry can cover.
- Without a managed host, users that only other vhosts refer to are deleted
  (`UserSteps.IntegralAfterIff`).
- Undoing a WEB policy leaves an empty timeouts table where there was none (`WebPolicy.TimeoutsTableBackIff`).

## Model

| member | source | states |
|---|---|---|
| Versions.RecordedIsVerifiable | internal/agent/upgrade.go:102-120 | a recorded version verifies against the report it came from if and only if the report is nothing but a version, up to a leading v, case and spaces, or holds no version at all |
| Versions.BuildStringIsNotVerifiable | internal/agent/upgrade.go:102-120 | a concrete report that recovery can never verify again |
| Versions.ParsedIsNormal | internal/agent/upgrade.go:104-120 | the version found in a report is already in the normal form that comparisons use |
| Versions.ParsedIs | internal/agent/upgrade.go:102-120 | the version found in a report is the leftmost span that matches the pattern, and the longest from there; none is found exactly if nothing matches |
| Versions.NormalizeIff | internal/agent/upgrade.go:104-110 | the normal form is what is left without white space, a prefix "telemt ", white space again and a v, as a relation of texts |
| Versions.SameVersionIff | internal/agent/upgrade.go:112-115 | two versions are the same to the agent if and only if their normal forms are one text up to the case of letters, and not empty |
| Versions.SameTelemtVersionIff | internal/agent/telemtupdate.go:380-385 | the preflight and the panel take two versions for the same if and only if both spell one that is not empty, with or without white space around it and a v in front |
| TelemtUpdate.Node.CheckUpdateJournal | internal/agent/updatejournal.go:191-207 | passes only when the journal is readable and not active, and passes then unless a call fails |
| TelemtUpdate.Node.PrepareUpdateJournal | internal/agent/updatejournal.go:67-97 | at every point of interruption the journal is as before, or active with both copies matching its sums and the node untouched; if it fails, active exactly if the write reported an error and took effect; an unreadable journal is never overwritten |
| TelemtUpdate.Node.RecoverUpdate | internal/agent/updatejournal.go:99-188 | an active intent is closed only over the restored binary, config, running version and, with a WEB runtime, admission; success means that no call failed; without faults it is closed if and only if the recorded version verifies; a recovery that fails reports no outcome |
| TelemtUpdate.Node.UpdatePreflight | internal/agent/telemtupdate.go:327-378 | without faults passes exactly when the version and the URL are not blank, the sum is well formed, telemt runs another version and the node can drain where that is demanded; the plan is what the probe said, and nothing on the node changes |
| TelemtUpdate.Node.UpdateDrain | internal/agent/telemtupdate.go:452-491 | succeeds only on a status that is neither cancelled nor leaves a session, stream or websocket alive; without faults it gives up only on a status without a drain, a cancelled one, one over with something left, or when its time is up |
| TelemtUpdate.Node.SwapTelemtBinary | internal/agent/telemtupdate.go:518-540 | on success the staged binary is in place and the previous files are kept; never without an active intent |
| TelemtUpdate.Node.UpdateResume | internal/agent/telemtupdate.go:582-630 | success means that telemt was seen open, or closed where the update found it closed |
| TelemtUpdate.Node.RollbackTelemt | internal/agent/telemtupdate.go:634-668 | reports rolled back only over the previous binary and config, running, with the original admission and a WEB runtime; without faults exactly if the previous version can be verified, has a WEB runtime and admission comes back |
| TelemtUpdate.Node.PutInService | internal/agent/telemtupdate.go:303-324 | after the swap the run ends updated, admission closed, rolled back or rollback failed, and each outcome but the last delivers the node it names |
| TelemtUpdate.Node.ReplaceBinary | internal/agent/telemtupdate.go:303-313 | the binary is replaced only with admission closed wherever the node can pause or drain |
| TelemtUpdate.Node.Maintain | internal/agent/telemtupdate.go:284-324 | every end of the sequence delivers the node its outcome names; without faults and with a binary of the version asked for, with a WEB runtime where one is needed, only a drain can keep it from ending updated |
| TelemtUpdate.Node.UpdateSettled | internal/agent/telemtupdate.go:415-434 | a refused or a failed rollback is never settled; a failed run only over the saved binary and, with a WEB runtime, the recorded admission |
| TelemtUpdate.Node.RunTelemtUpdate | internal/agent/telemtupdate.go:247-324 | wherever it stops, an active journal stays recoverable; a run that is not refused leaves a closed journal only in the situations of the design, with the node each promises; a refused one leaves the node alone and an active journal exactly if its write reported an error and took effect. Without faults it is refused exactly where the request, the node or the journal is in the way; a good binary ends updated with the journal closed, or failed by a drain that did not finish; any other is rolled back exactly if the version before it can be verified, has a WEB runtime and admission can come back |
| TelemtUpdate.Node.StartTelemtUpdate | internal/agent/telemtupdate.go:196-225 | while an intent is active no second update starts and nothing of the first is overwritten |
| TelemtUpdate.Node.StartUp | internal/agent/run.go:30-36 | from only the files, recovery without faults closes an intent exactly when its base can be verified |
| TelemtUpdate.Node.Live | internal/agent/updatejournal.go:191-207 | over any sequence of updates, applies, WEB controls, restarts, crashes and reboots every active journal stays recoverable and no step touches the node unprotected |
| TelemtUpdate.Node.LiveThenRecover | internal/agent/updatejournal.go:99-188 | after any such run, a start-up without faults brings the node back, unless its base reports more than a version |
| FleetRollout.StepKeeps | internal/api/fleet.go:151-262 | every atomic step of every panel, the operator and the world keeps the invariant of the rollout |
| FleetRollout.StartedAtMostOnce | internal/api/fleet.go:184-261 | under any interleaving Start is called at most once per node |
| FleetRollout.RolloutOrder | internal/api/fleet.go:202-239 | every node before the cursor had reported the pinned version and was never dispatched, or was dispatched, a job of its own ended ok, it then answered as up and without a failed finding, and a minute went by; every dispatched node was known by another version and had answered as up and not in maintenance mode; none beyond the cursor was dispatched; complete means all of them |
| FleetRollout.RowMovesIff | internal/api/fleet.go:184-261 | a running rollout fails, completes, moves on, commits a dispatch or learns a job in a step of a panel if and only if the panel is connected and saw the reason: what fails it is a node that is gone, silent, down or in maintenance mode before the dispatch, a refused Start, a job not found or ended badly, and a node silent, down or with a failed finding after it |
| FleetRollout.GoesOnIff | internal/api/fleet.go:202-250 | a tick goes on towards a dispatch exactly if the node answers as up and not in maintenance mode, from its job exactly if that succeeded and is finished, and past it exactly if the node answers as up and without a failed finding |
| FleetRollout.EndIsDecisive | internal/api/fleet.go:115-132 | stopped, failed and complete are final, with no new dispatch; any later Start belongs to a dispatch committed before |
| FleetRollout.PendingDispatches | internal/api/fleet.go:251-261 | two Starts still pending are for different nodes, and only one of the panels is connected |
| FleetRollout.StartsAfterEndIff | internal/api/fleet.go:247-261 | after the end at most k more Starts follow, whatever happens, if and only if at most k panels have a dispatch committed and not yet called |
| FleetRollout.SingleStartIff | internal/api/fleet.go:247-261 | at most one more Start follows if and only if no two panels have a dispatch pending |
| FleetRollout.SteadyRunsStartOnce | internal/api/fleet.go:247-261 | if no panel loses its connection between committing a dispatch and calling Start, at most one Start follows the end of the rollout |
| FleetRollout.TwoStartsAfterStop | internal/api/fleet.go:251-261 | a run in which two Starts follow a stop |
| FleetRollout.HealthMayBeReadEarly | internal/api/fleet.go:217-235 | whenever a tick takes its reading within the minute after the job, a slow answer lets the node pass on it |
| FleetRollout.ReadingAgeIff | internal/api/fleet.go:217-235 | over all runs in which no tick takes longer than d seconds from the reading to the check, every updated node was well at least m seconds after its job if and only if m is 0 or m + d is at most the minute; the other direction is a run from the start |
| TelemtUsers.MatchesIff | internal/agent/telemt.go:128-143 | the comparison holds exactly when telemt has the policy |
| TelemtUsers.PatchGivesPolicy | internal/agent/telemt.go:99-125 | the patch request brings any user to the policy and touches the secret only when asked to |
| TelemtUsers.CreateGivesPolicy | internal/agent/telemt.go:72-97 | a user created by the request has the policy and the secret |
| TelemtUsers.SentReachesIff | internal/agent/telemt.go:1022-1067 | what is sent for a user brings it to its goal if and only if the fingerprint file fits it |
| TelemtUsers.NothingSentIff | internal/agent/telemt.go:1039-1047 | nothing is sent exactly for a user that is there, whose secret the file has, and whose policy the file has or, where it says nothing, telemt has |
| TelemtUsers.StaleAfterRevert | internal/agent/telemt.go:1039-1047 | after a failed apply of a new goal, applying the old one sends nothing and leaves the new one |
| NodeState.ManagedIff | internal/agent/telemtweboptions.go:15-38 | the managed vhost is the first if no host is named, and else the only one of that host; there is none in any other case |
| Quotas.ResetOncePerPeriod | internal/agent/telemt.go:1024-1038 | no user is reset twice for one period or for the first period it was asked for |
| Quotas.ResetIsSound | internal/agent/telemt.go:1024-1036 | a reset into a later period with its checkpoint written keeps the reset log sound |
| UserSteps.WhenResetsRepeat | internal/agent/telemt.go:1024-1036 | runs of two and three applies from an empty file: applying a period again resets nothing, but the user is reset twice for it if the first checkpoint did not reach the file, or if an earlier period was applied in between |
| UserSteps.TruthfulFitsAll | internal/agent/telemt.go:184-224 | with a file that tells the truth about every user any desired state can be applied |
| UserSteps.IsArranged | internal/agent/telemt.go:1070-1138 | once every user was sent what was due, patching the profiles and deleting the unwanted leaves the desired users and the spared ones, unchanged, and reaches every goal exactly if all were reached |
| UserSteps.GivenIff | internal/agent/telemt.go:1004-1067 | once everything was sent the users have their goals if and only if the file fitted all of them |
| UserSteps.SteppedFits | internal/agent/telemt.go:1004-1067 | wherever the sending stops, a file that fitted the desired state still does |
| UserSteps.IsQuiet | internal/agent/telemt.go:1039-1138 | what was arranged and recorded needs nothing more |
| UserSteps.IntegralAfterIff | internal/agent/telemt.go:1113-1138 | afterwards every profile still names a user if and only if a host is managed or the other vhosts name desired users only |
| ApplyTelemt.Agent.ResetIfDue | internal/agent/telemt.go:1024-1038 | resets exactly a user whose period moved on, checkpoints it without touching the old fingerprints, and notes it as irreversible unless the reset itself was told to have failed |
| ApplyTelemt.Agent.GiveUser | internal/agent/telemt.go:1004-1067 | success sends what is due and brings the user to its goal exactly if the file fitted it; no other user changes; nothing is sent exactly when nothing is due |
| ApplyTelemt.Agent.PutProfiles | internal/agent/telemt.go:1070-1111 | the managed vhost has exactly the desired profiles, after a snapshot of the vhosts, and no profile loses its user; a request is sent exactly where they differ |
| ApplyTelemt.Agent.DeleteUnwanted | internal/agent/telemt.go:1126-1138 | deletes exactly the listed users nobody wants, and keeps every profile backed if all name wanted users |
| ApplyTelemt.Agent.ReconcileUsers | internal/agent/telemt.go:963-1146 | without a fault it succeeds if and only if there is a managed vhost and no limit is over a ceiling of the node; success leaves exactly the desired and the spared users with the desired profiles; it is convergence if and only if the file fitted the goals or could not be read; once recorded, the next run sends and writes nothing; a failure leaves a file that fitted fitting, and spared users alone; no forward step leaves a profile without its user where the vhost is managed |
| WebPolicy.PatchIsEmptyIff | internal/agent/telemt.go:1501-1571 | there is nothing to patch exactly when every key of [web] and of its timeouts reads as the field of the policy it is for, key by key |
| WebPolicy.PatchReaches | internal/agent/telemt.go:1501-1571 | after merging the patch every key of [web] and of its timeouts reads as its field, and carriers that were patched are the wanted ones alone |
| WebPolicy.PatchIsSparse | internal/agent/telemt.go:1501-1571 | with any key of the patch left out the node would not carry the policy |
| WebPolicy.PatchLeavesTheRest | internal/agent/telemt.go:1501-1571 | keys the policy does not speak of stay as they are, in [web] and in its timeouts |
| WebPolicy.PatchIsFixpoint | internal/agent/telemt.go:1485-1497 | after the merge a second look finds nothing to patch, also when telemt appended the fallback carrier |
| WebPolicy.UndoRestores | internal/agent/telemt.go:1611-1634 | merging the undo restores every key that was touched and changes no other, null counting as absent, also when telemt appended the fallback; a key fails to come back if and only if it is a list of carriers that was not patched and got the fallback |
| WebPolicy.TimeoutsTableBackIff | internal/agent/telemt.go:1622-1630 | the timeouts table as a whole comes back exactly when it was a table or nothing in it was patched |
| WebPolicy.TelemtWebPolicyPatch | internal/agent/telemt.go:1501-1571 | the patch built key by key is that sparse patch: merged, the node carries the policy, and it is empty exactly where the node does already |
| Undo.WebComesBack | internal/agent/telemt.go:672-678 | the kept undo brings every key of the WEB table and its timeouts back |
| Undo.CreatedGoAway | internal/agent/telemt.go:679-682 | deleting the users this apply created leaves the users it found |
| Undo.LowerAllIff | internal/agent/telemt.go:451-460 | two lists of domains read the same if and only if they are the same one by one but for the case of letters |
| Undo.RollbackIff | internal/agent/telemt.go:616-706 | a rollback that restored all it recorded brings the node back if and only if the call that was told to have failed, if one took effect, was one on a vhost or the listeners or made no difference; the listeners come back in any case, the vhosts but for the profiles |
| Undo.LateUsers | internal/agent/telemt.go:1004-1067 | after such a rollback the users are those of the start exactly if the late request on a user was a patch that changed nothing |
| Undo.LateCreationStays | internal/agent/telemt.go:1004-1020 | a user whose creation was told to have failed, and took effect, is still there after a rollback that restored everything |
| ApplyTelemt.Agent.ReconcileDecoy | internal/agent/telemt.go:897-954 | without a fault it succeeds exactly if there is a managed vhost or nothing is asked; that vhost then has the decoy of the plan, no other vhost and nothing else of it changes, nothing is sent where it had it, and the apply stays revertible |
| ApplyTelemt.Agent.ReconcileListeners | internal/agent/telemt.go:329-432 | without a fault it succeeds exactly if a port that is asked for finds a Fake-TLS listener; the domains and the port of the first of them are then as wanted, a port in the links follows, no other listener changes, nothing is sent where all is there, and after each of up to three patches the undo record reads back as the start |
| ApplyTelemt.PortIff | internal/agent/telemt.go:285-296 | the port that is compared is that of the first Fake-TLS listener, 0 without one |
| ApplyTelemt.Agent.ReconcilePublicAddr | internal/agent/telemt.go:474-520 | the managed vhost has the address, nothing else changes, nothing is sent where it had it, a change is noted for the restart, and the apply stays revertible |
| ApplyTelemt.Agent.ReconcileMiddleProxy | internal/agent/telemt.go:522-550 | the middle proxy is on exactly with a sponsor tag, nothing is sent where it was so, and the apply stays revertible |
| ApplyTelemt.Agent.ReconcileWebPolicy | internal/agent/telemt.go:1576-1656 | the node carries the policy and the managed vhost its options, other keys and other vhosts stay, nothing is sent where nothing differs, and the apply stays revertible whichever step snapshots the vhosts |
| ApplyTelemt.Agent.RollBack | internal/agent/telemt.go:616-706 | reports restored only with no irreversible mutation; the node is then as it was if and only if no call that was told to have failed left something behind; the site and the listeners are in any case, and the vhosts but for a late patch of the profiles. Without a fault everything recorded is undone, and it reports restored if and only if nothing irreversible was done |
| ApplyTelemt.Agent.Apply | internal/agent/telemt.go:560-845 | for every request: without a fault it is applied if and only if there is a managed vhost where one is needed, no limit over a ceiling and a listener for the port, and rolled back else; one reported as applied serves exactly the users and profiles, site, decoy, listeners, address, middle proxy and policy asked for, and leaves what the request does not speak of, with the goals reached if and only if the file fitted them or could not be read; applying it again then sends nothing; one reported as rolled back left the node as it was if and only if no request told to have failed took effect behind the undo, the site and the listeners in any case, and reset no quota unless a reset is not known to be written down; a refused one changed nothing; none touches another vhost or a user other vhosts refer to |
| ApplyTelemt.Agent.CarryOut | internal/agent/telemt.go:687-845 | the steps without the rollback: wherever they stop the node can be brought back, and without a fault they get to the end exactly if the request can be met |
| ApplyTelemt.Agent.ApplyUntilDone | internal/agent/telemt.go:560-845 | retrying the same desired state through failures and rollbacks ends, on success, with everything it asks for, every user at its goal if the file fitted at the start, and succeeds if the request can be met and nothing goes wrong; users that other vhosts refer to survive every try unchanged |
| ApplyTelemt.Agent.ApplyAll | internal/agent/telemt.go:560-845 | over any sequence of different requests every result is true of the node it was given for, applies that were all refused or undone without a late effect left nothing behind, and no user is reset twice for one period, unless a checkpoint may be missing or a period moved back; periods that never move back count none |
| ApplyTelemt.UndoneRun | internal/agent/telemt.go:616-706 | a run of applies that all say that they were refused, or undone with no late effect that stays, leaves the node of its start |
| Recovery.AttemptsAreSpaced | internal/agent/recovery.go:304-322 | any two attempts are at least the cooldown of the later one apart |
| Recovery.CapIff | internal/agent/recovery.go:296-320 | the hourly cap holds in every history if and only if at most 50 minus twice the cap other events fall into an hour |
| Recovery.AnyHourIsCapped | internal/agent/recovery.go:296-320 | under that condition any stretch of less than an hour holds at most the cap |
| Recovery.OverrunBreaksTheCap | internal/agent/recovery.go:231-241 | for every cap a legal history with one attempt too many |
| Recovery.Agent.MayAct | internal/agent/recovery.go:296-315 | lets the agent act only within threshold, cooldown and what the list shows of the cap, and always when it was due before the tick |
| Recovery.Agent.SaveRecoveryLocked | internal/agent/recovery.go:29-38 | a write that succeeds has the whole state on disk, one that fails either the old or the new |
| Recovery.Agent.Start | internal/agent/recovery.go:40-62 | memory is what the file says; without one, or if it cannot be read, the policy acts on nothing and a new history begins |
| Recovery.Agent.RecoveryTick | internal/agent/recovery.go:243-341 | every restart or failover has its own attempt on disk before it, within threshold, cooldown and cap, and its result after it; an act is only for an active unit without an open journal, maintenance, closed admission or cancelled context; a restart only for a control API that does not answer or fails with at least 500, a failover only for upstreams all unhealthy within 120 seconds, which goes before a restart; one that is due is announced, and made unless the attempt could not be saved or the agent died; any other tick writes nothing |
| Recovery.Agent.ConfigureReliability | internal/agent/recovery.go:64-149 | a policy is taken over, with the history kept, if and only if it is within the bounds, has the addresses it needs, no update is open and routing goes back to manual control only from the direct route, unless the route or the file fails; the route is changed exactly where the policy names another or the primary is to be restored; a refused one changes nothing in memory |
| Recovery.Agent.ActsKeepTheCooldown | internal/agent/recovery.go:304-322 | in every state, across restarts, the acts of the history on file have their attempts there, a cooldown apart |
| Recovery.Agent.ActsKeepTheCap | internal/agent/recovery.go:296-320 | in every state no stretch of less than an hour holds more acts than the cap, under the condition of CapIff |
| Recovery.Agent.TicksByDefault | internal/agent/recovery.go:40-62 | after a start without a readable file the agent does nothing and writes nothing, whatever it sees, until a policy is configured |
| RateLimit.AtMostMaxPerWindow | internal/api/ratelimit.go:59-87 | with a monotone clock no window holds more than max allowed calls of a key |
| RateLimit.TrippedIsBlocked | internal/api/ratelimit.go:77-87 | a key that trips the limit is refused for the whole block |
| RateLimit.AlwaysLetThroughIff | internal/api/ratelimit.go:59-87 | a key is let through every time if and only if no window holds more than max of its calls |
| RateLimit.StartsAfresh | internal/api/ratelimit.go:69-75 | after its block a key is answered as if it had never called |
| RateLimit.PruneIsInvisibleIff | internal/api/ratelimit.go:27-48 | a collection changes no answer if and only if the block is at least the window or nothing is let through anyway |
| RateLimit.KeysAreIndependent | internal/api/ratelimit.go:59-87 | the answers of a key depend on its own calls only |
| RateLimit.LimiterIsBounded | internal/api/ratelimit.go:59-87 | the bound per window holds for every key of the shared limiter |
| RateLimit.IpLimiter.Prune | internal/api/ratelimit.go:27-48 | afterwards no block has expired and every key without one has an attempt in the window; nothing else is dropped, and every key stands for its gate without collection |
| RateLimit.IpLimiter.Blocked | internal/api/ratelimit.go:51-56 | answers whether the key's block is running |
| RateLimit.IpLimiter.Allow | internal/api/ratelimit.go:59-87 | answers and moves on like the limiter with prune removed, and every thousandth call sweeps |
| RateLimit.IpLimiter.Serve | internal/api/ratelimit.go:59-87 | over a whole run every answer is that of the limiter with prune removed |
| Blocklist.OverlapsIff | internal/blocklist/blocklist.go:98-104 | two networks overlap exactly when they share an address, and then the shorter prefix contains the longer |
| Blocklist.SameIff | internal/blocklist/blocklist.go:95-98 | masked prefixes are equal exactly when they cover the same addresses |
| Blocklist.ParseOfFormat | internal/blocklist/blocklist.go:65-70 | the stored text of every network Parse returns parses to it again, and is a bare address exactly for a single host |
| Blocklist.ParseIs | internal/blocklist/blocklist.go:31-62 | an entry that names a network is refused as too wide below /8 or, for IPv6, /16, else as special if its first address is unspecified, loopback, multicast or link-local, by its bytes, and else gives exactly that network |
| Blocklist.NotAddressIff | internal/blocklist/blocklist.go:31-49 | an entry is refused as no address exactly if it is unreadable or has a zone |
| Blocklist.ParseCoversTheSame | internal/blocklist/blocklist.go:31-62 | an entry stands for exactly the addresses of its network, IPv4-mapped ones for the IPv4 addresses they map |
| Blocklist.SpecialCoveredIff | internal/blocklist/blocklist.go:54-60 | an accepted network covers a special address exactly when it is an IPv4 network wider than /16 around 169.254.0.0 |
| Blocklist.AcceptedIff | internal/blocklist/blocklist.go:73-112 | a list is accepted exactly when it has at most 2000 entries, every one parses and they are pairwise disjoint |
| Blocklist.UnflaggedAreDisjoint | internal/blocklist/blocklist.go:87-108 | in any list the entries without a problem share no address |
| Blocklist.FaultSays | internal/blocklist/blocklist.go:94-104 | every message, not an address, too wide, special, same as, covered by or covers, is true of the entry it is put at, and a clash is with the first earlier entry without a problem that shares an address |
| Blocklist.StoredForm | internal/blocklist/blocklist.go:109-117 | what is stored covers the same addresses entry by entry, and normalising it again returns it unchanged |
| Blocklist.Normalize | internal/blocklist/blocklist.go:73-118 | the loops report exactly the faults of each entry and return the stored form exactly when there are none |
| TlsRecords.NextRecordIff | internal/protocolprobe/faketls.go:67-81 | what is taken as a record is exactly a header of version 3.3 with a length of 1 to 18432 and as many bytes behind it |
| TlsRecords.MalformedIff | internal/protocolprobe/faketls.go:67-81 | a header is refused exactly for another version or a length of none or more than 18432 bytes |
| TlsRecords.RecordsAreFull | internal/protocolprobe/faketls.go:163-173 | each record of a Write takes 16384 bytes or what is left |
| TlsRecords.WireIsFramed | internal/protocolprobe/faketls.go:156-175 | any Writes are one change-cipher-spec and then records of 1 to 16384 bytes the reader accepts, with the written bytes as payload |
| TlsRecords.DeliverTakes | internal/protocolprobe/faketls.go:177-191 | a Read takes the next bytes off what is left, at least one if there is room and any left |
| TlsRecords.ReadsReturnThePayload | internal/protocolprobe/faketls.go:177-191 | Reads with room return the payload in order without gap or repetition, and all of it eventually |
| TlsRecords.RoundTrip | internal/protocolprobe/faketls.go:156-191 | over the data records the Reads return exactly the concatenation of what was written |
| TlsRecords.LeadingSpecIsRefused | internal/protocolprobe/faketls.go:184-186 | a reader of the same stream must start behind the change-cipher-spec |
| TlsRecords.FakeTlsConn.ReadTlsRecord | internal/protocolprobe/faketls.go:67-81 | takes the first record off the stream or fails on a short or malformed one |
| TlsRecords.FakeTlsConn.Write | internal/protocolprobe/faketls.go:156-175 | it succeeds exactly if no send fails; success has put the records of the bytes on the wire, failure some beginning of them |
| TlsRecords.FakeTlsConn.Read | internal/protocolprobe/faketls.go:177-191 | returns the next bytes of buffer and records, or fails |
| TlsRecords.FakeTlsConn.ReadAll | internal/protocolprobe/faketls.go:177-191 | a sequence of Reads returns what the round trip speaks of |
| TlsRecords.FakeTlsConn.WriteAll | internal/protocolprobe/faketls.go:156-175 | a sequence of Writes in which no send fails puts exactly the framed bytes on the wire |
| TomlLines.HeaderIff | internal/agent/telemtcapacity.go:28-28 | the header scan accepts exactly the lines of the regular expression, as a concatenation |
| TomlLines.TableIff | internal/agent/telemtcapacity.go:29-29 | the scan for any table header accepts exactly the lines of its regular expression |
| TomlLines.MatchIff | internal/agent/telemtcapacity.go:30-30 | the key scan returns exactly the groups of the regular expression |
| TomlLines.ParseOfFormat | internal/agent/telemtcapacity.go:62-79 | every 64-bit number printed parses back as itself |
| TomlLines.ParseIff | internal/agent/telemtcapacity.go:62-65 | what reads as a 64-bit number is exactly a sign or none and decimal digits of its value |
| TomlLines.FormatIs | internal/agent/telemtcapacity.go:79-79 | a number is written as its digits without leading zeros, with a minus below zero |
| TomlLines.UnderscoresDoNotCount | internal/agent/telemtcapacity.go:62-62 | an underscore in a number does not count, wherever it stands |
| TomlServer.SplitOfJoin | internal/agent/telemtcapacity.go:74-94 | joined lines split into the same lines |
| TomlServer.JoinOfSplit | internal/agent/telemtcapacity.go:74-94 | a text is the join of its lines, byte for byte |
| TomlServer.SetLinesLaw | internal/agent/telemtcapacity.go:73-95 | setting fails only without the table; it rewrites the first key line keeping indentation and comment, or inserts one behind the header; every other line stays in its place |
| TomlServer.GetAfterSet | internal/agent/telemtcapacity.go:54-95 | reading after setting v returns v |
| TomlServer.SetTwice | internal/agent/telemtcapacity.go:73-95 | setting v and then w equals setting w |
| TomlServer.SetIsIdempotent | internal/agent/telemtcapacity.go:73-95 | setting the value that is there changes nothing, byte for byte |
| TomlServer.EditorLaws | internal/agent/telemtcapacity.go:54-95 | for every text: both directions fail exactly without a server table; reading returns what was set; the last write decides the text and writing it again changes nothing; the one line, its indentation and comment, and the place of an insertion are those of SetLinesLaw |
| TomlServer.ReadsTheKey | internal/agent/telemtcapacity.go:54-70 | for the first server header and the table up to the next header, the reader parses the value of the first key line in it, without its underscores |
| TomlServer.ReadsTheDefault | internal/agent/telemtcapacity.go:54-70 | in a table without a key line the reader finds 10000 |
| TomlServer.WritesTheKey | internal/agent/telemtcapacity.go:73-89 | the first key line of the table becomes indentation, key, number and comment; every other line stays |
| TomlServer.WritesANewKey | internal/agent/telemtcapacity.go:90-94 | without one the line is added right behind the header; every other line stays |
| TomlServer.MaxConnections | internal/agent/telemtcapacity.go:54-70 | the reading loop returns the value of the first key line, the default without one, or the error |
| TomlServer.SetMaxConnections | internal/agent/telemtcapacity.go:73-95 | the editing loop computes the set of the laws |

## Left out

- TelemtUpdate.Node.RecoverUpdate: without faults it may still stay open, exactly when the recorded version cannot be verified; that is the code's behaviour, stated as an equivalence.
- Recovery.AnyHourIsCapped: stated for at most 50 - 2 * m other events in the hour before any attempt, which Recovery.CapIff shows to be exact.
- Recovery.Agent.ActsKeepTheCooldown: speaks of the history on file; acts before a file that could not be read and was written over are not compared with those after it, because the agent has forgotten them.
- Quotas.ResetOncePerPeriod: holds as long as no reset was left without a checkpoint known to be written and no period moved back, which ApplyTelemt.Agent.ApplyAll carries through a run and UserSteps.WhenResetsRepeat shows to be needed.
- ApplyTelemt.Agent.ReconcileListeners: domains are compared in lower case as the agent reads them, for ASCII letters.
- The capacity step of an apply and its separate rollback (internal/agent/telemtcapacity.go:132-228), the tproxy branch of Apply, the record of loaded WEB prefixes.
- Downloads and unpacking of releases, systemctl, readiness polling and timeouts: each a step that succeeds or fails.
- A death of the agent in the middle of an apply is not an outcome of its own: it leaves what a rollback leaves whose calls all fail without effect.
- Spontaneous restarts of telemt and changes by others while the agent holds its maintenance lock.
- What a node's health report says beyond being up, in maintenance or with a failed finding; when a finding counts as failed is the panel's reliability package.
- Whether telemt has a WEB runtime is a property of the build; capabilities beyond that are whatever the probe says.
- Update step messages, log lines, event texts, the panel's HTTP and gRPC layers, SQL beyond the guarded updates of the rollout row.
- netip's text grammar: an entry is what netip reads in it, an address or a prefix as bits.
- SHA-256 is an injective function; file modes, owners and directories are not modelled.
- The form of SOCKS addresses in a reliability policy, and the route patches of applyEgress: a failover succeeds or fails.
- The handshake of the Fake-TLS probe; deadlines and closing of its connection.
- Vhosts, users and profiles are records of the fields the agent touches; vhost entries that are not tables are not modelled.
- Durations and times are integers; the clock never runs backwards.
