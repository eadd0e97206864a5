# The lifecycle of a task in go-mesos-executor, modelled and proved

An executor launches one container, watches it, reports its states to the Mesos agent, opens the
host's firewall for it, and takes all of this down again. This project models that life in three
connected parts and proves what holds over whole runs.

## The parts

**The protocol** (`FailureCounter`, `Protocol`, `ProtocolInvariant`, `ProtocolSafety`,
`ProtocolHistory`, `ProtocolProgress`, `ProtocolReturn`, `ProtocolHooks`, `ProtocolWitness`,
`Ledger`). The event loop, the stop-signal handler, `healthCheck`, `waitContainer`, `Checker.Run`, its ticker and its grace timer are one interleaved
transition system with a program counter per goroutine. A send and its receive on an unbuffered
channel are one joint step, a `select` is a choice, and a goroutine whose send nobody receives
stays where it is. One inductive invariant carries the results: the shape of every conversation on
the channels, at most one tearDown past its `Quit`, the exact condition under which a waiting
tearDown can still get through, the exact condition under which `Execute` can still return, and the
failure counter as a function of the history of checks; `ProtocolHistory` reads that history, and why
a tearDown was begun and what it did, off the steps of the run itself.
The map of unacknowledged updates is a second machine in which "the agent accepted the call" and
"the update is in the map" are different moments.

**The firewall hooks** (`GoStrings`, `Rules`, `Tables`, `Conservation`, `ChainOrder`, `Host`,
`IptablesHook`, `AclHook`, `Isolation`, `AclIsolation`). Tables are maps from chains to lists of rules, and a rule is
the list of words that rendering a template and splitting it on spaces produces. `Append` puts a rule at the
end of an existing chain, `Delete` removes the first equal one, and either may fail for reasons of
its own. The generators are methods with the loops and the early returns of the source, proved to
be one pass over a list of rules; about such passes it is proved what undoes what, what is
conserved, and that two executors on one host do not meet.

**The hook manager and the handlers** (`HookManager`, `Restore`, `Executor`). Registering and
sorting hooks, running them under the two error disciplines, and the handlers of the executor, each
from beginning to end. They join the parts: wherever a launch fails, and whatever hooks are enabled
in whatever order, the tearDown leaves every chain of the host as the sequence of rules it was. The
launch has the stages of the protocol, and the map of the executor is kept in step with the ledger.

`Options` and `Status` hold two datatypes that several parts use.

## What is assumed of the environment

- One LAUNCH event per executor, unique status UUIDs, and acknowledgments only for updates whose
  call was accepted.
- A fixed configuration, and task information that does not change after the pre-create hooks.
- A check that was started yields exactly one result; while it runs, the checker does nothing else.
- The driver's `Append` puts a rule at the end of an existing chain and `Delete` takes the first
  equal one out of it; anything else fails and changes nothing (`Host.Machine.Do`).
- For the restoration results: none of the rules is in the tables before the launch, and the
  driver calls of the tearDown succeed where iptables can carry them out. What happens without
  these two is stated in `Conservation` and `ChainOrder`.
- For the same results: the pre-stop hooks come after the post-run hooks. Over all interleavings that
  is so for every tearDown except that of the stop-signal handler when it has found no checker, and
  for that one exactly if the event loop is not at a stage of a launch up to the post-run hooks nor
  decoding the event that may begin it (`ProtocolHooks.TooEarlyIff`). When it comes too early, the
  tables then hold, besides what was there, exactly what the post-run hooks append afterwards, which
  may be nothing, until another tearDown runs its pre-stop hooks (`Restore.PreStopBeforePostRun`).
- And for the same results: the process lives until the tearDown is over. Nothing in the code sees to
  that. `handleKill` sets `Shutdown` before it tears down, and whenever `Execute` can return at all,
  it can do so before the tearDown of another goroutine moves (`ProtocolReturn.OutrunIff`,
  `ProtocolReturn.SignalOutrun`).
- Goroutines may go on between the return of `Execute` and the end of the process, so safety is proved
  of such runs too; progress is claimed only of states in which `Execute` has not returned, and
  before it does.

## What the code does that its documentation does not say

- `README.md` of the repository describes stopping as `Done`, then `Quit`, then `Exited`. After
  `Done`, `healthCheck` kills the task and returns, so nobody receives `Exited`: it is only ever
  delivered on the `Quit` path (`ProtocolSafety.TraceShape`).
- `throwError` and the `handleKill` that `Execute` calls after it both send `Quit` if the checker is
  installed, and only one `Quit` is ever accepted. So after a failed launch `Execute` can return
  exactly if the failure came before the checker was installed; when the agent refuses the RUNNING
  update of a task with a health check, it blocks for good (`ProtocolReturn.FailedLaunchReturnsIff`,
  `ProtocolReturn.RefusedRunningHangs`). With the checker installed, the same happens after a KILL whose
  update is refused, and after a decoding error once another tearDown had its `Quit` accepted; `ProtocolReturn.ReturnIff` is
  the condition for every reachable state.
- A tick that is already in the ticker's buffer when `ticker.Stop()` runs can freeze the tearDown
  after `Done`, whatever the threshold (`ProtocolWitness.StaleTickFreezes`); without such ticks, and
  with a supported check type, a waiting tearDown can always get through
  (`ProtocolProgress.ProgressWithoutStaleTicks`). With an unsupported check type none ever does
  (`ProtocolProgress.UnsupportedNeverTearsDown`). `ProtocolWitness.AlwaysProgressIff` is the condition
  on the configuration alone.
- An acknowledgment that overtakes the insert of another goroutine is lost, and the update is sent
  again at every re-subscription (`Ledger.EarlyAckIsResent`).
- An append pass that stopped early, followed by the delete pass, can delete a rule that was there
  before: exactly if an equal one was among the rules not reached (`Conservation.RulesRestoredIff`).
  And even with all rules kept, their order may change (`Conservation.OrderMayChange`). The exact
  condition for chains to be as they were, order included, is `ChainOrder.ChainsRestoredIff`: for any
  two rules of a chain, the copy that will stand for the first is in front of the copy that will stand
  for the second. For a single rule: nothing different stands behind a copy of it.
- A threshold of 0 consecutive failures does not mean "never": the counter meets it after 2^32
  counted failures in a row (`FailureCounter.Limit`, `FailureCounter.Counter.Run`).

## Model

| member | source | states |
|---|---|---|
| FailureCounter.StreakIsLongestSuffix | healthcheck/healthcheck.go:104-125 | the streak of a history is the length of its longest suffix of unhealthy checks made with the grace flag set, characterised both ways |
| FailureCounter.GraceOverMeans | healthcheck/healthcheck.go:59-69 | a check finds the grace period over exactly if the timer fired by then or an earlier check was healthy, so the flag is monotone |
| FailureCounter.AdvanceCounts | healthcheck/healthcheck.go:105-114 | the 32-bit counter keeps showing the streak modulo 2^32 whatever happened before; this needs the monotone flag |
| FailureCounter.AdvanceReaches | healthcheck/healthcheck.go:118 | until the limit was met, the equality test succeeds exactly when the streak meets its limit, with no overflow before that |
| FailureCounter.NoSecondReach | healthcheck/healthcheck.go:114-118 | one further check right after the limit was met does not meet it a second time |
| FailureCounter.NeverReachedIsBelow | healthcheck/healthcheck.go:114-118 | a streak cannot jump over its limit: while it was never met, it is below it |
| FailureCounter.Counter.Manage | healthcheck/healthcheck.go:105-125 | the new counter, the new flag and whether Done is attempted, all three |
| FailureCounter.Counter.Run | healthcheck/healthcheck.go:89-125 | over any results and any firing of the timer: Done is attempted exactly after the first check at which the streak of the whole history meets its limit, and never if there is none |
| ProtocolInvariant.StepInv | executor/executor.go:403-464 | every step of every goroutine keeps the invariant that ties program counters, channel phase, counter and the owner of the accepted Quit together |
| ProtocolInvariant.ReachableInv | executor/executor.go:142-206 | that invariant holds in every reachable state |
| ProtocolInvariant.CheckYieldsCounter | healthcheck/healthcheck.go:104-127 | in the protocol, with the timer as a separate goroutine, a check keeps counter and history in step, also when a stale tick starts it after Done |
| ProtocolInvariant.MeetQuitKeeps | executor/executor.go:457-459 | the goroutine whose Quit is accepted, while none had been, becomes the owner and the only one past the send |
| ProtocolHistory.ChecksAsRun | healthcheck/healthcheck.go:93-127 | in every run: entry i of the history has the result of the i-th check and a flag that is set if and only if the timer fired before that check or an earlier one was healthy; the checker's flag is set if and only if the timer has fired or some check was healthy; and every value on Healthy is the result of the check it reports |
| ProtocolHistory.TicksAsRun | healthcheck/healthcheck.go:50-98 | in every run: the checker starts and wakes up at most once, the timer fires at most once after that, every taken tick starts one check, no tick is taken that the ticker did not send, and every report to healthCheck leads to one RUNNING update |
| ProtocolHistory.TearDownsAsRun | executor/executor.go:302-311 | in every run: which terminal state each goroutine is about to report, by what began its tearDown; Shutdown is set if and only if a signal, a KILL, an error, Done or a failed launch's tearDown came; every reported tearDown made its four steps, with a checker or without; the owner is the one whose Quit was met |
| ProtocolSafety.TraceShape | healthcheck/healthcheck.go:91-135 | in every interleaving the completed rendezvous are Healthy*, then nothing, Quit, Quit Exited, Done, or Done Quit |
| ProtocolSafety.TearDownAtMostOnce | executor/executor.go:455-464 | among all tearDowns that saw the checker, at most one is past Quit, and pre-stop hooks, stop, post-stop hooks and one terminal update happen at most once between them, in that order |
| ProtocolSafety.LosersStayBlocked | executor/executor.go:457-459 | once one Quit is accepted every other tearDown waiting for its own waits in all continuations |
| ProtocolSafety.HealthUpdatesAfterQuit | executor/executor.go:403-432 | after Quit at most one more health-driven RUNNING update, after Done none, in every continuation |
| ProtocolSafety.DoneExactlyAtLimit | healthcheck/healthcheck.go:104-125 | in every reachable state of the concurrent system, Done was attempted exactly if the streak met its limit, at the first check where it did |
| ProtocolProgress.WaiterGetsThrough | healthcheck/healthcheck.go:91-135 | from every reachable state in which Execute has not returned, with a waiting tearDown and a checker that can return to its select, at most four steps get exactly that tearDown's Quit accepted, whatever a running check yields, and before Execute returns |
| ProtocolProgress.StuckForever | healthcheck/healthcheck.go:119-127 | otherwise no continuation ever gets a Quit accepted |
| ProtocolProgress.ProgressIff | executor/executor.go:455-459 | before Execute has returned, a waiting tearDown can be let through, while the process lives, if and only if the checker can return to its select; if not, then by no run at all |
| ProtocolProgress.ProgressWithoutStaleTicks | healthcheck/healthcheck.go:91-135 | with a supported type and no tick surviving Stop that is always, as long as Execute has not returned |
| ProtocolProgress.UnsupportedNeverTearsDown | healthcheck/healthcheck.go:80-87 | with an unsupported type no Quit is ever accepted and no tearDown that saw the checker does anything |
| ProtocolReturn.ReturnIff | executor/executor.go:142-206 | from every reachable state, Execute can still return if and only if the event loop is not inside a tearDown that needs a Quit nobody will accept; by the loop's place, in both directions |
| ProtocolReturn.FailedLaunchReturnsIff | executor/executor.go:190-198 | after a failed launch it can return if and only if the checker was not installed |
| ProtocolReturn.DecodeErrorReturnsIff | executor/executor.go:180-188 | after a decoding error it can return if and only if there is no checker or its Quit can still be accepted |
| ProtocolReturn.RefusedKillReturnsIff | executor/executor.go:190-198 | after a KILL whose update is refused it can return if and only if the checker was not installed |
| ProtocolReturn.BackToHeadReturns | executor/executor.go:180-198 | a KILL whose update is accepted or fails with an unexpected EOF, a harmless event and an EOF while decoding bring the event loop back to its head, from where it can return |
| ProtocolReturn.RefusedRunningHangs | executor/executor.go:289-292 | the state after a refused RUNNING update of a checked task is reachable, and Execute never returns from it |
| ProtocolReturn.OutrunIff | executor/executor.go:302-311 | while the tearDown of another goroutine is under way, Execute can return before it moves at all if and only if Execute can return at all |
| ProtocolReturn.SignalOutrun | executor/executor.go:503-511 | a state is reachable in which Execute has returned and the stop-signal handler of a checked, running task has done nothing of its tearDown |
| ProtocolHooks.NoPostRunAfter | executor/executor.go:265-269 | once a launch is past its post-run hooks, or there will be none, no continuation runs them any more |
| ProtocolHooks.PostRunAheadIff | executor/executor.go:219-269 | from every reachable state, some continuation gets to the post-run hooks if and only if they are not over |
| ProtocolHooks.PreStopComesLast | executor/executor.go:461-463 | in every reachable state, a tearDown about to run its pre-stop hooks finds the post-run hooks over, if it saw the checker or is not that of the stop-signal handler |
| ProtocolHooks.TooEarlyIff | executor/executor.go:455-463 | for any tearDown about to run its pre-stop hooks: the post-run hooks can still follow if and only if it is that of the stop-signal handler, saw no checker, and the event loop is at a launch stage up to them or decoding the event that may begin the launch |
| ProtocolHooks.SignalComesTooEarly | executor/executor.go:503-511 | that does occur: a reachable state with its pre-stop hooks run and the post-run hooks about to |
| ProtocolWitness.StaleTickFreezes | healthcheck/healthcheck.go:118-127 | for every configuration with a supported health check, any threshold, and a surviving tick, a state is reachable from which no tearDown is ever let through |
| ProtocolWitness.AlwaysProgressIff | healthcheck/healthcheck.go:50-135 | on the configuration alone: every waiting tearDown can always be let through if and only if there is no health check, or its type is supported and no tick survives Stop |
| ProtocolWitness.WithoutCheckerTwice | executor/executor.go:302-311 | without a health check two tearDowns can both run everything and report different terminal states |
| Ledger.BooksKept | executor/executor.go:377-400 | every accepted call, insert and acknowledgment keeps the books: in the map exactly if accepted, inserted, and not acknowledged since the insert |
| Ledger.NothingLost | executor/executor.go:351-363 | in every interleaving the map holds accepted updates only, and every accepted unacknowledged update is, under its UUID, in the map and in a snapshot, or between its call and its insert |
| Ledger.LoopIsExact | executor/executor.go:155-160 | for the event loop's own updates the map is exactly accepted minus acknowledged whenever the loop is not inside a call |
| Ledger.SurplusIsEarly | executor/executor.go:318-322 | what the map has too much is exactly what was acknowledged before its insert, and never an update of the event loop |
| Ledger.EarlyAckIsResent | executor/executor.go:383-397 | such a surplus does occur, and is in the snapshot |
| Ledger.UpdatedKeeps | executor/executor.go:377-400 | an accepted call followed by its insert keeps the books and adds exactly that update |
| Ledger.RecordsAsMoves | executor/executor.go:383-397 | accepted are exactly the updates of the accepted calls, each with its sender and state, and acknowledged exactly those that were |
| GoStrings.SplitSprintf | hook/iptables.go:157-178 | for every %s template and space-free arguments, splitting the rendered text gives the template's words with the arguments in place, empty ones included |
| GoStrings.JoinSplit | hook/iptables.go:157 | splitting loses nothing: joining the pieces gives back the text |
| GoStrings.SplitJoin | hook/iptables.go:157 | the inverse: splitting joined separator-free pieces gives back the pieces |
| GoStrings.ValueItoa | hook/iptables.go:170-175 | the decimal digits of a port determine it |
| GoStrings.ItoaDigits | hook/iptables.go:174 | decimal printing digit by digit, without leading zero |
| GoStrings.AddressPortInjective | hook/iptables.go:170 | address and port can be recovered from the DNAT target, also for addresses with colons |
| Rules.RenderSplitIff | hook/iptables.go:152-157 | for every template of plain words, rendering and splitting is placing the arguments if and only if no argument has a space |
| Rules.TokensFaithful | hook/iptables.go:19-23 | the words of a rule are its template's words with its arguments exactly if the rule is clean |
| Rules.FormatIsText | hook/iptables.go:19-23 | the text of every template is the format string of the source, option by option; the sixth one is that of hook/acl.go:20 |
| Rules.DnatWords | hook/iptables.go:171-178 | the rule in literal words, for space-free arguments |
| Rules.MasqueradeWords | hook/iptables.go:152-157 | the rule in literal words |
| Rules.SelfMasqueradeWords | hook/iptables.go:188-195 | the rule in literal words |
| Rules.ForwardInWords | hook/iptables.go:207-215 | the rule in literal words |
| Rules.ForwardOutWords | hook/iptables.go:225-233 | the rule in literal words |
| Rules.AclWords | hook/acl.go:179-186 | the rule in literal words |
| Rules.SameTemplate | hook/iptables.go:19-23 | equal words force the same template |
| Rules.TokensInjective | hook/iptables.go:19-23 | the encoding is injective: clean rules with equal words agree in template, interface, address, protocol and ports |
| Host.Machine.ListChains | vendor/github.com/coreos/go-iptables/iptables/iptables.go:153-175 | exactly the chains of the table |
| Tables.AppendPassAddsPrefix | hook/iptables.go:157-165 | an append pass has appended exactly a prefix of its rules, up to the first whose call has a fault or whose chain is missing and no further, all of them if and only if it reports no error |
| Tables.AppendPassOkIff | hook/iptables.go:146-245 | with its chains there, it succeeds if and only if no call has a fault, and then all rules are appended |
| Tables.DeletePass | hook/iptables.go:158-164 | a delete pass carries on past missing rules and reports none of them |
| Tables.DeletePassServes | hook/iptables.go:158-164 | with any faults it deletes exactly the rules whose call has none, and never stops |
| Tables.DeleteUndoesAdd | hook/iptables.go:148-243 | whatever was appended and in whatever order the deletes come, a table that had none of the rules is restored exactly, chain by chain and in order |
| Tables.UndoAfterPartialFailure | hook/iptables.go:146-243 | an append pass that stops anywhere, then the delete pass: every chain is the original sequence, and a second delete pass changes nothing; duplicates included |
| Conservation.RulesRestoredIff | hook/iptables.go:146-243 | with no freshness assumed, append-then-delete keeps each chain's multiset of rules if and only if none of the rules not reached was there before |
| Conservation.OrderMayChange | hook/iptables.go:158-164 | a concrete table whose order changes although no rule is lost |
| ChainOrder.ChainsRestoredIff | hook/iptables.go:146-243 | for every table, list and stop point: append-then-delete leaves all chains exactly as they were if and only if none of the rules not reached was there before and any two rules of a chain keep their order as copies counted from the end |
| ChainOrder.TrimIff | hook/iptables.go:158-164 | the same for one chain: taking away first copies gives back a sequence with the right copies exactly if the order of any two of them is kept |
| ChainOrder.DeleteAllTrims | hook/iptables.go:158-164 | deletes in any order take from every chain the first copies of each rule, as many as there are deletes |
| ChainOrder.NothingForeignBehind | hook/iptables.go:146-243 | if all chains are as they were, only rules of the list stood behind a rule of the list that was there before |
| ChainOrder.OneRuleRestoredIff | hook/iptables.go:158-164 | for a single rule the chain is restored if and only if nothing different stands behind a copy of it |
| Conservation.PassesConserve | hook/iptables.go:146-243 | after a successful append pass and any delete pass, the surplus of every rule is exactly the number of its deletes that were refused |
| IptablesHook.GenerateIptables | hook/iptables.go:115-246 | the nested loops with their early returns are, after the three chain lookups, one pass over the container's rules in order |
| IptablesHook.IptablesRulesIff | hook/iptables.go:148-243 | a rule is generated if and only if some address, or some address and port mapping, calls for it under the two configuration switches |
| IptablesHook.RulesInWords | hook/iptables.go:152-233 | the rules of an address and a port mapping, in order, each with its table and chain and its literal words |
| IptablesHook.IptablesRulesConcat | hook/iptables.go:148 | the rules come address by address, each address once |
| IptablesHook.PortsRulesConcat | hook/iptables.go:167 | and mapping by mapping, each mapping once |
| IptablesHook.OneOfEach | hook/iptables.go:148-243 | for a single address and a single mapping they are exactly these, so with the two rows above the whole list is determined |
| IptablesHook.RunPostRun | hook/iptables.go:35-67 | on a bridged or user network it succeeds if and only if driver, bridge, addresses and the three chains are there and no call has a fault, and then all rules are appended; otherwise a prefix of them is; the cache is set exactly if the addresses were found; on any other network it does nothing |
| IptablesHook.PostRunIsDone | hook/iptables.go:35-67 | the same for the function that stands for it in the runs of hooks |
| IptablesHook.RunPreStop | hook/iptables.go:68-110 | unless the network is none or host, it succeeds if and only if driver, cached addresses, bridge and the three chains are there, and then exactly the deletes without a fault are done for the cached addresses |
| AclHook.AclLabelIff | hook/acl.go:23 | a label key is taken exactly if the unanchored pattern occurs somewhere in it |
| AclHook.PortIndexIff | hook/acl.go:129-139 | the port index is the digits of the first place where the pattern occurs |
| AclHook.CheckIPs | hook/acl.go:155-171 | accepted if and only if every comma-separated source is an address or a network; then the result is, place by place, the address with /32 or the network |
| AclHook.JudgeIff | hook/acl.go:129-171 | a label is ignored if and only if the pattern occurs nowhere; malformed if and only if it occurs and the first index is too large for an int or no port's, or some source is neither address nor network; otherwise it allows that port for exactly its sources |
| AclHook.JudgeLabel | hook/acl.go:129-171 | the checks of the loop come to that judgement, whose meaning is JudgeIff |
| AclHook.GenerateACL | hook/acl.go:108-218 | the loops are one pass over the plan, cut at the first malformed label |
| AclHook.PlanIsLongestPrefix | hook/acl.go:128-217 | the plan is the rules of the longest prefix of well-formed labels, plus the default networks for every port only if that is all of them |
| AclHook.AclRuleInWords | hook/acl.go:115-186 | an ACL rule in literal words, in the configured chain of the filter table, for the configured interface or for all |
| AclHook.LabelsRulesConcat | hook/acl.go:128 | the rules of the labels come label by label |
| AclHook.OneLabelRules | hook/acl.go:178-192 | those of one label source by source, each once, for the port of the label |
| AclHook.DefaultRulesConcat | hook/acl.go:198 | the default rules come network by network |
| AclHook.OneDefaultRules | hook/acl.go:199-213 | those of one network port by port, each once |
| AclHook.CompleteIff | hook/acl.go:128-171 | the plan is complete if and only if no label is malformed |
| AclHook.PassesAgree | hook/acl.go:50-72 | append, stopped by a label or by the driver, then delete: the table is as before, and the delete pass fails exactly if there is a malformed label |
| AclHook.CheckChain | hook/acl.go:81-104 | the chain is accepted exactly if it is set, neither FORWARD nor OUTPUT, and listed in the filter table |
| AclHook.RunPostRun | hook/acl.go:31-52 | on a bridged or user network it succeeds if and only if the driver is there, the chain is set, neither FORWARD nor OUTPUT and listed, all labels are well formed and no call has a fault, and then all rules are appended; otherwise a prefix of the plan is; on any other network it does nothing |
| AclHook.RunPreStop | hook/acl.go:53-74 | on a bridged or user network it succeeds if and only if driver and chain are usable and all labels well formed; if they are usable, exactly the deletes of the plan without a fault are done |
| Isolation.OthersUndisturbed | hook/iptables.go:146-243 | under any interleaving, the tables without one side's rules develop exactly as the other side alone makes them, call by call with the same results |
| Isolation.PassIsPlay | hook/iptables.go:146-243 | a pass of a hook is such a series of calls |
| Isolation.PassLeavesForeign | hook/iptables.go:146-243 | a pass with any faults leaves the exact sequence of all other rules of every chain |
| Isolation.NothingLeft | hook/iptables.go:146-243 | an append pass however far it got and the delete pass, interleaved anyhow with calls for other rules, leave none of the rules |
| Isolation.AsIfAlone | hook/iptables.go:146-243 | and the tables are exactly what those other calls alone would have made |
| Isolation.IptablesRulesAbout | hook/iptables.go:148-243 | every generated rule is about one of the container's addresses |
| Isolation.DifferentIpsDisjoint | hook/iptables.go:19-23 | containers with different addresses have no rule in common, whatever their ports and configurations |
| Isolation.ExecutorsDoNotInterfere | hook/iptables.go:146-243 | two executors with different container addresses do not disturb each other under any interleaving: tables without the one's rules and results of the other's calls are as if it were alone |
| Isolation.ExecutorsLeaveNoTrace | hook/iptables.go:146-243 | when the calls of the one are its append and its delete pass, the tables are in the end what the other alone would have made; when both are, they are as in the beginning |
| AclIsolation.PlanRulesIff | hook/acl.go:128-217 | a rule is generated if and only if some port mapping and source are opened, by a label before any malformed one or by the default when there is none |
| AclIsolation.OpensIff | hook/acl.go:128-217 | what is opened, by the position of the label: one of the longest well-formed prefix, or the default networks if that is all labels |
| AclIsolation.SameAclRuleIff | hook/acl.go:179-186 | two ACL rules are equal if and only if chain, interface, protocol, source and host port agree |
| AclIsolation.AclClashIff | hook/acl.go:178-214 | the ACL hooks of two executors have a rule in common if and only if chain and interface agree and both open the same protocol and host port for the same source |
| AclIsolation.PortsApartDisjoint | hook/acl.go:178-214 | executors without a common protocol and host port have no ACL rule in common |
| AclIsolation.ApartShareNoRule | hook/iptables.go:148-243 | with different addresses and ports apart, two executors have no rule in common at all, whatever hooks they have |
| AclIsolation.ApartDoNotInterfere | hook/hook_manager.go:109-117 | non-interference of two whole executors, ACL hooks included, under any interleaving |
| AclIsolation.ApartLeaveNoTrace | hook/hook_manager.go:109-117 | when the one has made its appends, however far, and all its deletes, the tables are what the other alone would have made; when both have, as in the beginning |
| HookManager.Sort | hook/hook_manager.go:70-73 | sorting in place through Len, Less and Swap ends and yields a descending permutation although Less is reflexive on ties |
| HookManager.Manager.constructor | hook/hook_manager.go:58-67 | a manager without hooks whose enabled names are exactly those given |
| HookManager.Manager.RegisterHooks | hook/hook_manager.go:84-97 | after any registrations the list is in descending priority and has each hook as often as it was registered, if it is enabled, and not at all otherwise |
| HookManager.RunHooksAsPromised | hook/hook_manager.go:124-177 | with exit-on-error precisely the functions up to and including the first failing one ran and that error is returned; without, every function ran once in order and no error is returned |
| HookManager.OthersAnswer | hook/hook_manager.go:132-173 | what is logged of a hook that does not touch the firewall is what its function answered |
| HookManager.Manager.Call | hook/hook_manager.go:132-165 | the function of the given hook and phase ran on the host and is in the log |
| HookManager.Manager.RunHooks | hook/hook_manager.go:124-177 | the loop with its continue and early return refines the declarative run of the hooks |
| Restore.PostRunAppends | hook/iptables.go:35-67 | what a post-run function appended is within what its pre-stop function will delete, wherever it failed |
| Restore.PostRunInstalls | hook/hook_manager.go:109-112 | when the post-run hooks succeed on a bridged or user network, the tables are exactly what they were with all rules of all hooks appended, in the order of the hooks |
| Restore.InstalledRulesHold | hook/hook_manager.go:109-112 | so each of these rules is in its chain |
| Restore.PostRunElsewhere | hook/hook_manager.go:109-112 | on any other network the post-run hooks change no chain |
| Restore.PreStopDeletes | hook/iptables.go:68-110 | with a working driver the pre-stop function deletes all its rules, also when it then returns an error |
| Restore.PostRunWithinPreStop | hook/hook_manager.go:109-117 | the same for all hooks in any order, however far the post-run hooks got |
| Restore.OtherPhasesLeaveHost | hook/hook_manager.go:100-122 | the hooks of the other phases leave tables and cache alone |
| Restore.EarlyTearDownRestores | executor/executor.go:455-464 | a tearDown before the post-run hooks changes no chain |
| Restore.TearDownRestores | executor/executor.go:265-269 | end to end: for every list of hooks and every point at which the post-run hooks stop, the pre-stop hooks bring back every chain exactly |
| Restore.OverlappingTearDownsRestore | executor/executor.go:455-464 | two tearDowns of one task whose deletes reach the tables in any order together restore every chain exactly |
| Restore.PreStopBeforePostRun | executor/executor.go:455-464 | pre-stop hooks run before the post-run hooks leave exactly what these append, so the tables are as before if and only if that is nothing; one more run of the pre-stop hooks restores them |
| Executor.TearDownRunsAll | executor/executor.go:461-463 | a tearDown runs every pre-stop function once in order, then every post-stop function once in order, whichever fail |
| Executor.StagesFollowProtocol | executor/executor.go:219-299 | the steps of the handler are the stages the event loop of the protocol goes through, one by one |
| Executor.TornRestorable | executor/executor.go:455-464 | what a tearDown restores any further tearDown leaves alone |
| Executor.TornAfterPostRun | executor/executor.go:455-464 | a whole tearDown after the post-run hooks brings the tables back |
| Executor.SecondTearDownChangesNothing | executor/executor.go:455-464 | a second tearDown of the same task leaves the restored tables as they are |
| Executor.StepBroken | executor/executor.go:246-269 | at every step that fails, the launch stops there and a tearDown restores the tables |
| Executor.Executor.HandleLaunch | executor/executor.go:219-299 | it succeeds if and only if limits, create, start, the pid if checked, and the agent say yes and no hook of its phases fails, with RUNNING unacknowledged and all rules of all hooks installed; otherwise the steps before the failing one in order, a completed tearDown, FAILED as last update, remembered exactly if accepted, and the firewall as before; after a success the next tearDown achieves that |
| Executor.LaunchStory | executor/executor.go:219-299 | the step a launch stops at is the first whose answer is no or in whose phase a hook fails; every earlier phase ran all its functions, and no later one any |
| Executor.ThroughIff | executor/executor.go:219-299 | it goes through if and only if every answer is yes and no function of its three phases has failed |
| Executor.Executor.TearDown | executor/executor.go:455-464 | Quit first if there is a checker and not otherwise, all pre-stop functions in order, the stop, all post-stop functions in order, whatever fails; and every chain is as the launch found it |
| Executor.Executor.ThrowError | executor/executor.go:438-452 | all functions of a tearDown in order, every chain as the launch found it, then one call with FAILED, remembered exactly if accepted |
| Executor.Executor.HandleKill | executor/executor.go:302-311 | Shutdown is set, all functions of a tearDown in order, every chain as the launch found it, then one call with KILLED, remembered exactly if accepted |
| Executor.Executor.ContainerExited | executor/executor.go:474-499 | all functions of a tearDown in order, every chain as the launch found it, then one call with FINISHED for a clean exit and FAILED otherwise, remembered exactly if accepted |
| Executor.Executor.UpdateStatus | executor/executor.go:377-400 | the moves of the ledger, accepted call and insert, if the call is accepted, and none otherwise; the map stays that of the ledger and the books are kept |
| Executor.Executor.HandleAcknowledged | executor/executor.go:314-325 | the acknowledgment move of the ledger for an accepted update, and no change for any other; the books are kept |
| Executor.Executor.RemembersOutstanding | executor/executor.go:393-397 | with handlers run one after the other the map holds exactly the accepted and not yet acknowledged updates |
| Executor.Executor.GetUnackedUpdates | executor/executor.go:351-363 | every remembered update exactly once |

## Left out

- The Mesos HTTP client, protobuf, subscription retries and their delays, and logging: only "accepted", "refused" and the next event remain, as free choices.
- Acceptance is the call having returned without an error. An update that the agent received but whose response was lost is not in the map, and nothing is claimed about it.
- `container/docker.go`: a containerizer whose calls may fail. Waiting for the container ends in one event with or without success.
- The checks themselves and the `namespace` package: a check is one free boolean.
- Real time: ticks, waking up and the end of the grace period are events that can happen at any moment they are armed; intervals, delays and their conversion to durations are not modelled.
- `net.ParseIP` and `net.ParseCIDR`: two arbitrary predicates on strings. Addresses are strings, as `net.IP.String()` prints them.
- `hook/netns.go`, `hook/remove_container.go` and `hook/network.go`: hooks that may fail and do not touch the firewall. The task information is the one after the pre-create hooks.
- `main.go`, configuration reading, the resource getters (`executor/executor.go:67-95`, one free answer for both), `logger`, `types`, build and deployment.
- HookManager.Sort: the algorithm is insertion sort written over the same interface; `sort.Sort` of Go promises no more than the contract here, and in particular no order among equal priorities.
- Executor.Executor.TearDown: run on its own, its Quit is accepted; when it can be is the subject of `ProtocolProgress` and `ProtocolReturn`.
- Restore.OverlappingTearDownsRestore: for calls of the driver that succeed where iptables can carry them out. Host tables are not part of the interleaved system itself; `ProtocolHooks` says in which order its tearDowns and its post-run hooks come.
- Isolation.ExecutorsDoNotInterfere: speaks of the iptables hook only, for which different addresses are enough. ACL rules do not carry the container's address; their condition is `AclIsolation.AclClashIff`, and whole executors are the subject of `AclIsolation.ApartDoNotInterfere`.
- Without a health check, or for a tearDown that began before the checker was installed, no uniqueness of the terminal update is claimed; `ProtocolWitness.WithoutCheckerTwice` shows why.
- The nested loops of `generateIptables` and `generateACL` are one method per loop, and `HandleLaunch` is cut in several along its steps; the order of all calls is that of the source.
- The rule templates are written word by word, as lists that are joined with spaces, instead of one literal each.
- The hooks share one host state with the executor that runs them; what other programs do to the tables meanwhile is covered only by `Isolation`.
