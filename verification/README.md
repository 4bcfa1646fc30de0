# Verified model of the incident operator and its diagnostic gateway

The program investigates incidents on a small host. A backend keeps incidents, observations and proposed
actions, and lets a language model choose diagnostics. A gateway on the host runs the tools. Writes (start,
restart, stop) need an operator's approval or the autonomous policy, are claimed durably, signed once, and
consumed once by the gateway's ledger. This project models that logic in Dafny and proves what it is for:

- **The write protocol, end to end** (`Protocol`, `ProtocolRuns`, `ProtocolSteps`, `Ledger`, `Canonical`,
  `JsonText`, `JsonReading`). Over every run in which messages are lost, delayed, repeated or invented and either
  side restarts at any moment, each action id reaches the host's handlers at most once, only after it was consumed
  within its signature's lifetime, and only with the tool and arguments of a durably claimed action; and a claimed
  write that is sent in time gets through.
- **Incidents and actions** (`Records`, `Incidents`, `IncidentInvariants`, `IncidentRuns`, `IncidentService`,
  `Autonomy`, `AutonomyPolicy`, `Claims`, `Outcomes`, `Columns`, `Recoveries`, `Tools`). An inductive invariant
  over every atomic segment between two awaits: what resolved and waiting mean, that an approval is decided once,
  and what bounds and justifies every autonomous action; exactly when an approval or the policy claims; column by
  column, exactly which events write it; and that a recovery which can be shown is found.
- **Schema transformations** (`Schema`, `SchemaMeaning`, `Gemini`, `Narrowing`, `Scopes`, `Allowlists`). A
  denotation of JSON Schema (draft 2020-12) and four passes over it: one preserves meaning, one weakens, one
  removes exactly the targets already used, one advertises exactly what the gateway enforces, which is what the
  allowlists say.
- **Context budgeting** (`JsonSize`, `Sampling`, `Abbreviation`, `Compaction`, `ContextDocument`). What is
  abbreviated tells the truth. The last error of the compaction cannot occur once the check on identities passes
  and interpretations need no escapes; in general it can, exactly when the clipped interpretations can overrun
  what is left to share.
- **The bounded loop** (`AgentLoop`, `OfferedCalls`): the decision budget, the rejection limit, and that a
  diagnostic which the narrowed schema of the compacted context offers is never refused as a duplicate.
- **Classical algorithms** (`Topology`, `RecoveryChecks`, `Chunking`, `Capture`, `Atlas`, `Confidence`): three
  walks over a possibly cyclic graph, lossless and optimal chunking, bounded capture of two pipes, the bounded
  Atlas check, and the confidence ceiling.

Conventions. JSON objects are ordered lists of fields and numbers are integers. A MAC is a free constructor of
secret and message (RFC 2104 read symbolically): whoever does not hold the gateway's secret can only repeat
signatures that were made. Where a verification began is kept with its results, for the theorems alone. Time is
an integer clock that both sides share. What the model leaves open is passed as a parameter: instance equality,
regular expressions and the remaining keywords (`Schema.Semantics`), Python's `str` and line splitting, the
replies of tools, models and resolvers. A step whose guard fails leaves the state unchanged; the exception it
raises there is not told apart from others unless a contract says so.

The public methods of `IncidentService.Service` require and keep the state invariant and let rows only evolve;
each calls an `UpdateOn…` method that holds the statements and their loops.

Where code and documentation differ, the model follows the code. The translation for Gemini is documented as
dropping only unsupported constraints; `Gemini.DroppedPropertyRejects` and `Gemini.NegatedLimitRejects` show
schemas on which it rejects what its input accepts, and `Gemini.GeminiAccepts` says where it does not.

## Model

| member | source | states |
|---|---|---|
| `ProtocolRuns.AtMostOnce` | backend/app/service.py:118-175 | over every run of the whole system, no two entries of the host's log carry the same action id |
| `ProtocolRuns.ExecutionsWereClaimed` | diagnostic_gateway/main.py:76-98 | whatever ran has a ledger row, a signature whose lifetime contains the consumption, and a durably claimed action with the same tool and canonical arguments; and it lies inside the gateway's allowlists |
| `ProtocolSteps.ExecutionsWereVouched` | diagnostic_gateway/main.py:76-98 | whatever ran is a write in scope for its arguments, consumed with a signature the backend made over exactly its id, tool and canonical arguments less than 120 seconds before |
| `ProtocolRuns.RefusedNeverRuns` | backend/app/service.py:126-135 | an action that is rejected or expired at any point of a run is absent from the host's log at every later point |
| `ProtocolRuns.UndecidedHasNotRun` | backend/app/service.py:144-151 | nothing runs while its action is still pending: the claim is durable before the write is sent |
| `ProtocolRuns.SignedAtMostOnce` | backend/app/gateway.py:53-61 | one action id is signed at most once in a run, through restarts and failed dispatches |
| `ProtocolRuns.AutonomousExecutionsWereJustified` | backend/app/service.py:50-64 | what ran was approved by an operator, or was authorized by the policy on evidence its incident still holds |
| `ProtocolRuns.ClaimedWriteGetsThrough` | backend/app/gateway.py:53-61 | from any reached state with a claimed write ready to be sent, whatever happens after it is sent: while its 120 seconds last and its id is unconsumed, the gateway admits the request that was sent, and delivering and running it executes the tool and arguments of the claimed row |
| `ProtocolRuns.PromptWriteRuns` | diagnostic_gateway/main.py:76-98 | sent, and delivered at any moment of the next 120 seconds, the claimed write is the next thing that the host does |
| `ProtocolSteps.AdmittedExactly` | diagnostic_gateway/main.py:76-98 | the gateway admits a request from the wire exactly when writes are enabled, it names one target that the lists let this tool write, secret and id are well-formed, its expiry is a number at most 600 seconds ahead, its signature is over exactly its id, tool, canonical arguments and expiry, and the id was never consumed |
| `ProtocolSteps.SendExactly` | backend/app/gateway.py:45-62 | sending puts one request on the wire, of the claimed row, expiring after 120 seconds and signed over exactly that, marks the dispatch as sent, and does so exactly when the dispatch is unsent, the action approved or authorized and the write still offered |
| `ProtocolSteps.InjectExactly` | diagnostic_gateway/safety.py:423-425 | anyone may put any request on the wire except one that carries the gateway's own signature over a text that the backend never signed |
| `ProtocolSteps.EveryRunHappens` | backend/app/service.py:118-175 | every run of the backend, at any times, is part of a run of the protocol: the theorems on reachable states leave no behaviour out |
| `ProtocolSteps.RespondExactly` | diagnostic_gateway/safety.py:432-434 | a reply is stored with its consumed approval, and nothing else changes |
| `ProtocolRuns.ReachedIsSafe` | diagnostic_gateway/safety.py:413-434 | the protocol's invariant holds in every reachable state |
| `ProtocolRuns.ReachedEvolves` | backend/app/models.py:70-86 | between any two points of a run rows persist, actions keep what they would do, and approvals are decided at most once |
| `Protocol.AdmittedIsSigned` | diagnostic_gateway/main.py:78-85 | a request the gateway admits carries a signature the backend made for that id, tool and canonical arguments, not yet expired and not yet consumed |
| `Protocol.WorkKeeps` | backend/app/service.py:146-153 | every backend step keeps claims, signatures and unsent dispatches consistent |
| `Protocol.SendKeepsBackend` | backend/app/gateway.py:53-61 | signing keeps one signature per claim, made from the claimed row |
| `Protocol.DeliverKeeps` | diagnostic_gateway/safety.py:426-430 | consuming keeps the ledger, the running handlers and the host's log consistent |
| `Protocol.MovesKeep` | diagnostic_gateway/main.py:86-98 | running a handler, storing its reply and restarting the gateway keep executions unique and traceable |
| `Ledger.ApprovalLedger.Consume` | diagnostic_gateway/safety.py:413-430 | the five refusals in order, and otherwise exactly one new row for the id |
| `Ledger.ApprovalLedger.Complete` | diagnostic_gateway/safety.py:432-434 | only the result of an existing row changes |
| `Ledger.Gateway.ExecuteWrite` | diagnostic_gateway/main.py:76-98 | scope, writes enabled and consume are passed, in this order, before the handler runs once; a refusal leaves ledger and host untouched |
| `Ledger.ReadBody` | diagnostic_gateway/main.py:64-68 | a body is accepted, whole, exactly when all its chunks together fit 8192 |
| `Ledger.DeniedExactly` | diagnostic_gateway/safety.py:413-430 | which of the five refusals a consume meets, each by its own condition on secret, id, expiry, signed text and ledger, and that it is accepted exactly when none applies |
| `Ledger.HonestRequestIsConsumed` | backend/app/gateway.py:56-61 | what the backend signs is accepted during the next 120 seconds whatever field order the gateway parses, for an id not yet consumed |
| `Ledger.AcceptedMeansSigned` | diagnostic_gateway/safety.py:423-425 | an accepted signature binds id, tool, arguments up to field order, and expiry |
| `Canonical.MessageDecodesUniquely` | diagnostic_gateway/safety.py:400-402 | equal signed messages with colon-free id and tool name the same id, tool, canonical arguments and expiry |
| `Canonical.ColonInActionIdConfuses` | diagnostic_gateway/safety.py:414-415 | without the pattern on action ids two different calls share a message |
| `Canonical.CanonicalTextInjective` | diagnostic_gateway/safety.py:396-397 | canonical texts are equal exactly when the canonical values are, for all values |
| `Canonical.CanonicalTextExactly` | diagnostic_gateway/safety.py:396-397 | for values whose objects name each key once, canonical texts are equal exactly when the values are equal as dictionaries and lists |
| `Canonical.CanonicalIgnoresOrder` | backend/app/gateway.py:58 | the backend's text and the gateway's text coincide for the same fields in any order |
| `Canonical.SameTextSameLookups` | backend/app/agent.py:26-27 | objects with one canonical text agree on every key |
| `JsonText.WritePrefix` | diagnostic_gateway/safety.py:396-397 | serialized values are self-delimiting: the text before a delimiter determines the value and the rest |
| `JsonText.ParseDigits` | backend/app/gateway.py:57 | the decimal text of an expiry parses back to it |
| `JsonReading.DumpsReadsBack` | diagnostic_gateway/safety.py:396-397 | a reader written after RFC 8259 reads every serialized value back, whichever characters are escaped |
| `JsonReading.CanonicalTextReads` | diagnostic_gateway/safety.py:396-397 | the signed argument text is JSON of the arguments with sorted keys |
| `JsonReading.EscapesExactly` | diagnostic_gateway/safety.py:396-397 | which characters take a two-character escape, and that what needs none is written as it is |
| `JsonReading.UnitsExactly` | diagnostic_gateway/safety.py:396-397 | every other character takes one code unit in lower-case digits, or two outside the basic plane |
| `JsonText.ParseNatExactly` | backend/app/service.py:23 | the texts that parse to a number are its decimal text behind any number of zeros, and no others |
| `IncidentRuns.ResolvedMeansRecovered` | backend/app/service.py:290-307 | after every run, a resolved incident has nothing pending and a stored verification with a result of every check of every reachable service; each passed by an observation of its own in which every expected path leads to its value, recorded since that verification began by an attempt at the check that the run made between the verification's first event and the one that resolved the incident at its stored time |
| `IncidentRuns.ResolvedOnlyByRecovery` | backend/app/service.py:271-303 | at every step of every run an incident becomes resolved only by finishing a recovery of its own, after no action, a start or a restart, which the run began earlier and all of whose checks passed by attempts since; judging a stop never does it |
| `Recoveries.RecoveryIsFound` | backend/app/service.py:245-307 | after every run in which a verification may begin, for no action or for a start or a restart: beginning it, one successful reply to each check in which every expected path leads to its value, and ending it resolve the incident at that moment, leave nothing of it to decide, and judge the action as passed |
| `IncidentRuns.RecoveryRan` | backend/app/service.py:271-289 | every recovery that runs was begun by an event of the run, and each of its results was settled since by an attempt of its own, whose reply stands in the incident where the result says |
| `IncidentRuns.WaitingMeansPending` | backend/app/agent.py:238-244 | after every run, an incident that waits for approval has a pending, unexecuted action |
| `IncidentRuns.ApprovalsAreDecidedOnce` | backend/app/service.py:126-191 | pending moves only to approved, rejected or expired; every other state is final; executed means approved before the expiry, or authorized |
| `Claims.ApprovalsAreEarned` | backend/app/service.py:118-153 | at every step of every run at which a pending action becomes approved: an operator approved it before it expired, writes were enabled, its incident waited on a diagnosis that cites its own observations with one success, the registry offered the write and every check that verifies it, and a reachable health check covers the target; the step claims the action, installs its dispatch and does nothing else |
| `Claims.ApprovesExactly` | backend/app/service.py:118-153 | an approval claims a pending action and installs its dispatch exactly when it has not expired, all this holds and the task number is free; otherwise it does not approve |
| `Columns.IncidentsChangeExactly` | backend/app/service.py:118-307 | at every step of every run, the whole row of an incident: its status changes exactly by the causes listed for each status, over all events, and its observations, cited ids, resolution time and stored verification exactly by theirs |
| `Columns.IncidentsAppearExactly` | backend/app/main.py:124-131 | at every step of every run an incident appears exactly by being created, open and empty |
| `Columns.ActionsChangeExactly` | backend/app/service.py:118-307 | at every step of every run, the whole row of an action: it is approved, expired, rejected, executed and judged exactly by the causes listed for each, over all events |
| `Columns.ActionsAppearExactly` | backend/app/agent.py:227-245 | at every step of every run an action appears exactly when an operator is asked or the agent acts by itself, with what row |
| `Columns.TasksChangeExactly` | backend/app/service.py:146-157 | at every step of every run, dispatches and verifications begin, go on and end exactly by the causes listed |
| `Outcomes.AsksExactly` | backend/app/agent.py:227-245 | a proposal installs a pending action and the waiting status exactly when writes are on, the registry offers the write, a diagnosis was saved, the latest successful inspection of the exact target suggests it, and the same is not pending already |
| `Outcomes.MayProposeExactly` | backend/app/agent.py:195-225 | what the latest inspection must show for a proposal: stopped for a start, running and unhealthy or restarting for a restart, inactive or failed and active for units |
| `Outcomes.ApprovingExactly` | backend/app/service.py:118-153 | an approval claims the action, or expires it and reopens an incident with nothing else pending, or changes nothing, each by its own condition |
| `Outcomes.SettlingExactly` | backend/app/service.py:156-168 | the reply ends the dispatch; a failure is noted, and the incident waits exactly when something else is pending |
| `Outcomes.RejectingExactly` | backend/app/service.py:177-188 | a rejection decides a pending action, and reopens its incident exactly when nothing else is pending and no work is under way |
| `Outcomes.BeginningExactly` | backend/app/service.py:245-270 | a verification begins with the checks of the topology, is blocked exactly when no configured check could show the recovery, and otherwise changes nothing |
| `Outcomes.AttemptExactly` | backend/app/service.py:272-289 | an attempt is recorded, passes exactly when it succeeded and every expected path leads to its value, and settles its check when it passed or was the last of 7, 4 or 1 |
| `Outcomes.EndingExactly` | backend/app/service.py:290-307 | the end of a recovery: resolved exactly when everything passed and no stop is judged, the verdict, what becomes of the pending actions, and nothing else |
| `Outcomes.JudgingExactly` | backend/app/service.py:99-105 | the agent's action is judged by the inspection of its target, and nothing else changes |
| `Outcomes.ReportingExactly` | backend/app/service.py:67-75 | whatever the reply, it is recorded and the exact target is inspected next |
| `Outcomes.DiagnosingExactly` | backend/app/agent.py:247-260 | a diagnosis is saved exactly when it cites observations of its incident, one of them successful |
| `Outcomes.RestartingExactly` | backend/app/main.py:51-58 | a restart loses every task, interrupts exactly the incidents under work, and changes nothing else |
| `IncidentRuns.AutonomousActionsAreJustified` | backend/app/autonomy.py:29-91 | every autonomous action of every run: writes and autonomy were enabled, it starts or restarts a container or unit, the registry offers it at low risk for these arguments and leaves this target to the agent, the target is in the reachable topology, and the evidence stored with it, taken from its incident in order and fresh at the claim, warrants it by every rule of the policy |
| `IncidentRuns.AutonomousActionsAreBounded` | backend/app/autonomy.py:41-44 | on any interleaving an incident's autonomous actions have distinct targets per kind and number at most the maximum |
| `Claims.ClaimsWhenClaimable` | backend/app/service.py:43-65 | when the policy authorizes the action and its target can be inspected, deciding to act claims it with the fresh cited evidence and installs the dispatch with the checks of its exact target |
| `Claims.ClaimsOnlyClaimable` | backend/app/service.py:43-65 | and whatever such a decision changes was authorized and can be inspected |
| `AutonomyPolicy.AuthorizeExactly` | backend/app/autonomy.py:29-91 | the authorization grants exactly the fresh cited observations, in order, exactly when every rule of the policy holds |
| `AutonomyPolicy.EvidenceAllowsExactly` | backend/app/autonomy.py:52-90 | the evidence rule, written out: the latest successful inspection of the exact target calls for the tool, the API and the worker have a healthy Redis, a restarted container a log that names no failed dependency, and a restarted tunnel fails outside while its origin works |
| `AutonomyPolicy.BlamesExactly` | backend/app/autonomy.py:75-77 | a log blames a dependency exactly when one of its last 5000 characters begins a marker in any case |
| `IncidentRuns.RunsKeepTheInvariant` | backend/app/main.py:51-58 | the invariant holds after every sequence of events, restarts included |
| `IncidentRuns.RunsOnlyEvolve` | backend/app/models.py:39-86 | rows are never removed, observations are only appended, approvals change at most once |
| `IncidentInvariants.ProposeStep` | backend/app/agent.py:227-245 | proposing keeps the invariant, whether the action is new or an identical pending one |
| `IncidentInvariants.DiagnoseStep` | backend/app/agent.py:247-260 | saving a diagnosis keeps it |
| `IncidentInvariants.ApproveStep` | backend/app/service.py:118-153 | expiring or claiming an approval keeps it |
| `IncidentInvariants.SettleStep` | backend/app/service.py:156-168 | a failed or uncertain dispatch keeps it: waiting again only if something else is pending |
| `IncidentInvariants.RejectStep` | backend/app/service.py:177-188 | rejecting keeps it |
| `IncidentInvariants.BeginVerificationStep` | backend/app/service.py:245-270 | starting or blocking a verification keeps it |
| `IncidentInvariants.AttemptStep` | backend/app/service.py:272-289 | one attempt keeps it: a result says what its own observation shows, recorded since the verification began, and no two results share one |
| `IncidentInvariants.FinishVerificationStep` | backend/app/service.py:290-307 | finishing a verification keeps it, resolved or not |
| `IncidentInvariants.ClaimAutonomousStep` | backend/app/service.py:43-65 | an autonomous claim keeps it |
| `IncidentInvariants.SettleAutonomousStep` | backend/app/service.py:67-75 | recording an autonomous outcome keeps it |
| `IncidentInvariants.FinishAutonomousStep` | backend/app/service.py:99-105 | judging an autonomous action keeps it |
| `IncidentInvariants.RestartStep` | backend/app/main.py:54-58 | a restart, which loses every task, keeps it |
| `IncidentService.Service.ApproveAction` | backend/app/service.py:118-153 | the whole new state of an approval: expired, claimed with its dispatch, or untouched |
| `IncidentService.Service.SettleDispatch` | backend/app/service.py:156-168 | the whole new state after the reply or its absence |
| `IncidentService.Service.RejectAction` | backend/app/service.py:177-188 | the whole new state of a rejection |
| `IncidentService.Service.BeginVerify` | backend/app/service.py:245-270 | the whole new state when a verification begins, is blocked, or is refused |
| `IncidentService.Service.RecordAttempt` | backend/app/service.py:277-289 | the whole new state after one attempt, with the number of tries each check gets |
| `IncidentService.Service.FinishVerify` | backend/app/service.py:290-307 | the whole new state of a finished verification, with the loop that expires what is pending |
| `IncidentService.Service.ExpireAll` | backend/app/service.py:300-303 | exactly the pending actions of the incident expire |
| `IncidentService.Service.AnyPending` | backend/app/service.py:131 | whether the incident has another pending action |
| `IncidentService.Service.DecideByItself` | backend/app/service.py:49-59 | authorization together with runnable checks of the exact target, or a refusal |
| `IncidentService.Service.ClaimByItself` | backend/app/service.py:60-65 | the whole new state of an autonomous claim |
| `IncidentService.Service.SettleByItself` | backend/app/service.py:67-75 | the whole new state after an autonomous dispatch: its outcome is recorded and its target is inspected, whatever it was |
| `IncidentService.Service.FinishByItself` | backend/app/service.py:99-105 | the action is judged by all of its checks |
| `IncidentService.Service.ProposeAction` | backend/app/agent.py:227-245 | the whole new state of a proposal |
| `IncidentService.Service.RestartBackend` | backend/app/main.py:54-58 | the startup loop fails exactly the interrupted incidents |
| `Autonomy.Selected` | backend/app/autonomy.py:45-49 | exactly the cited observations that are not older than the cutoff |
| `Records.PermittedExactly` | backend/app/gateway.py:17-31 | a write is permitted exactly where writes may pass and the registry offers it at low risk for these arguments, a known read where it is offered as read-only, nothing else ever |
| `Records.StatesOf` | backend/app/autonomy.py:53 | exactly the successful observations of the exact target |
| `Topology.VisitIsReachable` | backend/app/service.py:203-213 | on every graph, cyclic or not, the walk visits exactly the reachable services and lists each once |
| `Topology.ReachesExactly` | backend/app/service.py:203-211 | reachable is what a path of configured services leads to, each listing the next as a dependency |
| `Topology.DependenciesComeFirst` | backend/app/service.py:208-211 | without cycles every service is listed after all its dependencies |
| `Topology.AllWalksCoverTheSameServices` | backend/app/application_health.py:26-33 | with every reference configured, the three walks cover one set of services |
| `Topology.ProfileTargets` | backend/app/autonomy.py:9-26 | exactly the containers and units of configured reachable services; none for an unknown service |
| `Topology.TargetWalk.Enter` | backend/app/autonomy.py:15-23 | the recursive walk that skips unknown names collects the targets of what it visits |
| `Topology.CollectTargets` | backend/app/autonomy.py:9-26 | the walk returns the profile targets |
| `Topology.NameWalk.Enter` | backend/app/application_health.py:26-31 | the walk lists a service before its dependencies, each once |
| `RecoveryChecks.RecoveryChecksAreReachableChecks` | backend/app/service.py:193-230 | for a start, a restart or no action: exactly the checks of reachable services, each text once, never none |
| `RecoveryChecks.VerifiableExactly` | backend/app/service.py:193-220 | checks are refused exactly for an unknown service, one without checks of its own, or a target no reachable check covers |
| `Claims.CoversExactly` | backend/app/service.py:214-218 | a check covers a write's target exactly when it inspects that very container or unit |
| `RecoveryChecks.StopIsOnlyCheckedAsAStop` | backend/app/service.py:221-226 | a stop is verified by one check, the first reachable one that inspects its own target, expecting that container not to run or that unit to be inactive |
| `RecoveryChecks.DependencyChecksComeFirst` | backend/app/service.py:208-211 | without cycles a check is preceded by the checks of what all its owners depend on, also after deduplication |
| `RecoveryChecks.UniqueKeepsFirstTexts` | backend/app/service.py:227-230 | deduplication keeps each text once, where it first occurs |
| `RecoveryChecks.CheckWalk.Enter` | backend/app/service.py:203-211 | the recursive walk appends a service's checks after those of its dependencies |
| `RecoveryChecks.CollectChecks` | backend/app/service.py:193-230 | the method returns the verification checks or the refusal |
| `RecoveryChecks.CheckMatches` | backend/app/service.py:19-29 | the loop accepts exactly when, for every expected path, a chain of members of the reply, one for each dot-free piece, leads to a value equal to the expected one |
| `RecoveryChecks.SplitOnlySo` | backend/app/service.py:22 | splitting at the dots is the only way to cut a path into dot-free pieces |
| `RecoveryChecks.ParseIndexExactly` | backend/app/service.py:23 | the texts of an index are decimal digits behind zeros and at most one sign |
| `RecoveryChecks.SameExactly` | backend/app/service.py:26 | on dictionaries and lists the comparison is by key and by place |
| `RecoveryChecks.CheckTextExactly` | backend/app/service.py:227-229 | two checks are one for deduplication exactly when tool, arguments and expectations are the same |
| `RecoveryChecks.PlanApplication` | backend/app/application_health.py:19-36 | the plan lists the checks service by service, and is refused beyond 24 |
| `RecoveryChecks.HealthPlanIsTheRecoveryChecks` | backend/app/application_health.py:33-34 | application health plans a check exactly when recovery would require it |
| `Schema.CompactAccepts` | backend/app/context.py:15-36 | removing annotations changes no verdict, for every schema document and every instance |
| `Schema.CompactPreserves` | backend/app/context.py:24-36 | the same for every subschema in its scope, property names and enum contents included |
| `Schema.CompactExactly` | backend/app/context.py:15-36 | the pass field by field: annotations go, schemas under the keywords that name, hold or list them are compacted in place, everything else is untouched |
| `Gemini.GeminiAccepts` | backend/app/llm.py:292-315 | on the fragment the translation accepts everything its input accepts, and nothing more when no limit, pattern or evidence enum is dropped |
| `Gemini.ConvertExactly` | backend/app/llm.py:300-313 | the translation field by field: a constant becomes a list of one, lists of this incident's evidence ids and the limits on texts go, everything else keeps its name over its translated value |
| `Gemini.DroppedPropertyRejects` | backend/app/llm.py:306-312 | a property named like a dropped keyword is a schema whose instances the translation rejects |
| `Gemini.NegatedLimitRejects` | backend/app/llm.py:311-312 | below a negation dropping a limit strengthens the schema |
| `Narrowing.NarrowedExactly` | backend/app/llm.py:53-86 | in the enumerated case an argument object is accepted exactly when the original accepts it and no call since the last remediation agrees with it on all required keys; no schema accepts nothing |
| `Narrowing.NarrowedNeverWidens` | backend/app/llm.py:53-86 | in every other case the result accepts no more than the original |
| `Narrowing.NarrowedOtherwise` | backend/app/llm.py:53-76 | outside the enumerated case: an unused tool or no diagnostic keeps its parameters, a used one that requires nothing is withdrawn, and one with unlisted values or over 256 combinations keeps them |
| `Narrowing.UsedExactly` | backend/app/llm.py:53-63 | the used arguments are exactly those of the tool's calls after which nothing was remediated |
| `Narrowing.RemainingParameters` | backend/app/llm.py:53-86 | the loops compute the narrowed schema |
| `Narrowing.BuildBranches` | backend/app/llm.py:77-85 | one branch per unseen combination, in order |
| `Scopes.AdvertisedIsEnforced` | diagnostic_gateway/tools.py:163-227 | a complete argument object is accepted by the advertised schema exactly when its own model accepts it and the gateway's scope check admits it |
| `Scopes.AutonomousIsAdvertised` | diagnostic_gateway/tools.py:188-190 | under an accepted configuration an autonomous pair is an advertised start or restart in the write and diagnostic allowlists, never of a protected service |
| `Allowlists.WriteScopeExactly` | diagnostic_gateway/tools.py:206-219 | a write is in scope exactly when its target is listed for writes, its policy grants this tool, and no unit the host must keep is touched nor the tunnel stopped |
| `Allowlists.ReadScopeExactly` | diagnostic_gateway/tools.py:206-227 | a diagnostic is in scope exactly when every host, container, unit, URL, path, seed and pair it names is listed |
| `Allowlists.AcceptedExactly` | diagnostic_gateway/config.py:96-114 | a configuration is accepted exactly when its write targets are readable, every policy grants writes of its target's kind once each and nothing the host must keep, and what is autonomous is a granted start or restart |
| `Allowlists.AutonomousExactly` | diagnostic_gateway/tools.py:188-190 | the autonomous targets of a tool are exactly those granted and listed as autonomous for it |
| `JsonSize.ObjectSize` | backend/app/context.py:7-8 | the size of an object is the sum of its keys, values and separators, escapes counted |
| `Sampling.CompactResultFits` | backend/app/context.py:84-101 | a result meets every budget of at least 37 when its summary needs no escapes |
| `Sampling.CompactResultFitsIff` | backend/app/context.py:99-101 | it meets a budget for all results exactly when the escaped clipped summary does |
| `Sampling.FailureComesFirst` | backend/app/context.py:57-60 | the first failing item of a list survives sampling, however small the limit |
| `Abbreviation.SampledTells` | backend/app/context.py:49-81 | an abbreviation tells the truth: scalars are unchanged, a text is whole or a beginning and the ellipsis, items are different items of the list with findings first, every field is one of the object with its own value abbreviated or the true count of what is left out, log excerpts are the first and last error or the last two lines, and twenty keys are shown with the important ones first |
| `Abbreviation.CompactResultTells` | backend/app/context.py:84-101 | a result that fits is untouched; otherwise the first of the four rounds that fits tells it, failing that its first error line, failing that its summary |
| `Compaction.CompactionFailsOnlyOnConstraints` | backend/app/context.py:137-155 | with interpretations that need no escapes compaction fails exactly when the identity check does, never with the last error |
| `Compaction.EqualPassFits` | backend/app/context.py:147-152 | the equal-share pass stays within the budget |
| `Compaction.CanFailIff` | backend/app/context.py:137-154 | for every context: some results and budget reach the last error if and only if, for some amount left to share, the larger of share and clipped interpretation, summed over the observations, exceeds that amount and the spare characters |
| `Compaction.QuotedInterpretationsCanFail` | backend/app/context.py:153-154 | interpretations of 180 quotation marks reach the last error, for any number of observations |
| `Compaction.CompactionKeeps` | backend/app/context.py:104-155 | success stays within the budget, keeps every observation's identity, tool, arguments and order and every tool with its compacted parameters, tells the truth about every result within a share of at least 100 characters that never favours the smaller result, and keeps everything else with long descriptions clipped |
| `Compaction.CompactionKeepsSeen` | backend/app/context.py:128-152 | narrowing reads the same observations before and after compaction |
| `Compaction.CompactionKeepsTopology` | backend/app/context.py:113-122 | the compacted topology has the same services; in each the display keys are gone, a description is clipped, and every other key looks up the same: edges and health checks survive |
| `ContextDocument.SharesExactly` | backend/app/context.py:137-152 | beyond the budget what is left is shared by weight, each result's size between 100 and 1800 against the sum, and never less than 100; equally only when that overruns |
| `ContextDocument.ContextSaid` | backend/app/agent.py:69-92 | the document whose size is budgeted says every observation, tool and hypothesis of the context, marks exactly the remediations, and notes exactly a compaction |
| `Compaction.CompactContext` | backend/app/context.py:104-155 | the passes over the copy compute the compacted context or the error |
| `Compaction.RefillResults` | backend/app/context.py:144-146 | the loop refills each observation from its own original and share |
| `AgentLoop.Investigation.Run` | backend/app/agent.py:303-493 | for every sequence of decisions and replies: routed diagnostics and decisions stay within the budget, at most three are refused, the run stops at the third, what ran keeps the rules below, and record and ending are those of the turns played one after another |
| `AgentLoop.RepeatsAreSeparated` | backend/app/agent.py:384-387 | two executed reads with one signature have an autonomous action between them |
| `AgentLoop.OfferedIsNoDuplicate` | backend/app/agent.py:385-386 | a call the narrowed schema offers is not among the executed signatures, when those are recorded since the last remediation |
| `OfferedCalls.OfferedCallsRun` | backend/app/agent.py:354-387 | a call that the narrowed parameters of the compacted context admit is permitted by the registry and not refused as a duplicate |
| `AgentLoop.Investigation.TakeTurn` | backend/app/agent.py:343-473 | one turn spends one decision and appends exactly what it comes to; a chosen diagnostic is judged against the signatures executed before the turn, and a duplicate is noted with the observations the model was shown |
| `AgentLoop.Investigation.HandleToolCall` | backend/app/agent.py:382-400 | a chosen diagnostic is refused exactly when it is not permitted as a read or repeats a signature, and otherwise run and recorded once |
| `AgentLoop.Investigation.RefuseDuplicate` | backend/app/agent.py:385-386 | what is refused as a duplicate had not been offered, whatever the tool's parameters |
| `AgentLoop.Investigation.HandleOther` | backend/app/agent.py:408-473 | exactly when each other decision ends the run, is refused, or goes on after an action, and what it records |
| `AgentLoop.JudgeExactly` | backend/app/agent.py:408-473 | by the services a decision calls: it raises exactly when one crashes, acts exactly when one dispatched, ends the run exactly when it should, and is refused otherwise |
| `AgentLoop.EffectsExactly` | backend/app/agent.py:382-400 | a chosen diagnostic is run exactly when the registry offers it as a read for these arguments and its signature was not executed since the last action |
| `AgentLoop.CountsExactly` | backend/app/agent.py:318-344 | what the budget counts are the places of decisions and routed diagnostics, and what the limit of three counts those of refusals |
| `AgentLoop.Investigation.Write` | backend/app/agent.py:433-434 | the duplicate set is cleared only after a remediation was recorded |
| `AgentLoop.SignatureInjective` | backend/app/agent.py:26-27 | equal signatures name the same tool and canonical arguments |
| `Chunking.ChunkingIsOptimal` | backend/app/rag.py:84-95 | chunks concatenate to the truncated text, each is short or one section, and no grouping of the sections in order by the same rule has fewer |
| `Chunking.IngestRunbook` | backend/app/rag.py:85-95 | the loop computes the greedy chunks |
| `Chunking.SectionsLossless` | backend/app/rag.py:86 | cutting at headings loses nothing, and every later piece starts with a heading |
| `Chunking.SectionsAreAtHeadings` | backend/app/rag.py:86 | nothing is lost, every later section begins with a heading at the start of a line, and no heading is left inside a section |
| `Chunking.GroupingsNeedAsMany` | backend/app/rag.py:89-95 | any grouping of sections by the rule needs at least as many chunks |
| `Capture.CaptureOutput` | diagnostic_gateway/safety.py:98-133 | on any interleaving: reads ask for 1 to 4096 bytes, buffers are prefixes within the limit, a truncated capture has exactly the limit, a normal end captured both streams, truncation happens exactly when the streams exceed the limit, and the deadline ends the loop only when it was reported, while some pipe had been ready no more often than its stream has bytes |
| `Capture.ReadTurn` | diagnostic_gateway/safety.py:109-122 | one turn keeps the capture sound, and every report of a registered pipe reads a byte or closes it |
| `Capture.ReadPipe` | diagnostic_gateway/safety.py:110-118 | one read keeps a prefix, sees the end only at the end, and overflows only when more was left than fits |
| `Atlas.FilterRecords` | diagnostic_gateway/tools.py:268-279 | the loop returns the accepted records, and accepted and rejected add up to received |
| `Atlas.AcceptedHosts` | diagnostic_gateway/tools.py:268-286 | accepted hosts are distinct, on the port and strictly below the suffix, and none that qualifies is missed |
| `Atlas.BelowSuffixExactly` | diagnostic_gateway/safety.py:163-168 | a name is below the suffix exactly when, in lower case and but for dots at the end, it is something before a dot and the whole suffix |
| `Atlas.CheckConnectivity` | diagnostic_gateway/tools.py:236-340 | for every answer and network: the records are the first 6 accepted ones, each shard reports its resolution, at most 2 addresses and the probes really made, at most 6 in all; every kept address is probed unless the budget was spent or the time was over; the error is absent exactly when some probe made completed TLS |
| `Atlas.ProbeShard` | diagnostic_gateway/tools.py:315-331 | probes follow the addresses and stop early only when the budget is spent or the time is over; the code is that of the last probe when none completed TLS |
| `Confidence.SuccessNeverLowers` | backend/app/safety.py:44-73 | a successful observation never lowers the ceiling; a non-log one of a known family leaves it unchanged |
| `Confidence.ContradictionNeverRaises` | backend/app/safety.py:63-65 | a contradiction never raises it, a repeated one changes nothing |
| `Confidence.CeilingExactly` | backend/app/safety.py:60-67 | the ceiling by the number of families, the failure log, the contradictions and the failed calls |
| `Confidence.FamiliesExactly` | backend/app/safety.py:50-56 | two diagnostics count as one source exactly when both show containers, both are logs, both show units, or they are the same |
| `Scopes.WritesNeverReachProtected` | diagnostic_gateway/config.py:98-111 | side fact, from the definitions: an accepted configuration leaves no protected name among the targets of any write |
| `Scopes.AdmittedWriteIsAllowed` | diagnostic_gateway/tools.py:206-219 | side fact, from the definitions: a write the scope check admits is one the administrator allowed for that very target |
| `Confidence.CeilingBounded` | backend/app/safety.py:60-67 | side fact, from the definitions: it lies between 0.15 and 0.95, and the result is at most the proposed value |
| `Confidence.NothingElseMatters` | backend/app/safety.py:55-67 | side fact, from the definitions: only families, the failure log, the number of contradictions and whether a call failed matter |

## Left out

- HTTP, SQL, DNS, TLS, subprocess and SQLite mechanics, redaction and bounded results: replies and parsed bodies are inputs, durable stores are maps, redaction is the identity.
- Per-incident locks: the proofs hold for every interleaving of the atomic segments, with or without them.
- The choice of the action that a later operator verification judges: the model lets it be any action of the incident.
- Investigation bookkeeping (parallel limit, task table, phases, timings, hypotheses, retrieval): only its statuses, observations, evidence ids and actions are modelled, and its status steps may happen at any time.
- The topology and the tool registry stay constant during a run; the backend and the gateway share one clock.
- Generation of ids: a new action id is any unused id of the permitted pattern, and observation ids are not required to be distinct; a check's result names its observation by its place as well.
- An exception between the recording of an autonomous action's outcome and the end of its inspection: `AgentLoop` takes an action that raises to have recorded nothing, and in ordinary use such an exception ends the investigation.
- Numbers other than integers, and Python's equality of `True` and `1` inside nested values.
- JSON Schema: `minContains`, `maxContains`, `unevaluatedItems`, `unevaluatedProperties` and the old form of `items`; references are followed up to a depth that is arbitrary.
- `matches`: list indices written with spaces, underscores or non-ASCII digits; the same for the expiry text.
- Configuration rules about identifiers, host names, URLs and paths: they do not bear on the write policy.
- Weighted shares use integer division where the program truncates a floating-point quotient; the confidence ceiling is in hundredths and not rounded further.
- A log entry whose `message` is not text, which raises in the program and is shown as text in `Sampling`.
- `decision_schema`, `ollama_action_schema`, parsing of model replies, deterministic routing: a route and a decision are inputs.
- Status folds of application health, dashboards, sessions, metrics, evaluation and the frontend: easy members.
