# Thumbelina, verified cores

A Dafny 4.11 project that models the self-contained algorithms and protocols of the Thumbelina assistant and proves
what they are for. `dafny verify dfyconfig.toml` checks all of it.

Each module follows one component. Protocols are state machines whose steps are what a task runs between two awaits;
safety is proved for every run, over any number of participants. Code that updates state in place is a class or a
method with loops, proved equal to a specification function, and the theorems are about that function. Where a
property holds only under a condition, the condition is proved to be exact: an `if and only if`, with a concrete
failing input beside it where that helps.

| file | component |
|---|---|
| `FileLocks.dfy` | many per-file locks taken in sorted order |
| `ConversationLocks.dfy` | one lock per conversation from a weak registry |
| `Resolver.dfy` | plugin load order, conflicts, missing plugins, cycles |
| `Checkpoint.dfy` | compressed histories as commands for the message reducer |
| `TurnStream.dfy` | fan-out of a turn's frames to subscribers, turns and connections |
| `PermissionBroker.dfy` | approvals: registered, settled, waited for, timed out |
| `ToolGate.dfy` | which tool calls run, and one answer per call |
| `StreamBatch.dfy` | batching a streamed reply around tool events and approvals |
| `MemoryDocument.dfy` | the Markdown memory document: parser, serializer, section reader |
| `MemoryIndex.dfy` | memory documents, their index and the guardrails, as a service in place |
| `MemoryListing.dfy` | exactly when scan and index depend on the order in which directories are listed |
| `MemoryLimits.dfy` | how many entries there are, and exactly when a write passes the limit |
| `MemoryStore.dfy` | updates, deletions and clearings of many tasks, interleaved |
| `MemoryEntries.dfy` | exactly which entries may be written for limit and index to hold in every run |
| `JsonSplit.dfy` | the JSON value at the start of a text (sections 2, 4, 5 and 7 of RFC 8259) |
| `Utf8Truncate.dfy` | cutting text to a number of UTF-8 bytes (section 3 of RFC 3629) |
| `RotatingLog.dfy` | the size-limited log with numbered backups |
| `ConfigFlat.dfy` | configuration trees as flat dotted rows and back; merging |
| `ExtractorPrompt.dfy` | the extractor's prompt within a token budget |
| `Endpoints.dfy` | stored endpoints and the one active model |
| `Text.dfy`, `Ordering.dfy`, `StableSort.dfy`, `Folds.dfy`, `Sums.dfy` | shared: Python strings, orders, stable sort, folds, sums |

Readings of the code that a caller may not expect, each stated by a theorem below with its exact condition:
`clear_conversation` discards an open request without settling it; a timer refuses whatever request is registered under
its id now, so a reused id can be refused early; a recursion exit in `stream` drops the pending batch, and a turn
without visible text persists nothing, its thoughts included; an update whose summary holds a separator and a category
field is read back under that category, so updates alone can pass the entry limit; two listed documents that claim one
category, slug and date make scan and index depend on the order of the listing; where two calls share an id, an
automatic pass of the one overwrites the denial of the other; the extractor drops a related memory although the whole
history fits beside all of them, as it counts their block twice; a rotating log told to keep no backup still makes one,
and one reopened with fewer backups than it has leaves a gap; the count of an import is larger than the rows where
leaves share a key; an activated model with an empty name is not reported as active.

## Model

| member | source | states |
|---|---|---|
| FileLocks.PlanExact | src/thumbelina/filestore/locks.py:48 | Each key asked for is planned once, in sorted order, `None` dropped, and no other key is. |
| FileLocks.StepKeepsInv | src/thumbelina/filestore/locks.py:32-58 | Every step of every task, cancellation included, keeps lock table, guard, owners and tasks consistent. |
| FileLocks.MutualExclusion | src/thumbelina/filestore/locks.py:41-58 | In every interleaving of any number of calls on any key lists, a key is held by one task at most. |
| FileLocks.BodyHoldsAllKeys | src/thumbelina/filestore/locks.py:48-55 | While a body runs, its task holds every key it asked for. |
| FileLocks.BodyRunsExact | src/thumbelina/filestore/locks.py:49-58 | In every run a finished task was in its body, with every key it asked for held, if and only if it was not cancelled on its way there. |
| FileLocks.CancelExact | src/thumbelina/filestore/locks.py:51-58 | A task may be cancelled exactly where it waits, and then has its locks still to give back while nobody else is touched. |
| FileLocks.BlockedByAHolder | src/thumbelina/filestore/locks.py:51-54 | A task that waits for a key waits for another, unfinished task that holds it. |
| FileLocks.NoDeadlock | src/thumbelina/filestore/locks.py:41-58 | While a task is unfinished some task can step, without anybody being cancelled. |
| FileLocks.RunsEndFree | src/thumbelina/filestore/locks.py:50-58 | Every run ends within four steps a key and three a task, and one that can go no further has freed every lock and the guard. |
| FileLocks.LockTable.LockFor | src/thumbelina/filestore/locks.py:32-38 | Looking a key up in the table in place is the find or the create step of the protocol, and hands out the key's lock. |
| FileLocks.LockTable.Acquire | src/thumbelina/filestore/locks.py:53-54 | Taking a free lock in place is the acquire step. |
| FileLocks.LockTable.ReleaseAll | src/thumbelina/filestore/locks.py:56-58 | The release loop gives back exactly the task's locks and leaves everybody else's. |
| ConversationLocks.StepKeepsInv | src/thumbelina/concurrency.py:18-45 | Every step of turns and collector keeps each turn's reference equal to the registry's entry for its conversation. |
| ConversationLocks.OneTurnPerConversation | src/thumbelina/concurrency.py:32-45 | Whatever is collected when, two turns of one conversation are never inside the block together. |
| ConversationLocks.BlockRunsExact | src/thumbelina/concurrency.py:32-45 | In every run a turn that is gone was inside the block, holding its conversation's registered lock, if and only if it was not cancelled on its way there. |
| ConversationLocks.CancelExact | src/thumbelina/concurrency.py:43-45 | A turn may be cancelled exactly where it waits, and then refers to the lock at most, without holding it. |
| ConversationLocks.SharedLock | src/thumbelina/concurrency.py:18-29 | Every turn that refers to a lock refers to the one a newcomer to its conversation would be given. |
| ConversationLocks.BlockedBySameConversation | src/thumbelina/concurrency.py:43-45 | A turn that waits for its lock waits for another turn of the same conversation. |
| ConversationLocks.NoDeadlock | src/thumbelina/concurrency.py:32-45 | While a turn is under way some turn can step without being cancelled. |
| ConversationLocks.NothingLeaks | src/thumbelina/concurrency.py:7-8 | Every run is bounded, and one that can go no further leaves no lock, no guard and no registry entry. |
| ConversationLocks.LockRegistry.ConversationLockFor | src/thumbelina/concurrency.py:22-29 | Get-or-create on the registry in place is the find or the create step. |
| ConversationLocks.LockRegistry.Exit | src/thumbelina/concurrency.py:40-45 | Leaving the block gives the lock back, or nothing where there is no conversation. |
| Resolver.CheckConflicts | src/thumbelina/plugins/resolver.py:95-121 | The reports, in order: each pair of present plugins at its first declaration, whichever side declares it. |
| Resolver.ConflictReportsExact | src/thumbelina/plugins/resolver.py:95-121 | These reports name each clashing pair of present plugins once, and no other pair. |
| Resolver.DeclarerFirst | src/thumbelina/plugins/resolver.py:112-120 | A conflict report names first a plugin that declares the conflict, and of two the one earlier in the dict. |
| Resolver.CheckMissing | src/thumbelina/plugins/resolver.py:123-153 | One report for every declaration of an absent plugin, in the order of the dict and of the declarations. |
| Resolver.MissingReportsExact | src/thumbelina/plugins/resolver.py:123-153 | A report is among these if and only if a plugin declares that absent dependency, optional or not as reported. |
| Resolver.MissingTimes | src/thumbelina/plugins/resolver.py:142-152 | A missing dependency is reported as often as the plugin declares it. |
| Resolver.BuildGraph | src/thumbelina/plugins/resolver.py:49-71 | Counters are the declarations of present plugins, optional and repeated ones counted; each adjacency list has the dependents in dict order, once for each declaration; one version error for every declaration not met, in order. |
| Resolver.WrongReportsExact | src/thumbelina/plugins/resolver.py:56-68 | A version error is among these if and only if a declared constraint is not met by the version that is there. |
| Resolver.WrongTimes | src/thumbelina/plugins/resolver.py:54-68 | A constraint that is not met is reported as often as it is declared. |
| Resolver.ReportsInOrder | src/thumbelina/plugins/resolver.py:54-152 | The reports of each kind are about different declarations, in the order of the dict and of the declarations. |
| Resolver.Balanced | src/thumbelina/plugins/resolver.py:69-70 | A plugin is in an adjacency list exactly as often as it declares that dependency. |
| Resolver.Roots | src/thumbelina/plugins/resolver.py:73-77 | The first queue holds exactly the plugins whose counter is zero, without repeats. |
| Resolver.Relax | src/thumbelina/plugins/resolver.py:83-86 | Going through the dependents of a loaded plugin keeps counters equal to the edges still open and queues exactly those that reach zero. |
| Resolver.Kahn | src/thumbelina/plugins/resolver.py:79-86 | The order has no repeats, puts dependencies first, and what it leaves out lacks a dependency that it leaves out too. |
| Resolver.OrderedIffAcyclic | src/thumbelina/plugins/resolver.py:79-91 | A plugin is in the order if and only if its dependency edges do not lead into a cycle. |
| Resolver.CycleReport | src/thumbelina/plugins/resolver.py:88-91 | A circular-dependency error, naming exactly the plugins that lead into a cycle, is made if and only if there is a cycle. |
| Resolver.Resolve | src/thumbelina/plugins/resolver.py:23-93 | The whole resolution: order without repeats, dependencies first, exactly the plugins that lead into no cycle; the whole error list in order, and what each kind of error means. |
| Checkpoint.OrderedSubsetExact | src/thumbelina/agent/graph.py:171-174 | The greedy scan is true if and only if one list is a subsequence of the other. |
| Checkpoint.MessagesStateUpdate | src/thumbelina/agent/graph.py:177-216 | The loops compile exactly the update the lemmas below are about. |
| Checkpoint.PureDeletionExact | src/thumbelina/agent/graph.py:190-194 | A history counts as trimmed if and only if all its messages have ids and these are a subsequence of the current ones. |
| Checkpoint.TrimmedReplayed | src/thumbelina/agent/graph.py:190-206 | For any history whose ids are a subsequence of the current ones: the commands remove just the ids left out and put just the messages that are no longer the same objects, and replaying them gives the history with its ids. |
| Checkpoint.ReplacedCommands | src/thumbelina/agent/graph.py:208-216 | For any other history every current message is removed, in order, and then every message is sent again, in order, without its id where that is a current one. |
| Checkpoint.ReplayDeletion | src/thumbelina/agent/graph.py:194-206 | Replaying the update of a pure deletion gives exactly the compressed messages, ids included. |
| Checkpoint.ReplayReplacement | src/thumbelina/agent/graph.py:208-216 | Replaying a replacement gives the compressed messages with fresh ids for those re-added, or a shorter list if a foreign id repeats. |
| Checkpoint.ReplayRebuilds | src/thumbelina/agent/graph.py:177-216 | Replaying never fails and rebuilds the compressed contents in order if and only if no foreign id occurs twice. |
| Checkpoint.EmptyUpdateExact | src/thumbelina/agent/graph.py:206 | The update is empty if and only if nothing changed. |
| Checkpoint.ReducerKeepsStamped | src/thumbelina/agent/graph.py:180-187 | The reducer always leaves messages with ids, all different, so what the update demands of the current messages holds at every checkpoint. |
| Checkpoint.ReducerSteps | src/thumbelina/agent/graph.py:180-187 | The reducer command by command: removing a known id, replacing in place, appending, and giving a fresh id. |
| JsonSplit.ValueNeutral | frontend/src/lib/codeUtils.ts:65-76 | Scanned from any depth outside a string, any JSON value returns to that depth and stays above where it began. |
| JsonSplit.ContainerEnds | frontend/src/lib/codeUtils.ts:62-77 | For every object or array text and any tail, the depth first reaches zero at its last character. |
| JsonSplit.ContainersPrefixFree | frontend/src/lib/codeUtils.ts:62-89 | No object or array text is a proper prefix of another, so the split is unique. |
| JsonSplit.TrimStartExact | frontend/src/lib/codeUtils.ts:59 | Leading white space goes and nothing else does. |
| JsonSplit.TakesNumbers | frontend/src/lib/codeUtils.ts:79-82 | So are numbers with or without sign, fraction and exponent. |
| JsonSplit.TakesItems | frontend/src/lib/codeUtils.ts:79-82 | So are arrays of several values, with commas between them. |
| JsonSplit.TakesMembers | frontend/src/lib/codeUtils.ts:79-82 | So are objects of several members, each with key and colon. |
| Text.CharacterCodes | src/thumbelina/memory/parser.py:32-129 | The white space of `strip` and the line breaks of `splitlines`, by code point. |
| JsonSplit.CharacterCodes | frontend/src/lib/codeUtils.ts:59 | White space, hexadecimal digits, string characters and escapes of the grammar, and the white space of `trimStart`, by code point. |
| JsonSplit.TakesWords | frontend/src/lib/codeUtils.ts:79-82 | The three words are values of the grammar. |
| JsonSplit.SplitLeadingJson | frontend/src/lib/codeUtils.ts:58-89 | Returns exactly the leading object or array text and the left-trimmed rest, and nothing if there is none. |
| TurnStream.TurnStream.Publish | src/thumbelina/api/websocket.py:192-197 | A frame goes to the end of every registered queue, and into the cache if it is replayable. |
| TurnStream.TurnStream.Subscribe | src/thumbelina/api/websocket.py:199-206 | A new queue starts as the cache; a second subscription changes nothing. |
| TurnStream.TurnStream.Unsubscribe | src/thumbelina/api/websocket.py:208-209 | One queue is unregistered and no other. |
| TurnStream.TurnStream.Finish | src/thumbelina/api/websocket.py:211-214 | The sentinel goes to the end of every registered queue. |
| TurnStream.StepKeeps | src/thumbelina/api/websocket.py:178-247 | Every step of publisher, subscribers and pumps keeps what each subscription was sent, holds and has queued equal to what it is owed. |
| TurnStream.StepQueues | src/thumbelina/api/websocket.py:192-214 | The steps of the state machine change the queues exactly as the methods of the class do. |
| TurnStream.HandledExact | src/thumbelina/api/websocket.py:188-209 | Sent, held and queued frames are the cached ones of before joining and every later one until leaving, once and in order. |
| TurnStream.CacheAndTerminal | src/thumbelina/api/websocket.py:181-187 | A registered subscriber's replayable frames are the cache whenever it joined; its terminal frames are those published while it was registered. |
| TurnStream.SentExact | src/thumbelina/api/websocket.py:231-247 | A pump that died or was cancelled sent a prefix of what is owed; one that met the sentinel sent all of it. |
| TurnStream.PumpsEnd | src/thumbelina/api/websocket.py:236-245 | After the turn ended a running pump always has something to do, and each step leaves it less. |
| TurnStream.RunsOk | src/thumbelina/api/websocket.py:742-754 | In every run of turns and connections a registered turn has not ended, and a cancelled pump is that of the queue unregistered with it. |
| TurnStream.FanOutExact | src/thumbelina/api/websocket.py:178-247 | In every run of turns replaced in the registry and connections switching between them, all of this holds of every subscription of every turn. |
| TurnStream.StartRegisters | src/thumbelina/api/websocket.py:172-190 | In every run a new turn has nothing published, its originator as only subscriber, and serves its conversation from then on. |
| TurnStream.SwitchSubscribes | src/thumbelina/api/websocket.py:746-755 | In every run switching to a conversation with a running turn leaves the connection subscribed to it: as originator unchanged, and otherwise by a new subscription with the cached frames queued and its pump started. |
| TurnStream.SwitchUnsubscribes | src/thumbelina/api/websocket.py:746-750 | Switching away gives up the subscription switched to before: queue unregistered, pump cancelled, no other subscription of that turn touched. |
| TurnStream.DropUnsubscribes | src/thumbelina/api/websocket.py:746-750 | A connection that drops gives up the subscription it had switched to, and no other turn is touched. |
| TurnStream.PublishReaches | src/thumbelina/api/websocket.py:192-197 | In every run any frame may be published on any turn; it is logged, cached if replayable, and queued for exactly those who are subscribed. |
| TurnStream.EndReaches | src/thumbelina/api/websocket.py:211-214 | In every run a turn that has not ended can end: exactly those who are subscribed get the sentinel, and the conversation is no longer served by it. |
| TurnStream.PumpTakes | src/thumbelina/api/websocket.py:236-245 | A running pump with nothing in its hands takes what is queued first, and ends at the sentinel. |
| TurnStream.PumpSends | src/thumbelina/api/websocket.py:241-247 | A running pump with a frame in its hands sends just that frame, or dies without sending it. |
| PermissionBroker.PermissionBroker.Register | src/thumbelina/api/permission_broker.py:33-43 | A request is entered unsettled under the id the payload carries, or the id made up if it carries none, with a timer if the timeout is positive, over whatever had its id. |
| PermissionBroker.PermissionBroker.OnTimeout | src/thumbelina/api/permission_broker.py:45-48 | The request registered under the id, if unsettled, is settled with one refusal for each call, in call order and under its id, and nothing else changes. |
| PermissionBroker.PermissionBroker.Resolve | src/thumbelina/api/permission_broker.py:61-75 | True exactly for a registered unsettled id, which is then settled with its timer cancelled; otherwise nothing changes. |
| PermissionBroker.PermissionBroker.Discard | src/thumbelina/api/permission_broker.py:90-94 | The entry goes, its timer is cancelled, and no other entry changes. |
| PermissionBroker.PermissionBroker.ClearConversation | src/thumbelina/api/permission_broker.py:85-88 | Exactly the entries of the conversation go, and their timers are cancelled, their futures left as they are. |
| PermissionBroker.PermissionBroker.PendingFor | src/thumbelina/api/permission_broker.py:76-80 | Returns the first unsettled request of the conversation in the order of the dict, and none if and only if there is none. |
| PermissionBroker.ResolveExact | src/thumbelina/api/permission_broker.py:61-68 | `resolve` succeeds exactly for a registered unsettled id, then settles that request and nothing else, and changes nothing when it fails. |
| PermissionBroker.ResolvedOnce | src/thumbelina/api/permission_broker.py:61-75 | In every run, after `resolve` succeeded for a request it never succeeds for it again, whatever happens in between and under whatever id. |
| PermissionBroker.SettledForEver | src/thumbelina/api/permission_broker.py:45-75 | Whatever follows, a future that is done stays as it is. |
| PermissionBroker.SettledOnce | src/thumbelina/api/permission_broker.py:45-75 | In every run each request, waited for or not, is settled at most once, and exactly when its future has a result: an accepted response, or the refusal of every call. |
| PermissionBroker.StepTable | src/thumbelina/api/permission_broker.py:33-94 | The steps of the state machine change the table exactly as the methods of the class do. |
| PermissionBroker.WaitExact | src/thumbelina/api/permission_broker.py:50-59 | In every run what `wait` returned is what the one settlement of its request set: an accepted response, or the refusal of every call. |
| PermissionBroker.TimeoutRefuses | src/thumbelina/api/permission_broker.py:21-48 | In every run every settlement by a timeout has one decision for each call, in order and under its id, none of them approved, and the future holds just that. |
| PermissionBroker.AnswerReturns | src/thumbelina/api/permission_broker.py:33-75 | From any state: register, wait and answer return the answer to the waiter, leave the id out of the table and its timer cancelled, and touch nothing else. |
| PermissionBroker.TimeoutReturns | src/thumbelina/api/permission_broker.py:33-59 | From any state: register, wait and no answer return the refusal of every call when the timer fires. |
| PermissionBroker.CancelRaises | src/thumbelina/api/permission_broker.py:55-59 | From any state: a cancelled waiter raises, its request is dropped unsettled and its id is out of the table. |
| PermissionBroker.LosesPlaceExact | src/thumbelina/api/permission_broker.py:85-94 | An open request loses its place exactly by clearing, by its id being registered again, or by a waiter for another request of that id. |
| PermissionBroker.ClearExact | src/thumbelina/api/permission_broker.py:85-94 | Clearing takes exactly the conversation's ids out of the table and cancels their timers; nothing is settled and nobody woken. |
| PermissionBroker.SettleableExact | src/thumbelina/api/permission_broker.py:61-68 | An open request can be settled if and only if it is in the table; out of it, its waiter hangs unless cancelled. |
| PermissionBroker.ClearHangs | src/thumbelina/api/permission_broker.py:85-88 | A concrete run in which clearing a conversation leaves a waiter that nothing settles. |
| PermissionBroker.ReusedIdRefusedEarly | src/thumbelina/api/permission_broker.py:33-48 | A concrete run in which an id used twice lets the first timer refuse the second request. |
| PermissionBroker.FireSettlesExact | src/thumbelina/api/permission_broker.py:45-48 | A timer that fires settles an open request if and only if that request is the one registered now under the timer's id, by refusing every call. |
| PermissionBroker.ThreatenedExact | src/thumbelina/api/permission_broker.py:39-48 | Another request's timer can refuse a request if and only if the request is open and in the table and an armed timer of another request has its id. |
| PermissionBroker.ThreatArisesExact | src/thumbelina/api/permission_broker.py:33-43 | A request comes under that threat in one step if and only if the step is its own registration while a timer of its id is armed. |
| PermissionBroker.NeverThreatened | src/thumbelina/api/permission_broker.py:33-94 | A request not threatened when it was registered is not threatened in any run that follows. |
| PermissionBroker.RefusedByOwnTimer | src/thumbelina/api/permission_broker.py:39-48 | In every run with fresh ids and no clearing, what a timeout refused was refused by its own timer. |
| PermissionBroker.NobodyHangs | src/thumbelina/api/permission_broker.py:39-48 | With fresh ids, a positive timeout and no clearing, every open request has an armed timer whose firing ends the wait. |
| ToolGate.PermissionGate | src/thumbelina/agent/graph.py:812-892 | The collecting loops and the final sort give the positions that run, in call order, the denials, direct ones first, and the verdicts as they are recorded one after the other. |
| ToolGate.ExecSorted | src/thumbelina/agent/graph.py:892 | Sorting what was allowed together with what was confirmed restores the order of the calls. |
| ToolGate.ExecExact | src/thumbelina/agent/graph.py:823-880 | The calls executed are exactly those ruled allow, or ruled confirm with an approver who approved that id, in call order. |
| ToolGate.ToolNodeNode | src/thumbelina/agent/graph.py:1051-1075 | Gate, node and merge together return the messages the lemmas below are about. |
| ToolGate.ExecutedLast | src/thumbelina/agent/nodes.py:104-158 | What the node leaves under an id is the message of the last running call with it, whatever that call ended in. |
| ToolGate.OneMessagePerCall | src/thumbelina/agent/graph.py:1066-1075 | There is one message per call, in call order, with its id, for any rulings and outcomes and even for repeated ids. |
| ToolGate.AnswerTexts | src/thumbelina/agent/graph.py:834-886 | With distinct ids each call is answered with the literal text of its case: denied by rule, unattended, refused by the user, unknown tool, timed out, failed, or the tool's own result. |
| ToolGate.OwnMessagesExact | src/thumbelina/agent/graph.py:1066-1075 | Every call is answered with its own message, whatever the rulings and outcomes, if and only if the ids are distinct. |
| ToolGate.OwnVerdictsExact | src/thumbelina/agent/graph.py:823-891 | Every call's own verdict is what is recorded under its id, whatever the rulings and answers, if and only if the ids are distinct. |
| ToolGate.VerdictCases | src/thumbelina/agent/graph.py:823-891 | With distinct ids each call has the verdict of its case: passed, passed by hand, passed by the mode, or blocked with the rule's reason or "user_denied". |
| ToolGate.TruthUnderPolicy | src/thumbelina/agent/graph.py:823-891 | As the policy marks only allowed calls as automatic passes, each call has a denial for verdict just when it does not run, if and only if calls with one id run together or not at all. |
| ToolGate.TruthByIds | src/thumbelina/agent/graph.py:823-891 | Under that policy the verdicts tell what runs for all decisions and answers if and only if the ids are distinct. |
| ToolGate.PassOverwritesDenial | src/thumbelina/agent/graph.py:887-891 | Two calls with one id, one passed automatically and one denied: the id of the denied call shows a pass. |
| StreamBatch.StreamRound | src/thumbelina/agent/graph.py:1700-1778 | The loop over one pass of the graph is the fold the lemmas below are about. |
| StreamBatch.Stream | src/thumbelina/agent/graph.py:1698-1849 | The resume loop yields exactly what the specified run does, and persists its reply and thoughts, or nothing if the reply is empty. |
| StreamBatch.StepKeeps | src/thumbelina/agent/graph.py:1707-1778 | One event adds exactly its own text and mark to what was yielded and is pending, and pending batches stay shorter than 30. |
| StreamBatch.ToolEventDrains | src/thumbelina/agent/graph.py:1707-1727 | A tool event comes out after everything pending, thoughts before text, and leaves nothing pending. |
| StreamBatch.ChunkFlushes | src/thumbelina/agent/graph.py:1757-1778 | After a chunk each kind that has 30 characters, or comes 0.05 seconds or more after the last batch, is yielded whole, thoughts before text; the rest stays pending. |
| StreamBatch.RoundEnds | src/thumbelina/agent/graph.py:1796-1818 | A round that ends yields what is pending, thoughts before text, then the request, and only then goes on. |
| StreamBatch.RoundGivesUp | src/thumbelina/agent/graph.py:1779-1793 | The recursion error drops what is pending and yields the literal fallback, which is the reply if there is none. |
| StreamBatch.StreamExact | src/thumbelina/agent/graph.py:1698-1828 | Without a recursion exit, for any chunks, clock and approvals, each kind of text is yielded whole and in order, tool events and requests at their places, and equals what is kept. |
| StreamBatch.StreamCut | src/thumbelina/agent/graph.py:1779-1793 | A recursion exit loses less than a batch at the end and yields the fallback. |
| StreamBatch.ShownIsPersistedExact | src/thumbelina/agent/graph.py:1779-1849 | The visible text yielded is the persisted reply if and only if there was no recursion exit or nothing visible had been received. |
| StreamBatch.ThoughtIsPersistedExact | src/thumbelina/agent/graph.py:1779-1849 | The thoughts yielded are those persisted if and only if, without a recursion exit, visible text or no thought was received, and with one, no thought was pending at the exit. |
| StreamBatch.ReplyExact | src/thumbelina/agent/graph.py:1846-1849 | A persisted reply holds all the thoughts received, and its field for them is empty if and only if there were none. |
| StreamBatch.PersistsExact | src/thumbelina/agent/graph.py:1846-1849 | Something is persisted if and only if something visible was received or the recursion limit was hit. |
| Utf8Truncate.DecodeEncode | src/thumbelina/agent/graph.py:248-251 | Decoding whole characters gives them back, whatever follows. |
| Utf8Truncate.EncodingsByLength | src/thumbelina/agent/graph.py:248 | The encodings of the first and the last character of each length. |
| Utf8Truncate.PartDropped | src/thumbelina/agent/graph.py:251 | A character cut in the middle decodes to nothing. |
| Utf8Truncate.TruncateExact | src/thumbelina/agent/graph.py:242-251 | The longest prefix of whole characters whose encoding fits, and the flag exactly when something is missing. |
| MemoryDocument.ParseDocument | src/thumbelina/memory/parser.py:32-129 | The line loop with its section variable computes the specified parse. |
| MemoryDocument.TitleForms | src/thumbelina/memory/parser.py:25 | A title is a `#`, white space and a text with any white space after it; what white space alone gives; and no other line is one. |
| MemoryDocument.MetaForms | src/thumbelina/memory/parser.py:26 | The same of the metadata line after a `>`. |
| MemoryDocument.PartsForms | src/thumbelina/memory/parser.py:111-118 | Metadata is taken apart at either separator, the white space around the parts gone. |
| MemoryDocument.ValueForms | src/thumbelina/memory/parser.py:29 | A field is its key, either colon with any white space before it, and a value; without one it is none, and it is no other key's. |
| MemoryDocument.TitleOnce | src/thumbelina/memory/parser.py:48-52 | The first title counts and later ones are passed over. |
| MemoryDocument.SectionSteps | src/thumbelina/memory/parser.py:57-72 | Which lines start a section, and which belong to it. |
| MemoryDocument.ParsedIsStorable | src/thumbelina/memory/parser.py:32-129 | Whatever text is parsed, the entry it gives is storable. |
| MemoryDocument.PartsOfFields | src/thumbelina/memory/parser.py:111-118 | Splitting the joined metadata fields gives the fields back. |
| MemoryDocument.SplitSerialized | src/thumbelina/memory/service.py:264-290 | The lines of the written text are title, metadata and the two sections as the parser expects them. |
| MemoryDocument.SerializedText | src/thumbelina/memory/service.py:264-290 | The written text, line by line: title, metadata with the fields there are, both sections under their literal headers. |
| MemoryDocument.NewlinesGo | src/thumbelina/memory/service.py:274-275 | Overview and full text are written without just the line feeds at their end. |
| MemoryDocument.WrittenIsReadBack | src/thumbelina/memory/service.py:264-290 | An entry survives being written and parsed, slug aside, if and only if it is storable: trimmed one-line fields without separators, sections without blank ends or other line breaks, no full-text header in the overview. |
| MemoryDocument.DocumentParsed | src/thumbelina/memory/parser.py:32-129 | A document with any one metadata line parses to the entry that the parts of that line set, or to none without a category. |
| MemoryDocument.SummaryRelabels | src/thumbelina/memory/service.py:264-290 | Any storable entry, its summary followed by a separator and another category field, is written and then read as an entry of that category. |
| MemoryDocument.ParsingIsNormal | src/thumbelina/memory/parser.py:32-129 | What a text was parsed to is parsed again from its own serialization. |
| MemoryDocument.ExtractFull | src/thumbelina/memory/service.py:346-362 | The loop that reads the full-text section computes the specified extraction. |
| MemoryDocument.ExtractAgrees | src/thumbelina/memory/service.py:346-362 | On every document that parses it agrees with the parsed full text if and only if no later line is the full-text header again. |
| MemoryIndex.MemoryService.SortGroups | src/thumbelina/memory/parser.py:178-190 | Grouping and sorting in loops gives the specified order of entries. |
| MemoryIndex.MemoryService.ScanEntries | src/thumbelina/memory/parser.py:155-175 | Reading the files in any order and sorting gives the specified scan. |
| MemoryIndex.SortItemsExact | src/thumbelina/memory/parser.py:187-188 | The two stable sorts keep the entries and order them latest first, then by slug, whatever slugs and dates repeat. |
| MemoryIndex.SortedInOrder | src/thumbelina/memory/parser.py:178-190 | A scan lists only entries of listed categories, by category in the order of the list, then latest first, then by slug. |
| MemoryIndex.IndexOfOne | src/thumbelina/memory/parser.py:193-229 | The literal text of an index of one entry, and of none. |
| MemoryIndex.IndexOfTwo | src/thumbelina/memory/parser.py:204-221 | The literal text of an index of two categories: sections in the order of the list with an empty line between. |
| MemoryListing.ScanFixedExact | src/thumbelina/memory/parser.py:155-190 | The scan is the same for every order in which directories may be listed if and only if no two listed documents claim one category, slug and date with different entries, for any category list. |
| MemoryListing.IndexFixedExact | src/thumbelina/memory/parser.py:155-221 | The index text is the same for every such order if and only if no two listed documents claim one category, slug and date with different index lines. |
| MemoryLimits.ListingIrrelevant | src/thumbelina/memory/parser.py:155-221 | Documents labelled with their directory's category give one scan and one index in every order. |
| MemoryLimits.MislabelledOrderMatters | src/thumbelina/memory/parser.py:182-188 | Two documents that claim one category, slug and date with different lines: scan and index text depend on the order of the listing. |
| MemoryLimits.ScanCount | src/thumbelina/memory/parser.py:155-190 | A scan has an entry for each listed document at least, and exactly one for each if and only if none claims a category that the list repeats. |
| MemoryLimits.AllowedExact | src/thumbelina/memory/service.py:390-401 | An update is let through if and only if its category is listed, the bytes are within their limit, and a listed document claims its category and slug or the scan is below the limit. |
| MemoryIndex.MemoryService.UpdateMemory | src/thumbelina/memory/service.py:200-218 | Refused exactly by the guardrails, changing nothing; else the document is written and the index rebuilt from the new documents. |
| MemoryIndex.MemoryService.DeleteMemory | src/thumbelina/memory/service.py:220-232 | One document goes and the index is rebuilt. |
| MemoryIndex.MemoryService.ClearAll | src/thumbelina/memory/service.py:248-257 | Exactly the documents of listed categories go and the index is rebuilt. |
| MemoryLimits.OverflowExact | src/thumbelina/memory/service.py:390-401 | For every entry: an update is let through and passes the limit if and only if the store is full, its document was not listed and now is, and some document claims its category and slug. |
| MemoryLimits.MislabelledOverflows | src/thumbelina/memory/service.py:394-397 | A concrete store of one entry that becomes one of two with a limit of one. |
| MemoryLimits.LimitKept | src/thumbelina/memory/service.py:390-401 | In labelled documents an allowed update of any entry keeps the limit. |
| MemoryLimits.WrittenLabelledExact | src/thumbelina/memory/service.py:200-218 | An update leaves labelled documents labelled if and only if what is written is not read as an entry of another listed category. |
| MemoryLimits.UpdatesOverflow | src/thumbelina/memory/service.py:390-401 | From no documents and a limit of one, two updates that the guardrails allow leave two documents listed. |
| MemoryStore.IndexIsCurrent | src/thumbelina/memory/service.py:200-257 | Over any interleaving, whenever the index lock is free after a write, the index is the one built from the documents there are. |
| MemoryStore.ChangesDocuments | src/thumbelina/memory/service.py:200-257 | A task changes documents in one step: an update writes its entry's document or is refused, a deletion takes one away, clearing those of listed categories. |
| MemoryStore.StagesInOrder | src/thumbelina/memory/service.py:214-218 | A task enters alone, changes documents, writes the index from the documents there are, and leaves. |
| MemoryStore.StoreStaysExact | src/thumbelina/memory/service.py:200-257 | From labelled documents and with entries that keep their label: the limit holds in every reachable state, and the index is right for every listing order. |
| MemoryStore.LimitPassed | src/thumbelina/memory/service.py:200-218 | A run of two updates from an empty store that passes a limit of one, the first entry not keeping its label. |
| MemoryEntries.LimitHoldsExact | src/thumbelina/memory/service.py:200-257 | For any set of entries that may be written: in every run of any tasks from an empty store and for every limit the limit holds, if and only if none of them is read back under the category and slug of another. |
| MemoryEntries.IndexHoldsExact | src/thumbelina/memory/service.py:200-257 | For any such set: in every such run the index is right for every listing order, if and only if no two of them are read back with one category, slug and date and different lines. |
| RotatingLog.RotatingLogWriter.Rename | start_dev.py:65-66 | A backup moves to a number that was free: the precondition of every call says nothing is overwritten. |
| RotatingLog.RotatingLogWriter.MakeRoom | start_dev.py:58-66 | The descending loop moves every backup up by one, dropping the last. |
| RotatingLog.RotatingLogWriter.Rotate | start_dev.py:53-76 | The current file becomes the first backup and starts empty. |
| RotatingLog.RotatingLogWriter.Write | start_dev.py:78-88 | A write appends its bytes, and rotates exactly when the tracked size reaches the limit. |
| RotatingLog.WriteKeeps | start_dev.py:53-88 | Whatever backups are there within the number to be kept, a write keeps that number, the size true, and every byte in order but for the one oldest backup that is dropped. |
| RotatingLog.WriteExact | start_dev.py:53-88 | A write appends; below the limit nothing else happens, and else the current file becomes backup 1, each backup moves up by one, the last is gone, and the current file is empty. |
| RotatingLog.WriteNumbers | start_dev.py:53-76 | Backups numbered without gaps stay so, one more until all are there. |
| RotatingLog.SizeBelowExact | start_dev.py:85-88 | The tracked size is below the limit after every write if and only if the limit is positive. |
| RotatingLog.BoundExact | start_dev.py:59-72 | After a rotation the numbers stay within the bound if and only if at least one backup is to be kept. |
| RotatingLog.KeptIsSuffix | start_dev.py:53-88 | Over any writes to a fresh log, backups and current file are the end of everything written, numbered from 1 within the bound, which is one at least. |
| RotatingLog.ReopenedExact | start_dev.py:36-88 | A log opened on any files, gaps included, keeps the end of what was there and what is written, for all contents and writes, if and only if the highest backup number found is at most what a rotation keeps. |
| ConfigFlat.ConfigRepository.ImportFromDict | src/thumbelina/config/config_repo.py:207-241 | Whatever order the items come in, the rows are the old ones with one for each non-sensitive leaf under its dotted key, and the count is the number of these leaves. |
| ConfigFlat.SecretsStayOut | src/thumbelina/config/config_repo.py:38-43 | An import into an empty table has a row for a leaf if and only if its key does not end in one of the five literal names, or is the one key that is allowed. |
| ConfigFlat.RowsAreLeaves | src/thumbelina/config/config_repo.py:222-241 | Every row of it is that of a leaf, with its value. |
| ConfigFlat.CountExact | src/thumbelina/config/config_repo.py:222-241 | The count of an import into an empty table is at least the number of rows, and equal to it if and only if no two of these leaves have one key. |
| ConfigFlat.ExportToDict | src/thumbelina/config/config_repo.py:261-272 | The loop rebuilds the tree as specified, in any order of rows, and fails where a leaf is in the way. |
| ConfigFlat.CleanExact | src/thumbelina/config/config_repo.py:228 | A path's key splits back into the path if and only if no name has a dot and no empty name stands in front of others. |
| ConfigFlat.InsertExact | src/thumbelina/config/config_repo.py:263-268 | A row whose path is apart from all leaves adds its leaf and changes no other. |
| ConfigFlat.RebuildExact | src/thumbelina/config/config_repo.py:261-272 | Prefix-free rows in any order give a tree with exactly their leaves and no empty dict. |
| ConfigFlat.RoundTripExact | src/thumbelina/config/config_repo.py:207-272 | Import into an empty table and export give the tree without sensitive leaves and emptied dicts, for every order of rows, if and only if every stored leaf's path is clean. |
| ConfigFlat.DeepMerge | src/thumbelina/config/loader.py:54-62 | The recursive loop computes the specified merge. |
| ConfigFlat.MergedLookup | src/thumbelina/config/loader.py:54-62 | A path has the overriding leaf, or the base's where the override says nothing about it, or else none. |
| ExtractorPrompt.SelectRecentTurns | src/thumbelina/memory/extractor.py:287-303 | The loop keeps the usable turns and then the tail the code slices, with the number the constructor clamps. |
| ExtractorPrompt.RecentTurnsExact | src/thumbelina/memory/extractor.py:287-303 | For every constructor argument the turns are the last usable ones, in order, as many as there are up to the number clamped to 8 to 12; earlier messages change nothing if and only if they have no usable turn or that number is reached without them. |
| ExtractorPrompt.NumbersExact | src/thumbelina/memory/extractor.py:217 | The clamp to 8 and 12 turns, and budgets of what the limit leaves or 256. |
| ExtractorPrompt.LinesExact | src/thumbelina/memory/extractor.py:425 | The history is divided at each of its line feeds and nowhere else. |
| ExtractorPrompt.TruncateHistory | src/thumbelina/memory/extractor.py:422-428 | The loop keeps the specified run of lines. |
| ExtractorPrompt.FittingExact | src/thumbelina/memory/extractor.py:422-428 | What is kept is the longest run of last lines that fits the budget. |
| ExtractorPrompt.BuildPrompt | src/thumbelina/memory/extractor.py:305-359 | The system prompt is that of a best-first prefix of the entries and the history that of the specified cut. |
| ExtractorPrompt.KeepingExact | src/thumbelina/memory/extractor.py:337-350 | Once entries are dropped they go from the worst on, and with every larger number short of all of them the history does not fit. |
| ExtractorPrompt.KeepsMostExact | src/thumbelina/memory/extractor.py:325-350 | As many entries are kept as the history fits beside, if and only if it is not the case that it fits beside all of them by the first budget and exceeds it with their block counted again. |
| ExtractorPrompt.OneEntryLost | src/thumbelina/memory/extractor.py:333-350 | In that case just one entry is lost, if dropping the last makes the system prompt no longer. |
| ExtractorPrompt.DroppedThoughFitting | src/thumbelina/memory/extractor.py:333-350 | A concrete prompt in which the only entry is dropped although the whole history fits beside it. |
| ExtractorPrompt.PromptFits | src/thumbelina/memory/extractor.py:325-359 | The estimate of system plus history is at most the limit, or the system's plus 256; a history that fits is whole, and otherwise its longest fitting tail. |
| Endpoints.EndpointManager.ClearAllActive | src/thumbelina/llm/endpoint_manager.py:205-216 | Every listed endpoint loses default mark and active model, and nothing else changes. |
| Endpoints.EndpointManager.CreateEndpoint | src/thumbelina/llm/endpoint_manager.py:239-267 | The new record and its index entry, after clearing the others if it is the default. |
| Endpoints.CreateExact | src/thumbelina/llm/endpoint_manager.py:239-267 | Field by field: the new endpoint, its place at the end of the index, and the others only cleared for a default. |
| Endpoints.EndpointManager.UpdateEndpoint | src/thumbelina/llm/endpoint_manager.py:269-305 | The changed record, and the others cleared exactly if it is made the default. |
| Endpoints.UpdateExact | src/thumbelina/llm/endpoint_manager.py:269-305 | Field by field: details and models as brought or as they were, the default mark, the active model kept, dropped or chosen; other endpoints only cleared, and only when another is made the default. |
| Endpoints.EndpointManager.DeleteEndpoint | src/thumbelina/llm/endpoint_manager.py:307-316 | Record and index entry go together. |
| Endpoints.DeleteExact | src/thumbelina/llm/endpoint_manager.py:307-316 | Exactly one endpoint leaves records and index. |
| Endpoints.EndpointManager.ActivateModel | src/thumbelina/llm/endpoint_manager.py:318-334 | Succeeds exactly for a stored endpoint with that model, and changes nothing when it fails. |
| Endpoints.ActivateStores | src/thumbelina/llm/endpoint_manager.py:318-334 | The endpoint is stored as the default with that model active, all else of it as it was, and the others are only cleared. |
| Endpoints.EndpointManager.GetActiveEndpointModel | src/thumbelina/llm/endpoint_manager.py:232-237 | The loop returns the first active pair in the order of the index. |
| Endpoints.RunsKeep | src/thumbelina/llm/endpoint_manager.py:205-334 | After any operations: the index lists exactly the records without repeats, at most one default, an active model belongs to the default and is one of its models. |
| Endpoints.RunsOperate | src/thumbelina/llm/endpoint_manager.py:239-334 | In every run each operation does what is stated of it. |
| Endpoints.ActiveExact | src/thumbelina/llm/endpoint_manager.py:232-237 | The pair returned is the default endpoint with its active model, whatever the order of the index, and there is none otherwise. |
| Endpoints.ActivateExact | src/thumbelina/llm/endpoint_manager.py:318-334 | The pair just activated is the active one if and only if the model has a name; every other endpoint is only cleared. |
| Endpoints.DeleteKeepsActive | src/thumbelina/llm/endpoint_manager.py:307-316 | Deleting keeps the active pair if and only if another endpoint is deleted. |
| Endpoints.OthersKeepActive | src/thumbelina/llm/endpoint_manager.py:269-305 | Updating another endpoint keeps the active pair if and only if it is not made the default. |
| Endpoints.ChangeKeepsActive | src/thumbelina/llm/endpoint_manager.py:282-301 | Updating the active endpoint keeps the pair if and only if it stays default and the model stays configured. |

## Left out

- PermissionBroker.PermissionBroker.PendingFor: the order of the dict's keys is a parameter; that it is the order of registration is not modelled.
- PermissionBroker.WaitExact: `wait` for an id that is not registered, which returns an empty list at once, adds no waiter; the cache of early responses is never written and is not modelled.
- ConversationLocks.LockRegistry.ConversationLockFor: the new lock object is a parameter that nothing refers to yet.
- MemoryStore.IndexIsCurrent: I/O failures and cancellation inside the critical section are left out; the locks are one holder of the index lock, which `FileLocks.MutualExclusion` justifies.
- MemoryIndex.MemoryService.UpdateMemory: the byte limit is a parameter, and so are the date and the order in which files are listed; names that `_resolve` refuses raise before the lock and are not modelled.
- RotatingLog.RotatingLogWriter.Rotate: compression is taken as lossless and left out, and so is newline translation on Windows.
- Utf8Truncate.TruncateExact: Dafny characters are Unicode scalar values; a lone surrogate, which Python fails to encode, is left out.
- ConfigFlat.ConfigRepository.ImportFromDict: values are their JSON form, taken to be read back as written.
- ExtractorPrompt.BuildPrompt: token estimator and prompt templates are arbitrary functions; the scoring that orders the entries is not modelled.
- Endpoints.EndpointManager.UpdateEndpoint: names, addresses and keys are one field and timestamps are left out; operations run one at a time.
- ToolGate.PermissionGate: tool events and trace are left out, and so is the first pass that raises the interrupt, after which the gate runs again with the answers; the decisions of the policy, of which only that it marks no other than allowed calls as automatic passes is taken over (src/thumbelina/tools/permissions.py:263, 268 and 562), tool results and timeouts are parameters.
- StreamBatch.Stream: rounds are those the graph has made so far; splitting a chunk into its parts, usage records and background tasks are left out.
- TurnStream.FanOutExact: what the receive loop does besides switching, and frames sent outside the stream, are left out.
- JsonSplit.SplitLeadingJson: `JSON.parse` is taken to accept exactly the grammar with surrounding white space.
- LLM providers, HTTP probes, QQ and WeChat channels, routing, CLI, start-up and the React client: wiring over libraries.
- `run_speed_test` and `test_connection`, which write back a record read before an await, and the preset manager.
- A claim that the WebSocket receive loop never blocks on a turn awaiting approval: its guard looks at one conversation at one moment only.
- Decision parsing, target validation and note guardrails of the extractor, full-text truncation by ratio, URL, usage and title clean-up: decided by single branches.
