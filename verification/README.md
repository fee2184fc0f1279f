# A verified model of the Discord bot's stateful cores

A Dafny model of the parts of the bot that must stay right while many things happen at once, with proofs over
whole runs. `dafny verify dfyconfig.toml` checks all of it.

**Sandbox conversation.** People write into a thread while a sandbox run works in it. A ledger keeps their messages
(received, presented, addressed, resolved), a filter weaves every shown message into each model call at a fixed place,
a gate refuses side effects while input is unanswered, and a boundary closes the run. `ThreadInbox` and `Conversation`
say what each operation does to the whole state; `RunLedgers` and `SandboxConversations` are the objects that do it in
place; `ConversationRuns` interleaves deliveries, model calls, tool calls and questions, one step for each stretch of
code without an await. `Weaving`, `PrefixStability`, `GateSafety`, `RefusalsEnd` and `RefusalsBounded` build up to `ConversationTheorems`, and
`CoveredMessages` to what the gate's cover means for each message; `ShownMessages` follows what was said into the input
and the outcomes, `RecordedAnswers` what the model decides, and
`OpenQuestions` what it asks;
`Finishing`, `SandboxAgent`, `ConversationRecord`, `RecordJson` and `RecordSaving` cover continuations, the boundary and the record
saved for the thread's next run.

**Automations.** Schedules, follow-ups and rules in Redis. `AutomationStore` gives each transaction's effect;
`AutomationClients` lets any number of clients watch, read unwatched rows one at a time, commit, crash and start over,
with records expiring at any moment. `AutomationRuns` shows that every step is one serial transaction, and
`AutomationTheorems` states what follows; `AutomationPoller` adds the poller's own removals, which are outside any
transaction, and `AutomationExpiry` which records are kept for good; `AutomationEffects` tells field by field what a
creation, an edit and an outcome do and when they are refused, `AutomationFollowUps` what a person's last follow-up has
to do with the next; `AutomationRetries` runs the edit and outcome loops of one process against
whatever the others commit. `AutomationPolicy` is the recurrence arithmetic on whole microseconds, over a
timezone given as a function, `AutomationTimetable` what it finds and accepts in terms of that calendar; `AutomationRunner` is claims, busy locks and start markers.

**Anchored history.** Which channel history goes into a prompt. `HistoryPolicy` is one build, `HistoryRuns` and
`HistoryTheorems` any sequence of builds in any order of triggers with the channel's anchor evicted at any moment,
`AnchorStore` the anchors kept for many channels, `MessageHistory` the store and handler objects with their loops.

**Attachment cache.** `ImageCache` is each operation's effect, `AttachmentCaches` the object, `ImageCacheRuns` and
`ImageCacheTheorems` any run of builds, loads that end whenever they do, edits, deletions and time, `ImageCacheUse` what
such a run keeps and serves.

**Sandbox inputs.** `SandboxInputs`: file names made safe and distinct.

Where the code does not keep a promise its documentation makes, the model follows the code; a lemma gives an input that
shows it and another says exactly when the promise holds:

- a response covers a message for the gate before its respond call has recorded anything, so an action can start on a
  message nobody answered (`ConversationExample.CoveredIsNotAnswered`; `CoveredMessages.StartsUnansweredIff`);
- a message promised to the next run is cut to 500 characters (`RecordSaving.LongFollowUpsAreCut`;
  `RecordSaving.CarriedInFullIff`), and lost if each of five saves is followed by another follow-up or if the follow-ups
  exceed the byte cap (`RecordSaving.FollowUpsCanBeLost`, `RecordSaving.WideFollowUpsAreCut`;
  `RecordSaving.EveryFollowUpStoredIff`);
- recording an outcome removes the time to live of a deleted or finished record
  (`AutomationExpiry.DeletedIsKept`; `AutomationExpiry.KeptForGoodIff`);
- the poller's removal from the due set can undo a resume (`AutomationPoller.LostScheduleIsReachable`;
  `AutomationPoller.DueStaysRightIff`);
- one slot skipped by a clock change makes a weekly schedule be refused, or suspended when it is polled, not only when
  it is the next slot but also when it is the one after (`AutomationPolicy.SkippedSlotRefused`,
  `AutomationPolicy.SuspendedTwoWeeksAhead`; `AutomationPolicy.WeeklyAcceptedIff`);
- after an empty trigger a history refresh can reach further back than the one before
  (`HistoryTheorems.TrimmedBoundCanMoveBack`; `HistoryTheorems.BoundMovesBackIff`).

The hypotheses the main results rest on: the SDK's items hold no thread messages, and for results across calls only grow from call to call; new
automation ids and claim tokens never repeat; a channel is append-only with increasing ids and settings stay fixed; an image load
ends within the time to live of an invalidation it outlasts. `ImageCacheTheorems.LateLoadRestoresDeleted` is the reason
for the last one, which the code's own loader keeps by a wide margin, and `ImageCacheTheorems.StaleIsStoredIff` says
exactly what happens without it. It is about hits: a build that shares a load already under way may get an image from
before an edit (`ImageCacheTheorems.SharedLoadIsStaleIff`).

## Model

| member | source | states |
|---|---|---|
| `ConversationTheorems.InputIsFaithful` | core/classes/sandbox_conversation.py:192-225 | In every reachable state, whatever items the SDK sends, the next call's input is those items with every retained message shown exactly once, in the order of acceptance; erasing the messages gives the SDK's items back |
| `ShownMessages.InputSaysWhatWasSaid` | core/classes/sandbox_conversation.py:131-225 | Over any run each retained message is in the next input exactly once, under its number, with what was delivered under it: its stripped text, author, attachments, whether it is the requester's, and what it may answer |
| `ConversationTheorems.LaterCallsExtend` | core/classes/sandbox_conversation.py:192-237 | Of any two completed calls the later input begins with the earlier one less the messages compacted since, hence with all of it if and only if none of its messages was compacted |
| `ConversationTheorems.GatedActionsSawEverything` | core/classes/sandbox_conversation.py:262-317 | Whenever a gated action starts, every message accepted so far was in a completed model call, no blocking question waits, and each shown, unanswered message is covered by the current response or was given up on |
| `ConversationTheorems.AllowedIff` | core/classes/sandbox_conversation.py:262-298 | Exactly when the gate lets an action run, in terms of the state before it is asked |
| `RecordedAnswers.GateSays` | core/classes/sandbox_conversation.py:262-302 | Which of the gate's refusals is given: a waiting blocking question, the number of unseen messages, or messages shown, undecided and uncovered; each refusal is counted once |
| `CoveredMessages.ResponseCovers` | core/classes/sandbox_conversation.py:240-254 | After a completed call, a message is covered if and only if a respond call of the response names it, or one names nothing and the message is shown, undecided and not given up on |
| `CoveredMessages.OwnCallsLetRunIff` | core/classes/sandbox_conversation.py:240-298 | When a response's own respond calls let its gated action run, from the state before it arrived |
| `ConversationTheorems.MessageRefusesTwice` | core/classes/sandbox_conversation.py:277-290 | Over any run, one message is named by refusals in at most two distinct responses, however many gated calls each makes |
| `ConversationTheorems.RefusalsEndAfterDeliveries` | core/classes/sandbox_conversation.py:262-298 | Once deliveries stop and no blocking question waits, at most forty-one more responses are refused, and at most three if the model never acknowledges |
| `ConversationTheorems.LedgerAccounts` | core/classes/sandbox_thread_inbox.py:220-401 | In every reachable ledger: accepted = retained + compacted; 60 events, 20 pending, 4000 pending characters, 10 follow-ups at most; whatever is no longer retained was in a completed call; a status claiming a response means a shown message with that decision recorded |
| `ConversationTheorems.OnlyResolvedAreCompacted` | core/classes/sandbox_thread_inbox.py:274-287 | From any reachable state, whatever a step takes out of the ledger was resolved |
| `ConversationTheorems.StageAgreesWithOutcome` | core/classes/sandbox_thread_inbox.py:319-350 | In every reachable ledger a decision is recorded exactly on what is addressed or resolved, and addressed means it will still be applied |
| `ConversationExample.CoveredIsNotAnswered` | core/classes/sandbox_conversation.py:333-338 | The gate's cover is claimed before the respond call runs: an action starts on a message nobody answered if that call has an unknown decision, or runs only after the action started |
| `CoveredMessages.StartsUnansweredIff` | core/classes/sandbox_conversation.py:240-298 | Which messages a gated action starts on unanswered, in every reachable state: exactly those shown and unanswered when its response arrived, covered by it, and not yet decided by one of its respond calls |
| `CoveredMessages.CoveringCallAnswersIff` | core/classes/sandbox_conversation.py:333-352 | A respond call that covers an unanswered message leaves it unanswered if and only if its decision is unknown |
| `Weaving.FilteredIsWoven` | core/classes/sandbox_conversation.py:192-225 | The filter's slot-by-slot construction builds exactly the simple form: each message inserted at its own anchor |
| `Weaving.KeepWeave` | core/classes/sandbox_conversation.py:192-225 | Dropping messages from a woven input is weaving the messages that are left |
| `PrefixStability.StepLog` | core/classes/sandbox_conversation.py:192-254 | Every step keeps: what is retained of each completed input begins what would be sent now |
| `ConversationRuns.StepLedgerOk` | core/classes/sandbox_thread_inbox.py:220-375 | Every step of a run keeps the ledger's invariant, the anchors within the last input, and what is staged equal to what was unseen when the call went out |
| `GateSafety.StepCovered` | core/classes/sandbox_conversation.py:229-237 | Every step keeps: each accepted message is unseen or was in a completed call, and a call in flight shows what it staged |
| `GateSafety.AllowedMeans` | core/classes/sandbox_conversation.py:262-298 | The gate allows an action only with nothing unseen and nothing shown left open |
| `GateSafety.StepRefusals` | core/classes/sandbox_conversation.py:277-290 | Every step keeps the refusal count of each message at least the number of responses it was refused over, and within the cap while it is open |
| `RefusalsEnd.QuietRefusalsBounded` | core/classes/sandbox_conversation.py:262-298 | The ranking argument: in a quiet run refused responses are bounded by four for each message still unanswered |
| `RefusalsBounded.TwoForEachPending` | core/classes/sandbox_conversation.py:262-298 | In a quiet run at most two more responses are refused for each message pending at its start, and one more |
| `RefusalsEnd.SilentRefusalsBounded` | core/classes/sandbox_conversation.py:277-290 | A model that never acknowledges has at most three more responses refused |
| `LedgerInvariant.DeliverKeeps` | core/classes/sandbox_thread_inbox.py:220-287 | A delivery keeps the ledger's bounds, order and accounting |
| `LedgerInvariant.DropResolvedMembers` | core/classes/sandbox_thread_inbox.py:274-287 | Compaction drops only resolved messages |
| `LedgerInvariant.DropResolvedPending` | core/classes/sandbox_thread_inbox.py:274-287 | Compaction changes neither what is pending nor its size |
| `LedgerInvariant.PresentKeeps` | core/classes/sandbox_thread_inbox.py:306-317 | Presenting keeps the ledger's invariant |
| `LedgerInvariant.DecideKeeps` | core/classes/sandbox_thread_inbox.py:319-345 | Recording a decision keeps the invariant, also when it takes a resolved message back to addressed |
| `RecordedAnswers.AnswerTo` | core/classes/sandbox_thread_inbox.py:220-272 | How every delivery is answered: which messages are repetitions, without words, too long, refused for want of room, filed for the next run, or accepted |
| `RecordedAnswers.DecisionIsRecorded` | core/classes/sandbox_conversation.py:333-352 | After a respond call, exactly the shown messages it is about have the decision given, its stage, and its reply unless blank; nothing else of any message changes |
| `RecordedAnswers.DecisionChanges` | core/classes/sandbox_thread_inbox.py:319-345 | A decision that promises or reports a change counts once if it is about a shown message; the open question closes if it is answered; the rest of the ledger stays |
| `OpenQuestions.QuestionIs` | core/classes/sandbox_thread_inbox.py:352-358 | Over any run the open question is the one asked last, with its text, and waiting, message and timeout as the steps since left it |
| `OpenQuestions.NumberedAsAsked` | core/classes/sandbox_thread_inbox.py:352-358 | Over any run questions are numbered as they are asked |
| `OpenQuestions.ClosesIff` | core/classes/sandbox_thread_inbox.py:319-362 | A question closes if and only if it is dropped or a decision is recorded on a message that may be answering it |
| `OpenQuestions.PhaseIs` | core/classes/sandbox_thread_inbox.py:367-375 | Over any run the ledger is closed once released, else finalizing once finished, else running once started |
| `ShownMessages.OutcomesTellAll` | core/classes/sandbox_thread_inbox.py:377-401 | Over any run, the outcomes tell in order what was delivered, by whom, and what became of it |
| `RunLedgers.RunLedger.Deliver` | core/classes/sandbox_thread_inbox.py:220-272 | The ledger object after a delivery, and the answer given, are those of the specification |
| `RunLedgers.RunLedger.Compact` | core/classes/sandbox_thread_inbox.py:274-287 | The in-place compaction loop drops the oldest resolved messages beyond the cap, and counts them |
| `RunLedgers.RunLedger.MarkPresented` | core/classes/sandbox_thread_inbox.py:306-317 | Exactly the unseen messages named are presented at the anchor |
| `RunLedgers.RunLedger.RecordDecision` | core/classes/sandbox_thread_inbox.py:319-345 | Exactly the shown messages named are decided; the others are reported unknown; an answered question closes |
| `RunLedgers.RunLedger.OpenQuestion` | core/classes/sandbox_thread_inbox.py:352-358 | A question is registered with the next number |
| `RunLedgers.RunLedger.CloseQuestion` | core/classes/sandbox_thread_inbox.py:360-362 | Only the open question with that number is closed |
| `RunLedgers.RunLedger.Finalize` | core/classes/sandbox_thread_inbox.py:367-375 | The boundary is committed once; later calls change nothing |
| `RunLedgers.RunLedger.Outcomes` | core/classes/sandbox_thread_inbox.py:377-401 | One row for each event and follow-up, in order, with its status |
| `SandboxConversations.SandboxConversation.InputFilter` | core/classes/sandbox_conversation.py:192-225 | The nested placement loops build the specified input and stage the unseen messages |
| `SandboxConversations.SandboxConversation.OnModelResponse` | core/classes/sandbox_conversation.py:229-254 | A completed call presents what was staged and sets what the response covers |
| `SandboxConversations.SandboxConversation.Gate` | core/classes/sandbox_conversation.py:262-298 | The gate's verdict and state are the specified ones |
| `SandboxConversations.SandboxConversation.CountRefusals` | core/classes/sandbox_conversation.py:277-292 | The in-place counting loop counts once per response, gives up past the cap and names the rest |
| `SandboxConversations.SandboxConversation.Respond` | core/classes/sandbox_conversation.py:333-352 | A respond call records exactly the specified decision, or nothing for an unknown word |
| `SandboxConversations.SandboxConversation.ContinuationNudge` | core/classes/sandbox_conversation.py:461-487 | When the model is sent back, and that outdated files are mentioned once |
| `SandboxAgent.Perform` | core/classes/sandbox_conversation.py:192-495 | The objects take every step as the specification does |
| `SandboxAgent.RunToFinish` | core/classes/sandbox_agent.py:2095-2130 | The continuation loop on the objects ends as specified |
| `Finishing.WithinBudget` | core/classes/sandbox_agent.py:2077-2089 | All passes together use at most one turn budget, and there are at most three |
| `Finishing.LastCompletedAnswer` | core/classes/sandbox_agent.py:2099-2126 | The ending is the last pass's answer if it completed, the latest completed answer before it if it failed, and no answer otherwise |
| `Finishing.AnotherPassIff` | core/classes/sandbox_agent.py:2117-2126 | There is another pass if and only if the last completed, a message is unattended or outdated files stand beside newer ones for the first time, and the bounds leave room |
| `Finishing.FinishedStaysFinished` | core/classes/sandbox_agent.py:2091-2126 | Finishing with no nudge left means no message is unaddressed, then or ever after |
| `Finishing.PastRun` | core/classes/sandbox_thread_inbox.py:367-375 | After the boundary no message is accepted into the run, and none becomes unaddressed that was not |
| `ConversationRecord.CarriedAreLoose` | core/classes/sandbox_conversation_store.py:40-58 | The carried items are, in order, exactly the rows not seen to, with 40 characters of author and 500 of text |
| `ConversationRecord.RecordSays` | core/classes/sandbox_conversation_store.py:40-58 | A record has the outcome, up to 500 characters of an open question, and the last ten carried items |
| `ConversationRecord.TrimmedIsSuffix` | core/classes/sandbox_conversation_store.py:107-112 | Trimming keeps the newest items, as many as fit, and ends within the byte cap or with none |
| `ConversationRecord.TrimmedTail` | core/classes/sandbox_conversation_store.py:107-112 | Of the items it ends with a record keeps all if and only if they fit by themselves, and otherwise the newest of them |
| `RecordJson.RecordSize` | core/classes/sandbox_conversation_store.py:107-111 | The size the byte cap is compared with is the UTF-8 length of the record's JSON text |
| `RecordJson.StoredFits` | core/classes/sandbox_conversation_store.py:107-111 | What is stored takes at most 16000 bytes or carries nothing, and one item more would have taken more |
| `ConversationRecord.NarrowFits` | core/classes/sandbox_conversation_store.py:27-33 | A record of text of at most two bytes a character always fits, so nothing is dropped from it |
| `ConversationRecord.BuildRecordLoop` | core/classes/sandbox_conversation_store.py:40-58 | The loop builds the record of loose ends |
| `ConversationRecord.TrimLoop` | core/classes/sandbox_conversation_store.py:107-112 | The trimming loop computes the trimmed record |
| `RecordSaving.SaveConversationRecord` | core/classes/tool_functions.py:755-784 | The save loop on the ledger object, with messages arriving while each save is awaited, ends as specified |
| `RecordSaving.SavedIffSomeWindowQuiet` | core/classes/tool_functions.py:755-781 | The stored record is made from the final ledger if and only if one of the five saves brought no new follow-up, it and those before it having succeeded |
| `RecordSaving.StoredTells` | core/classes/tool_functions.py:755-784 | A record is stored if and only if the first save succeeds; it has the outcome and up to 500 characters of the question left open |
| `RecordSaving.EveryFollowUpStoredIff` | core/classes/tool_functions.py:755-781 | Every follow-up taken by the release is in the stored record if and only if that is so and the follow-ups fit the byte cap by themselves, when no two are carried alike |
| `RecordSaving.RecordHasEveryFollowUp` | core/classes/sandbox_conversation_store.py:40-58 | The ten-item record always has room for the ten follow-ups |
| `RecordSaving.FinishingIsKept` | core/classes/sandbox_thread_inbox.py:247-254 | A message answered "finishing" is a follow-up of the run, whatever arrives before it or after |
| `RecordSaving.FinishingMessagesSaved` | core/classes/tool_functions.py:755-781 | Under those two conditions, alike or not, every message answered "finishing" is in the stored record |
| `RecordSaving.AnsweredFinishingIsSaved` | core/classes/tool_functions.py:755-784 | From the answer to the record: a message answered "finishing" is in what is stored, under those two conditions |
| `RecordSaving.LastFollowUpLost` | core/classes/tool_functions.py:752-781 | Five saves each followed by one more message: the last was answered "finishing" and is not in the stored record |
| `RecordSaving.FollowUpsCanBeLost` | core/classes/tool_functions.py:752-781 | And it does come about: a finishing run and five messages |
| `RecordSaving.WideFollowUpsAreCut` | core/classes/sandbox_conversation_store.py:107-112 | Every save succeeds and nothing comes meanwhile; ten follow-ups of 500 four-byte characters are not all stored |
| `RecordSaving.LongFollowUpsAreCut` | core/classes/sandbox_conversation_store.py:29-33 | A message of 501 characters is answered "finishing" and its follow-up is cut |
| `RecordSaving.CarriedInFullIff` | core/classes/sandbox_conversation_store.py:29-33 | A follow-up is carried word for word if and only if it has at most 500 characters, though 1000 are accepted |
| `AutomationPolicy.NextIsLater` | core/classes/automation_policy.py:101-137 | Whatever the timing, the next run is strictly later than the time asked about |
| `AutomationPolicy.IntervalIsFirstGridPoint` | core/classes/automation_policy.py:113-124 | An interval's next run is the first point of its anchored grid after that time |
| `AutomationPolicy.ScanDays` | core/classes/automation_policy.py:129-137 | The nine-day loop is the specified scan |
| `AutomationPolicy.ScanIsFirst` | core/classes/automation_policy.py:125-137 | What a daily or weekly scan finds is the first occurrence on any day at all |
| `AutomationPolicy.WeeklyFailsIff` | core/classes/automation_policy.py:125-137 | A weekly schedule has no next run if and only if none of its days among the nine scanned has a later slot |
| `AutomationPolicy.AcceptedIff` | core/classes/automation_policy.py:170-183 | A daily or weekly schedule is accepted, when made, edited or polled, if and only if its next slot and the one after that are each among the nine days scanned, the minimum apart |
| `AutomationPolicy.WeeklyAcceptedIff` | core/classes/automation_policy.py:125-183 | A weekly one if and only if its next slot is among the nine days scanned and the week after that has one too, the minimum later |
| `AutomationPolicy.SkippedSlotRefused` | core/classes/automation_policy.py:125-137 | One skipped slot two to six days ahead: no next run is found, so the schedule is refused; asked on the skipped day itself, it is the week after |
| `AutomationPolicy.SuspendedTwoWeeksAhead` | core/classes/automation_policy.py:170-183 | Due on a Monday, polled then, and the Monday two weeks on is skipped: a next run is found, yet the schedule is refused |
| `AutomationPolicy.FollowingIsFirst` | core/classes/automation_policy.py:158-167 | The next run is the first grid point after the occurrence and now that also respects the gap less the grace |
| `AutomationPolicy.StartsKeepTheirGap` | core/classes/automation_policy.py:140-167 | Over any run of an unedited interval schedule occurrences stay on its grid and starts keep at least the minimum less fifteen minutes |
| `AutomationPolicy.NextSlotTakenIff` | core/classes/automation_policy.py:150-167 | The next slot is taken if and only if it is still ahead and respects the gap; a run on time never skips it |
| `AutomationTimetable.DailyIsFirst` | core/classes/automation_policy.py:126-137 | A daily next run is a slot of one of the nine days and at or before every later slot of any day |
| `AutomationTimetable.DailyFailsIff` | core/classes/automation_policy.py:126-137 | A daily schedule has no next run if and only if none of the nine days has a later slot |
| `AutomationTimetable.WeeklyIsFirst` | core/classes/automation_policy.py:126-137 | A weekly next run is a slot of its weekday and at or before every later one of any week |
| `AutomationTimetable.DailyAcceptedIff` | core/classes/automation_policy.py:170-183 | When a daily schedule is accepted, in terms of the calendar alone |
| `AutomationTimetable.IntervalAcceptedIff` | core/classes/automation_policy.py:170-183 | An interval is accepted if and only if it is positive and no shorter than the minimum |
| `AutomationTimetable.IntervalSteps` | core/classes/automation_policy.py:113-125 | From a point of its grid an interval goes on exactly one step later |
| `AutomationTimetable.OnceAcceptedIff` | core/classes/automation_policy.py:104-112 | A one-off is accepted at its instant if and only if that exists and is ahead |
| `AutomationTimetable.AcceptedForNextRun` | core/classes/automation_policy.py:170-183 | Whatever is accepted is accepted for its next run |
| `AutomationTimetable.DailyFollowingIsFirst` | core/classes/automation_policy.py:158-167 | After a run a daily schedule goes on with the first slot past its occurrence, now and the gap less fifteen minutes |
| `AutomationInvariant.SerialKeeps` | core/classes/automation_store.py:92-333 | Every transaction, and the poller's own removal, keeps what is due enabled and at its next run, the index, the quotas, the spacing of follow-ups and the revision log right |
| `AutomationInvariant.SerialDue` | core/classes/automation_store.py:92-333 | A due set that is right about a record stays right, except exactly when the record is removed while enabled |
| `AutomationInvariant.OnlyEditsEnable` | core/classes/automation_store.py:170-228 | Only an edit that sets it enabled makes a known record an enabled schedule |
| `AutomationInvariant.SerialDescends` | core/classes/automation_store.py:170-322 | Every transaction only moves a record forward: identity and a follow-up's time stay, and nothing inactive becomes active |
| `AutomationInvariant.UpdatedDescends` | core/classes/automation_store.py:170-228 | An edit moves its record forward by one revision, never to a finished status |
| `AutomationInvariant.FinishedDescends` | core/classes/automation_store.py:281-322 | An outcome keeps the revision and, unless it advances, status and timing |
| `AutomationEffects.CreatedIff` | core/classes/automation_store.py:92-168 | A request is granted if and only if it is well asked and finds room; then exactly its record is added, listed, and due if a schedule |
| `AutomationEffects.EditDoes` | core/classes/automation_store.py:170-231 | After a committed edit each field asked for has the value asked for, every other is as before, the editor is the actor, and an enabled schedule runs next when validation says |
| `AutomationEffects.EditRefusedIff` | core/classes/automation_store.py:170-231 | Exactly when an edit is committed or refused |
| `AutomationEffects.OutcomeDoes` | core/classes/automation_store.py:281-322 | An outcome is noted, ends a one-off that is still wanted, completed or failed, and remembers a follow-up's time for its person; nothing else changes but the due set |
| `AutomationEffects.CleanedAfterAWeek` | core/classes/automation_store.py:324-333 | Cleaning up takes an ended one-off off the list exactly from a week after its end |
| `AutomationRuns.AdmittedNow` | core/classes/automation_store.py:129-144 | Rows read one at a time and unwatched still decide an admission rightly while the index is unchanged |
| `AutomationRuns.StepIsSerial` | core/classes/automation_store.py:92-333 | Refinement: what a client's step does to the store is what its whole transaction does alone |
| `AutomationRuns.StepKeeps` | core/classes/automation_store.py:92-333 | Every step keeps what is known of each transaction under way and of every row somebody holds |
| `AutomationTheorems.RunsAreSerial` | core/classes/automation_store.py:92-333 | Serializability: any interleaving leaves the store as its committed transactions do one after another |
| `AutomationTheorems.LimitsHold` | core/classes/automation_store.py:73-168 | With any number of clients no quota is exceeded, and one person's listed follow-ups are at least the minimum gap apart |
| `AutomationFollowUps.FollowUpsKeepClear` | core/classes/automation_store.py:129-142 | Over any interleaving, every follow-up created is the minimum away from the last one of its person that has run, as read during its creation |
| `AutomationFollowUps.CommitsIff` | core/classes/automation_store.py:121-166 | While what it read is still so, a client's creation commits if and only if the request finds room and is clear of the person's last follow-up |
| `AutomationTheorems.DueAndRevisions` | core/classes/automation_store.py:170-322 | Whatever is due is an enabled schedule, at its next run; the revision is one plus the committed edits; no two edits naming one revision both commit |
| `AutomationTheorems.HeldRowsAreEarlier` | core/classes/automation_runner.py:104-123 | A row a job carries is always an earlier state of its record |
| `AutomationTheorems.FinishAdvances` | core/classes/automation_store.py:281-322 | An outcome never overwrites an edit; one that advances takes a one-off from the due set, or moves the schedule strictly past both its occurrence and the present |
| `AutomationTheorems.FinishSetsExpiryIff` | core/classes/automation_store.py:307-308 | Writing an outcome leaves a time to live if and only if it ends a one-off |
| `AutomationTheorems.OutcomeAfterDeletionLingers` | core/classes/automation_store.py:307-308 | So an outcome arriving after a deletion makes the deleted record permanent: no later transaction removes it |
| `AutomationExpiry.KeptForGoodIff` | core/classes/automation_store.py:307-308 | Over any run, an ended record has no time to live if and only if an outcome was written for it after its end and it has not been deleted again since |
| `AutomationExpiry.DeletedIsKept` | core/classes/automation_store.py:307-308 | From the empty store: a job holds a row, its schedule is deleted, the outcome is recorded, and the record is kept for good |
| `AutomationPoller.DueStaysRightIff` | core/classes/automation_runner.py:96-107 | The due set stays right about a record throughout a run if and only if no poller removes it after an edit, between the reading of its row and the removal, enabled it for good |
| `AutomationPoller.FindResume` | core/classes/automation_runner.py:104-107 | If a record is enabled when a poller removes it, an edit resumed it after its row was read |
| `AutomationPoller.ResumeLosesToPoller` | core/classes/automation_runner.py:96-107 | Whenever a repeating schedule is due: listed, paused, its row read, resumed and removed, it ends up enabled, its next run ahead, and never due |
| `AutomationPoller.LostScheduleIsReachable` | core/classes/automation_runner.py:96-107 | And that comes about, from the empty store on |
| `AutomationRetries.Store.Update` | core/classes/automation_store.py:170-231 | The edit loop: after at most eight attempts the store holds what other clients did meanwhile and, only if it committed, this edit last, its interval still anchored at the first attempt |
| `AutomationRetries.PinnedOnce` | core/classes/automation_store.py:195-196 | The anchor of the first attempt is the one a retried edit keeps |
| `AutomationRetries.Store.Finish` | core/classes/automation_store.py:281-322 | The outcome loop, likewise |
| `AutomationRetries.Unwritten` | core/classes/automation_store.py:174-228 | Whatever other clients commit, a watched key that was not written still has its value |
| `AutomationRunner.StepRunnerOk` | core/classes/automation_store.py:236-265 | Every claim, start, end, crash and expiry keeps starts distinct and locks with their owners |
| `AutomationRunner.StartedOnce` | core/classes/automation_runner.py:209-213 | While markers last no occurrence is begun twice |
| `AutomationRunner.OneLiveJob` | core/classes/automation_store.py:236-245 | Two live jobs of one schedule whose locks have not expired are the same job |
| `AutomationRunner.LockIsKept` | core/classes/automation_store.py:247-265 | Only its own job or expiry takes a lock away, and while it is held nobody else can claim |
| `AutomationRunner.GivenBackIff` | core/classes/automation_runner.py:137-150 | A job given back lets its occurrence be claimed again if and only if nobody took it since; one that ended does not |
| `AutomationRunner.RunsIff` | core/classes/automation_runner.py:209-213 | A start runs the action if and only if the occurrence was never begun before |
| `AutomationRunner.LockedIff` | core/classes/automation_store.py:236-265 | A schedule is locked if and only if a job of it was admitted that was neither ended nor discarded and whose lock has not expired |
| `HistoryTheorems.KeptWindowIsExact` | core/classes/message_handler.py:319-331 | A kept window is exactly the messages between the anchor and the trigger, each once and in order |
| `HistoryTheorems.PromptsExtend` | core/classes/message_handler.py:311-340 | Of any two builds that kept or set the same anchor, in whatever order they ran, the later trigger's prompt begins with the other's whole prompt |
| `HistoryTheorems.StaleIsPrivate` | core/classes/history_policy.py:158-166 | A trigger older than the last refresh, and only such a one, gets its own sliding window and changes no state |
| `HistoryTheorems.WindowIsSlice` | core/classes/message_handler.py:311-373 | Every window is one stretch of the channel ending at its trigger, without a reset and within the bound |
| `HistoryTheorems.NoWindowCrossesReset` | core/classes/message_handler.py:351-373 | No window holds a message at or before a reset that precedes its trigger, nor more than limit + refresh_every - 2 messages |
| `HistoryTheorems.PromptFits` | core/classes/history_policy.py:284-299 | Every prompt fits the token budget or is the trigger alone |
| `HistoryTheorems.TriggerMovesForward` | core/classes/history_policy.py:218-232 | While the channel stays in the store its anchor moves exactly at a refresh for another trigger, strictly forward |
| `HistoryTheorems.RefreshesAreRare` | core/classes/history_policy.py:169-185 | Without evictions, resets and budget refreshes, N messages cause at most 1 + N / refresh_every refreshes, in any order of triggers |
| `HistoryTheorems.BoundMovesBackIff` | core/classes/history_policy.py:188-197 | A refresh moves the lower bound back if and only if one message more than the old window held still fits |
| `HistoryTheorems.BoundNeverMovesBack` | core/classes/history_policy.py:188-197 | The lower bound never moves back while no trigger costs more alone than as history, or nothing is trimmed |
| `HistoryTheorems.TrimmedBoundCanMoveBack` | core/classes/message_handler.py:306-349 | Otherwise it can: four messages with costs the estimates give, the third an empty trigger |
| `HistoryRuns.KeepIff` | core/classes/history_policy.py:169-185 | A build keeps its window if and only if too little is new, there is no reset and it fits, in terms of the whole channel rather than the capped fetch |
| `HistoryRuns.BurstIsThreshold` | core/classes/history_policy.py:130-138 | The burst rule fires only where the threshold rule also would |
| `HistoryRuns.DecisionIs` | core/classes/history_policy.py:158-185 | What a build decides and why, in terms of the whole channel: cold, stale, burst, reset, threshold, budget or kept |
| `HistoryRuns.AnchorIsOk` | core/classes/history_policy.py:188-197 | Every reachable anchor stands at most limit - 1 messages before its refresh trigger, with no reset between |
| `HistoryPolicy.TrimIsLeast` | core/classes/history_policy.py:284-299 | Trimming drops the fewest of the oldest messages |
| `HistoryPolicy.RecentIsNewest` | core/classes/message_handler.py:351-364 | A recent window stops only at its count, a reset or the start of the channel |
| `MessageHistory.HistoryStore.Get` | core/classes/history_policy.py:212-216 | A read marks the channel as used last and changes nothing else |
| `MessageHistory.HistoryStore.Commit` | core/classes/history_policy.py:218-232 | A state is stored if and only if its trigger is newer; the channels used longest ago make room; the whole new state |
| `MessageHistory.TrimCount` | core/classes/history_policy.py:284-299 | The trimming loop computes the specified count |
| `MessageHistory.MessageHandler.FetchRecent` | core/classes/message_handler.py:351-364 | The newest-first loop, stopping at a reset, reads the specified stretch |
| `MessageHistory.MessageHandler.FetchAfter` | core/classes/message_handler.py:366-373 | The oldest-first loop reads the specified stretch |
| `MessageHistory.MessageHandler.AnchoredGroups` | core/classes/message_handler.py:311-340 | The window and the committed anchor are the specified ones; no other channel's anchor changes |
| `MessageHistory.MessageHandler.SelectMessages` | core/classes/message_handler.py:244-267 | Both modes choose the specified history; sliding mode touches no anchor |
| `AnchorStore.StaysWhileRecent` | core/classes/history_policy.py:205-232 | Over any run of reads and commits, a channel just used keeps its anchor until as many other channels as the store holds have been used |
| `AnchorStore.StaysAfterUse` | core/classes/history_policy.py:205-232 | Over any run from the empty store, a channel whose anchor was found or written anew still has one until as many others have been used |
| `AnchorStore.UseIsLast` | core/classes/history_policy.py:212-232 | A read that finds an anchor and a newer write make the channel the one used last, with that anchor |
| `AnchorStore.HoldsNewest` | core/classes/history_policy.py:218-232 | Over any run the anchor kept was written, and no write of its channel since was newer |
| `ImageCacheTheorems.BytesAndLoads` | core/classes/attachment_cache.py:91-160 | Always: the byte counter is the total size of the entries, within the cap, and no key has two unfinished loads |
| `ImageCacheTheorems.HitsAreCurrent` | core/classes/attachment_cache.py:79-138 | If every load ends within the time to live of any invalidation it outlasts, each hit comes from a load for that attachment begun after every invalidation of its message |
| `ImageCacheTheorems.StaleIsStoredIff` | core/classes/attachment_cache.py:127-138 | Without that, a stale load puts its image back if and only if no record of its message is left |
| `ImageCacheTheorems.LateLoadRestoresDeleted` | core/classes/attachment_cache.py:127-166 | For every cache that can hold an image, a run in which a deleted message's image comes back and is served |
| `ImageCacheTheorems.DeletionsAreReported` | core/classes/attachment_cache.py:106-125 | A build is told of every deletion since it chose its messages, whatever edits follow, for the time to live; and of none that did not happen |
| `ImageCacheTheorems.SharedLoadIsStaleIff` | core/classes/attachment_cache.py:94-104 | A build asking right after an invalidation gets an image from before it if and only if a load was under way |
| `ImageCacheUse.StaysWhileItFits` | core/classes/attachment_cache.py:79-151 | Over any run, an image served or stored is served again for its time to live, unless its message is invalidated, while it and the other images used since fit the cap together |
| `ImageCacheUse.HitsAreFresh` | core/classes/attachment_cache.py:79-151 | Over any run, every image served was loaded for that attachment less than a time to live ago, its message not invalidated since |
| `ImageCacheUse.LoadIsServed` | core/classes/attachment_cache.py:127-151 | A load that fits, and during which its message was not invalidated, is served from the moment it ends |
| `ImageCacheRuns.StepRemembered` | core/classes/attachment_cache.py:106-116 | Every step keeps: an invalidation within its time to live, and that it was a deletion, is remembered |
| `ImageCacheRuns.StepLoads` | core/classes/attachment_cache.py:91-138 | Every step keeps the byte counter right and each unfinished load the one in flight for its key |
| `ImageCache.EvictsFewestOldest` | core/classes/attachment_cache.py:149-151 | Eviction drops the fewest of the entries used longest ago |
| `ImageCache.EvictOk` | core/classes/attachment_cache.py:149-151 | Over the cap there is always an entry to drop, so eviction ends within the cap |
| `ImageCache.StoreKeeps` | core/classes/attachment_cache.py:140-151 | A stored image that fits is there afterwards with a full time to live; no other entry is new |
| `AttachmentCaches.AttachmentCache.Get` | core/classes/attachment_cache.py:79-89 | A read drops an expired entry or marks the entry as used last |
| `AttachmentCaches.AttachmentCache.GetOrLoad` | core/classes/attachment_cache.py:91-104 | A build gets the image, the load under way, or starts its own |
| `AttachmentCaches.AttachmentCache.InvalidateMessage` | core/classes/attachment_cache.py:106-116 | All of a message's entries go, and its record is renewed, after old records are dropped |
| `AttachmentCaches.AttachmentCache.DeletedSince` | core/classes/attachment_cache.py:118-125 | The loop finds exactly the messages recorded as deleted since |
| `AttachmentCaches.AttachmentCache.Finish` | core/classes/attachment_cache.py:127-138 | What a finished load does to the whole state |
| `AttachmentCaches.AttachmentCache.Store` | core/classes/attachment_cache.py:140-151 | Expiry, replacement and the eviction loop, on the whole state |
| `AttachmentCaches.AttachmentCache.StaleRecords` | core/classes/attachment_cache.py:165 | The first loop finds exactly the records past their time to live |
| `AttachmentCaches.AttachmentCache.PruneInvalidated` | core/classes/attachment_cache.py:162-166 | The loops drop exactly those records and leave the others as they were |
| `SandboxInputs.SafeName` | core/classes/sandbox_inputs.py:52-56 | A name is one non-empty segment of safe characters, not beginning or ending with a dot or underscore |
| `SandboxInputs.SafeNameIs` | core/classes/sandbox_inputs.py:52-56 | The name of any text cut into safe words and gaps: the words joined by single underscores, without dots and underscores at the ends, or "file" |
| `SandboxInputs.CutUp` | core/classes/sandbox_inputs.py:54-55 | Every text without slashes can be cut so |
| `SandboxInputs.LastSegmentNames` | core/classes/sandbox_inputs.py:54 | A name comes from the last segment of its path alone, whichever way the slashes lean |
| `SandboxInputs.SafeNamesStay` | core/classes/sandbox_inputs.py:55-56 | A name that is safe already stays as it is |
| `SandboxInputs.NumberingIsInjective` | core/classes/sandbox_inputs.py:70 | Different numbers make names that differ even ignoring case |
| `SandboxInputs.CandidatesAre` | core/classes/sandbox_inputs.py:63-70 | The candidates of a name: itself, then the number before its last dot, or at its end without one |
| `SandboxInputs.DecimalReads` | core/classes/sandbox_inputs.py:70 | A number is written in decimal without leading zeros |
| `SandboxInputs.AlikeIff` | core/classes/sandbox_inputs.py:68-71 | Two names count as alike if and only if they differ only in the case of letters |
| `SandboxInputs.EnoughNames` | core/classes/sandbox_inputs.py:67-70 | Pigeonhole: while every numbered name is taken there are as many used names as numbers tried |
| `SandboxInputs.UniqueNames` | core/classes/sandbox_inputs.py:59-73 | The loops end on every list, with one name per input in order, pairwise distinct ignoring case, each the first of its candidates still free |

## Left out

- Discord, Redis networking, Docker, the Agents SDK and models: only their effects are modelled, as steps with free parameters.
- Posting replies, unsent replies, typing indicators, timestamps, metrics, logging and prompt wording; a rendered message is kept as a value.
- `parse_ids` and `normalize_decision`: a respond call is modelled after its ids and decision were read from text, an unknown decision as none.
- Author cleaning in `_clean_author`: a message's author arrives cleaned.
- Ledger events are values in the ledger's sequence rather than objects shared with the coordinator; both classes update that sequence.
- The failure branch of `input_filter`, which sends the input unchanged and stages nothing: its placement code cannot raise in the model.
- `ask` and `wait_for_input`: their effects on the open question are steps (asked, sent, dropped, waiting, timed out); the waiting loop is not modelled.
- `claim_run`, `release_run`, `get_run`: one run's ledger is modelled from claim to release; the dictionary of threads would add only easy members.
- Automations of one server only; the disabled switch, resolving timezone names and reading settings. A record keeps what admission, timing and editing use; its channel, dates and a follow-up's context are left out.
- AutomationClients: time to live is modelled as a step that may happen at any moment to a key that has one, and as a write to the watched key.
- AutomationStore's `create` and `purge_terminal` are steps of clients rather than methods, because other clients act at each of their awaits; among clients a further attempt is a new transaction, and giving up is a crash.
- The poller's reads and removals and what `execute` does to keys and records are steps as well: the loops over due members and rows, the queue and what a run does in between are not modelled, nor that members are gone through in order.
- `AutomationRunner` is not joined to the store: that a job's revision and status are read again before it starts, and that a poller records an occurrence already begun as interrupted, are left out; both only make starts fewer.
- Renewal of claims, rule cooldowns and the job queue; start markers do not expire in the model.
- The daily and weekly results take the calendar as given: a local day of an instant and an optional instant for each wall-clock time.
- AutomationTheorems.LimitsHold: does not count deleted follow-ups, because the store keeps only one person's last run, overwritten each time; the extra refusal it causes is modelled.
- History deleted or edited between builds, and estimating tokens from text; a message carries its two estimates.
- HistoryTheorems.RefreshesAreRare: counts refreshes that move the anchor; by TriggerMovesForward a refresh for the same trigger handled twice moves nothing.
- The image cache's values are sizes with the load they came from, and its clock is a parameter; loaders run outside it.
- `ReplyPolicy` and `reply_parts`, the display name and size helpers and the caps in `select`, voice, images, speech, browsing and moderation: input-output, library calls, or only easy members.
