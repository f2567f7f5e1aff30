# MessageMerger: the per-session merge state machine

This project models the message-merging plugin of a chat bot. The plugin sits
between the messaging channel and the language-model responder. For every text
message of a conversation (a *session*), it decides one of two things:

- **suppress** the message: the host drops it and no reply is produced;
- **emit** a merged text: the host replaces the message content with the
  merged text and lets the model answer it.

The plugin keeps three tables, all keyed by session id. It mutates them in
place:

- `messages`: the buffered lines of each session;
- `last_message_time`: when the last normal message of each session arrived;
- `merging_sessions`: the sessions in explicit merge mode.

The configuration holds three lists of trigger substrings (start, end and
instant), a staleness interval `merge_interval` (default 60) and a count
threshold `message_count` (default 6). A missing key reads as its default, and
a missing trigger list reads as the empty list.

Files:

- `strings.dfy` (module `Strings`): Python's substring test `t in c`
  (`Occurs`), `any(...)` over a trigger list (`AnyOccurs`), and
  `"\n".join(lines)` (`Join`). `Split` is the partner of `Join`: it shows that
  the merged text gives back its lines.
- `message_merger.dfy` (module `MessageMerger`):
  - the configuration (`Config`, whose `Option` fields stand for keys that may
    be missing), the event, the decision and a value view of the tables
    (`State`);
  - `Step`, the specification of one call;
  - the class `MergeEngine`. Its fields are the three tables. Its methods
    (`Handle`, `StartMerging`, `AddMessage`, `EndMerging`, `InstantMerge`,
    `HandleNormalMessage`) follow the source method by method, with the same
    early returns. `Handle` is proved to do exactly what `Step` says.
- `merge_properties.dfy` (module `MergeProperties`):
  - `Run` folds `Step` over a sequence of events;
  - lemmas state what one call does, branch by branch;
  - lemmas state what holds over whole runs (merge mode is permanent,
    buffers stay below the threshold, and lines are emitted in arrival order
    for every batch that starts with nothing buffered, which a fresh
    session and every flush give);
  - lemmas state that a session's decisions and entries do not depend on
    other sessions' traffic (`RunProjects`), so the single-session run
    lemmas carry over to interleaved sessions;
  - four concrete runs.

The model follows the code, not the plugin's help text. This matters in two
places:

- **The end trigger never closes a merge.** `on_handle_context` returns for a
  merging session before it looks for an end trigger (message_merger.py:55-58
  before :61). So the membership test at :62 is always false, and
  `end_merging` is never called. This contradicts help line :129.
  - `MergeEngine.Handle` carries `assert false` in that branch.
  - `EndTriggerNeverEmits` states that an end trigger is never answered.
  - `MergeModeOutlastsRun` states that a session never leaves merge mode.
  - `EndTriggerSwallowedExample` shows the end trigger being buffered like
    any other line.
- **The instant trigger tests whether a buffer entry exists** (:72), not
  whether it is non-empty. After a flush, an instant trigger therefore emits
  only itself (`InstantTriggerOnEmptyBuffer`, `InstantTriggerExample`). A
  session that never buffered anything gets nothing.

## Model

| member | source | states |
|---|---|---|
| Strings.Occurs | plugins/message_merger/message_merger.py:84 | `t in c` holds exactly when `t` occurs at some index of `c` (the empty trigger occurs everywhere) |
| Strings.AnyOccurs | plugins/message_merger/message_merger.py:84 | the `any(...)` over a trigger list holds exactly when some trigger of the list occurs in the content |
| MessageMerger.IsTrigger | plugins/message_merger/message_merger.py:83-84 | `is_trigger` holds iff some configured trigger of that kind is a substring of the content; a missing list means no trigger |
| MergeProperties.MissingTriggersNeverMatch | plugins/message_merger/message_merger.py:84 | a trigger kind whose key is missing from the configuration never matches |
| Strings.JoinSnoc | plugins/message_merger/message_merger.py:102 | for a non-empty buffer, joining it plus one more line gives the joined buffer, a newline, and that line |
| Strings.SplitJoin | plugins/message_merger/message_merger.py:117 | for one or more lines, none containing a newline, splitting the merged text gives back exactly those lines in order |
| MessageMerger.Step | plugins/message_merger/message_merger.py:39-81 | one call keeps every merging session backed by a buffer entry, as `add_message` and `end_merging` need |
| MessageMerger.MergeEngine.constructor | plugins/message_merger/message_merger.py:28-36 | the engine starts with no buffers, no times and no merging sessions |
| MessageMerger.MergeEngine.Handle | plugins/message_merger/message_merger.py:39-81 | `on_handle_context` updates the tables and returns the decision exactly as `Step` specifies, trying the branches in source order |
| MessageMerger.MergeEngine.StartMerging | plugins/message_merger/message_merger.py:86-89 | the session joins the merging set and its buffer becomes empty; times are untouched |
| MessageMerger.MergeEngine.AddMessage | plugins/message_merger/message_merger.py:91-92 | the content is appended to the end of the session's existing buffer; nothing else changes |
| MessageMerger.MergeEngine.EndMerging | plugins/message_merger/message_merger.py:94-99 | the session leaves the merging set, the joined buffer is returned and the buffer is emptied |
| MessageMerger.MergeEngine.InstantMerge | plugins/message_merger/message_merger.py:101-105 | returns the buffer followed by the trigger message, newline-joined, and empties the buffer |
| MessageMerger.MergeEngine.HandleNormalMessage | plugins/message_merger/message_merger.py:107-124 | resets a missing or stale buffer, appends, stamps the time, and flushes when the count is reached, as `NormalStep` specifies |
| MergeProperties.Run | plugins/message_merger/message_merger.py:39-81 | successive calls keep the merging sessions backed by buffers and give one decision per event |
| MergeProperties.EmptyConfigMergesByCountAndTime | plugins/message_merger/message_merger.py:12-22 | without a configuration document no message is a trigger of any kind, and the thresholds are 6 messages and 60 seconds |
| MergeProperties.NonTextIgnored | plugins/message_merger/message_merger.py:40-41 | a non-text event changes no table and is left to the host |
| MergeProperties.StartTriggerBeginsMerge | plugins/message_merger/message_merger.py:49-52 | a start trigger is checked first and always: session added to merging, buffer emptied (earlier lines dropped even mid-merge), times untouched, message suppressed |
| MergeProperties.MergingBuffersEverything | plugins/message_merger/message_merger.py:55-58 | in merge mode any message without a start trigger, end and instant triggers included, is appended to the buffer and suppressed, with no other change |
| MergeProperties.EndTriggerOutsideMergeIsNoOp | plugins/message_merger/message_merger.py:61-68 | the end-trigger branch is only reached outside merge mode; it suppresses the message and changes nothing |
| MergeProperties.EndTriggerNeverEmits | plugins/message_merger/message_merger.py:55-68 | a text message containing an end trigger is suppressed in every state, so it never flushes a merge |
| MergeProperties.InstantTriggerFlushes | plugins/message_merger/message_merger.py:71-78 | outside merge mode an instant trigger emits the old buffer followed by the trigger message and empties the buffer when the session has an entry; otherwise it suppresses and nothing changes |
| MergeProperties.InstantTriggerOnEmptyBuffer | plugins/message_merger/message_merger.py:72-73 | with an entry that is already empty, the instant trigger emits exactly the trigger message |
| MergeProperties.NormalMessageBuffers | plugins/message_merger/message_merger.py:107-124 | a normal message resets the buffer iff the session has no entry or `now - last > merge_interval` (last defaults to 0); the time becomes `now`; the call emits the old buffer plus the message, joined, and clears the buffer iff that reaches `message_count`, and otherwise stores it as the new buffer |
| MergeProperties.EmitEmptiesBuffer | plugins/message_merger/message_merger.py:116-119 | after any emission the session's buffer exists and is empty, and the session is not merging |
| MergeProperties.StepIsolatesSessions | plugins/message_merger/message_merger.py:44-124 | a call leaves every other session's buffer, time and merging status unchanged |
| MergeProperties.StepLeavesOtherSessions | plugins/message_merger/message_merger.py:44-124 | for any session other than the caller's, the state after the call agrees with the state before on that session's buffer, time and merging status |
| MergeProperties.StepReadsOwnSession | plugins/message_merger/message_merger.py:44-124 | the decision and the caller's new buffer, time and merging status are the same from any two states that agree on the caller's own entries, so nothing else is read |
| MergeProperties.MergeModeIsPermanent | plugins/message_merger/message_merger.py:55-68 | no call removes a session from merge mode, and a merging session's own messages are never emitted |
| MergeProperties.StepKeepsBuffersBelowCount | plugins/message_merger/message_merger.py:116-124 | with `message_count` at least 1, every call keeps each non-merging buffer shorter than the threshold |
| MergeProperties.MergeModeOutlastsRun | plugins/message_merger/message_merger.py:55-68 | once merging, a session stays merging for any later sequence of events and none of its messages is ever emitted |
| MergeProperties.MergeModeCollects | plugins/message_merger/message_merger.py:55-58 | in merge mode the session's messages without a start trigger pile up in the buffer in arrival order, all suppressed |
| MergeProperties.PlainMessageAppends | plugins/message_merger/message_merger.py:109-113 | a plain message arriving within the interval and below the count is appended, stamps the time, and is suppressed |
| MergeProperties.PlainMessagesAccumulate | plugins/message_merger/message_merger.py:109-124 | plain messages, each within the interval of the previous one and below the count, are appended in arrival order and all suppressed |
| MergeProperties.PlainMessagesFromScratch | plugins/message_merger/message_merger.py:109-113 | starting from a session with nothing buffered (no entry, or the empty entry a flush leaves), such messages make the buffer exactly their contents in order |
| MergeProperties.OrderPreservedThroughInstantTrigger | plugins/message_merger/message_merger.py:101-105 | from a session with nothing buffered (no entry, or the empty entry a flush leaves), fewer than `message_count` paced plain messages, then an instant trigger, give suppressions and then one emission of all lines newline-joined in arrival order, recoverable by splitting |
| MergeProperties.CountFlushesInOrder | plugins/message_merger/message_merger.py:116-121 | from a session with nothing buffered (no entry, or the empty entry a flush leaves), exactly `message_count` paced plain messages give that many minus one suppressions and then one emission of all of them in order, leaving the buffer empty and the session outside merge mode |
| MergeProperties.RunAppend | plugins/message_merger/message_merger.py:39-81 | handling one sequence of events and then another is handling their concatenation: the final tables are those after the second, and the decisions are the first's followed by the second's |
| MergeProperties.CountFlushesBatchAfterBatch | plugins/message_merger/message_merger.py:116-121 | after a count flush the next batch starts its count from one, whatever the gap: two batches of `message_count` paced plain messages each flush separately, each in arrival order |
| MergeProperties.RunKeepsBuffersBelowCount | plugins/message_merger/message_merger.py:116-124 | the below-threshold property of non-merging buffers holds after any sequence of events |
| MergeProperties.InitialRunKeepsBuffersBelowCount | plugins/message_merger/message_merger.py:34-36 | from the empty tables it holds for every run |
| MergeProperties.RunProjects | plugins/message_merger/message_merger.py:39-124 | over any interleaving of sessions, the decisions at one session's positions are exactly those of that session's events run alone, and its final entries agree |
| MergeProperties.InterleavedCountFlush | plugins/message_merger/message_merger.py:109-121 | amid any other sessions' traffic, `message_count` paced plain messages of a session with nothing buffered give that many minus one suppressions and then one emission of all of them in order, leaving its buffer empty |
| MergeProperties.InterleavedMergeModeCollects | plugins/message_merger/message_merger.py:55-58 | amid any other sessions' traffic, a merging session's messages without a start trigger pile up in its buffer in arrival order, all suppressed |
| MergeProperties.CountFlushExample | plugins/message_merger/message_merger.py:116-121 | with `message_count` 3, "a", "b", "c" give Suppress, Suppress, Emit("a\nb\nc") |
| MergeProperties.StaleBufferExample | plugins/message_merger/message_merger.py:109-110 | with the default interval, "a" at 0 is discarded by "b" at 100, so "b", "c", "d" are needed for the flush |
| MergeProperties.EndTriggerSwallowedExample | plugins/message_merger/message_merger.py:55-68 | start trigger, "x", "y", end trigger: all four suppressed; the end trigger ends up as the third buffered line |
| MergeProperties.InstantTriggerExample | plugins/message_merger/message_merger.py:71-78 | an instant trigger on a fresh session is suppressed; after "a" it emits "a\n#go"; after that flush it emits "#go" alone |

## Left out

- Configuration loading (`load_config`, the module-level `config`): file
  reading and JSON parsing. The configuration is an input value. Missing keys
  are `None` and read as the same defaults (`EmptyConfig` is the empty
  document).
- Plugin registration, the plugin base class and the host's event context
  and actions. The host's `BREAK_PASS` is `Suppress`. `CONTINUE` with a
  replaced content is `Emit(merged)`. A non-text event is `Ignore`.
- The wall clock `time.time()`: the caller passes the time as an integer
  `now`. Seconds with a fractional part are not modelled.
- `merge_interval` and `message_count` are integers in the model. The
  configuration document could also hold floating-point values there.
- Logging and the help text: they have no effect on behaviour.
- Concurrency: the plugin has no locking. The model handles one event at a
  time, in arrival order.
- Python raising `KeyError`: the model never reaches it. `Consistent` (every
  merging session has a buffer entry) holds from the start, and every call
  keeps it.
