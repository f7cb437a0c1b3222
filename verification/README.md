# dotagent, modelled in Dafny

A model of the parts of dotagent whose promises hold only across several
operations, and proofs of those promises. `dafny verify dfyconfig.toml` checks
the whole project; nothing in it is executed.

## What is modelled

**The persistent-agent pool** (`PoolModel` and the other `Pool*` modules). One
long-lived process answers many requests. The pool is a step system: a task is
one dispatched request, sweep or drain, at one of 28 program points; a step is
one lock taken or released or one await passed; agent processes exit, print and
are claimed by the supervisor's reaper in between. The state is the slot map,
the cells with their locks, the allocation lock, the processes and their stdout
channels. `PoolInvariant.Inv` is inductive over every step
(`PoolSafety.StepKeepsInv`); the promises in `PoolTheorems`, `PoolAnswers` and
`PoolProgress` are read off it. The proof is in rely-guarantee form: the lemmas
of `PoolSteps`, `PoolCellSteps`, `PoolTaskSteps` and `PoolMapSteps` say what a
step does to the objects it touches, `PoolFrame` carries every other object
across it, and `PoolInduction` puts the two together. `PoolVerdicts`,
`PoolEviction` and `PoolDrain` say what the steps mean to a caller: how a request
ends, which instance has to go, whose instances a drain retires.

**The answers of one agent** (`Channel`, `Exchange`, `OutputTail`): which stdout
line answers which request; writing one frame onto a pipe that takes it in
pieces; one request against a process that may die, stall or be collected; the
retry; the bounded windows over stderr and stdout.

**The memory** (`Text`, `LinkText`, `DatePlaces`, `FactText`, `HandEdits`,
`FactKey`, `TopicPages`, `MemoryStore`, `MemoryRuns`, `MemoryKeys`,
`MemoryEdits`): a fact is printed as a line of text
with its dates and topics as links, and read back from it; a store of such lines
recognises a fact that is stated again by a key computed from what it reads.

**Wire encoders** (`Utf8`, `HeaderWords`, `Limits`, `MarkdownBody`): header
values as encoded-words of RFC 2047, and message bodies cut to a size cap, each
against an independently defined decoder.

**The scheduler** (`Scheduler`, `ScheduleHealth`, `WindowKeys`): windows of cron
and interval schedules, staleness, health over time, how long the daemon sleeps,
and the agreement between the writer and the readers of window files.

**Guards** (`RateLimiter`, `AlertLadder`, `SentMessages`, `LockedTable`): the
sliding window per sender, the spacing of repeated alerts, the bounded table of
sent messages, and the load-change-save cycle under a file lock.

## Where the code and its comments disagree

The code is what is modelled. In each case a lemma gives the exact condition or
a concrete run.

- The comments call `max_instances` a hard ceiling and say a retiring cell is
  freed only when its process is dead (`persistent.rs:203-206`, `605-607`).
  `Supervisor::terminate` returns at once when the reaper has already claimed
  the process (`dotagent-supervisor/src/lib.rs:257-271`, `508-536`), so the cell
  is freed while the reaper's grace period still runs.
  `PoolRetirement.RetirementStrandsIff` is the exact condition, under any
  interleaving;
  `PoolStranding.CeilingCanBreak` reaches two live processes under a ceiling of
  one with a single request, and `PoolStranding.CeilingIsHard` holds the ceiling
  in every run in which no retirement does this. `PoolTheorems.CeilingHolds`, `AliveIsCurrent` and
  `DrainComplete` hold for every process the reaper is not killing.
- An agent that answers one request twice without an id shifts every later
  answer (`Channel.AnIdLessRepeatShifts`), and so does one that prints a reply
  without an id about no request at all (`Channel.AnUnsolicitedReplyShifts`).
  `Channel.AnswersNeverShift` is the exact condition on the lines the agent
  wrote: none of those read while a request was waiting is an id-less reply that
  no request was owed.
- A topic that reads as a date is its own slug (`TopicPages.DateIsItsSlug`) and
  does not survive the printed block (`FactText.RoundTrip` and
  `FactKey.KeySurvives` are equivalences). A fact with a date in its statement
  is recognised when it is stated again, as the comments promise, until it is
  stated with a topic that is new to it: then its block is printed with the date
  among the topics and its key changes (`MemoryKeys.ReprintKeepsKeyIff`). It is
  stored a second time after that (`MemoryKeys.DatedFactIsStoredTwice`), and in
  the end two live facts have one key (`MemoryKeys.TwoLiveFactsOneKey`).
  `MemoryKeys.SafeWrite` is the guard, `MemoryKeys.RecognisedIff` says that it
  is exact for one statement, and keys stay unique over every run that meets it
  (`MemoryKeys.KeysStayUnique`).
- The health of a failing cron schedule that has succeeded once reads as fine
  again from midnight until the first window of a later day, and all through
  days without one (`ScheduleHealth.CronFailureForgotten`);
  `ScheduleHealth.HealthWorsensIff` says exactly when health improves by itself.
- An hour that does not exist in a cron manifest can hide every later window
  (`Scheduler.InvalidHourHidesWindows`). It does so exactly on a scheduled day,
  once every hour that exists has had its window (`Scheduler.NextIsLeast`); the
  daemon then oversleeps unless another agent wakes it
  (`ScheduleHealth.NextEventSkipsNothing`).
- The comment on `alert_key` says that names never contain a slash, and nothing
  checks it. A table is safe against clearing another pair's alerts exactly when
  no name in it has a slash (`AlertLadder.EveryClearSparesIff`).
- A load on a store object that is already in a cycle goes through, and the
  change saved first is lost (`LockedTable.SharedStoreLosesUpdate`). A run loses
  nothing exactly when nobody saves between another's load and save
  (`LockedTable.SerialIffApart`).
- A replacement of a fact that does not exist is stored before the error is
  returned; `MemoryRuns.StatementsAreCounted` counts it as a statement.

## Reading the project

`hosted`, `askers`, `delivered`, `started` and `recycled` in the pool's state
record history for the theorems and are read by no guard; `phase` says which
processes the reaper may still claim and which get a recycle entry. `Choice`
resolves what the source leaves to the environment: whether a write is accepted,
which line is read, which process id is new, the order in which a map is walked.
An agent is assumed to name no other request than the one it answers
(`Channel.Step`); it may repeat itself, leave out ids, print replies about
nothing, and print anything else. A process is dead once the pool's own grace
period for it is over.

## Model

| member | source | states |
|---|---|---|
| PoolSafety.StepKeepsInv | crates/dotagent-runner/src/persistent.rs:323-1084 | one step of any task, process or the reaper keeps the invariant over locks, cells, processes, map, deliveries and audit entries |
| PoolSafety.ReachableInv | crates/dotagent-runner/src/persistent.rs:198-206 | every reachable state satisfies the invariant |
| PoolTheorems.AliveIsCurrent | crates/dotagent-runner/src/persistent.rs:594-662 | a live process sits in the current entry of its key; if its cell is stopped, the reaper is the one killing it |
| PoolTheorems.CeilingHolds | crates/dotagent-runner/src/persistent.rs:605-645 | an agent's live processes that the reaper is not killing never exceed max_instances, and any excess is claimed by the reaper |
| PoolTheorems.DrainComplete | crates/dotagent-runner/src/persistent.rs:962-1017 | before a drain or forget_agent gives up the allocation lock, nothing in its scope is in the map and nothing in its scope is alive but what the reaper is killing |
| PoolDrain.SnapshotIs | crates/dotagent-runner/src/persistent.rs:966-1015 | a drain takes up the cells of the entries of its one agent, or of all, and no others |
| PoolDrain.DrainStaysInScope | crates/dotagent-runner/src/persistent.rs:962-986 | forgetting one agent never retires a cell of another, whatever runs in between |
| PoolTheorems.EvictionFalls | crates/dotagent-runner/src/persistent.rs:609-661 | each pass of the eviction loop finds strictly fewer entries than the last, and below the ceiling it inserts and releases the allocation lock |
| PoolEviction.LeastRecentlyUsedGoes | crates/dotagent-runner/src/persistent.rs:629-661 | over whole runs: at the ceiling the task retires the cell of a key of its agent whose last use is no later than that of any other key of the agent; a use is a step of the run in which a request for the key found its entry, made it, or had its reply accounted |
| PoolEviction.CellForKey | crates/dotagent-runner/src/persistent.rs:609-645 | a lookup gives the entry's own cell exactly when that cell is not free and stopped; below the ceiling, and only then, a fresh reservation is inserted; the other keys keep their entries |
| PoolTheorems.AtMostOnce | crates/dotagent-runner/src/persistent.rs:323-516 | the bytes of one request reach at most one process, and an attempt that is about to write follows none that wrote |
| PoolVerdicts.VerdictsAreTrue | crates/dotagent-runner/src/persistent.rs:323-592 | in every reachable state a finished request was told the truth: an answer came from the one process its bytes reached, a loss means that bytes of it went out, a failed start and giving up after the second attempt that none did |
| PoolVerdicts.BeginsUnlessGone | crates/dotagent-runner/src/persistent.rs:519-545 | a request goes back for another attempt exactly when its process has exited or is claimed; otherwise it gets the next id |
| PoolVerdicts.WriteEndsAs | crates/dotagent-runner/src/persistent.rs:540-563 | a failed write ends a request of the pool in the verdict that `Exchange.Ask` gives for the same failure, each exactly then |
| PoolVerdicts.ReadsAfterTheWhole | crates/dotagent-runner/src/persistent.rs:1188-1216 | the answer is read only once the whole frame is out |
| PoolVerdicts.SilenceEndsAs | crates/dotagent-runner/src/persistent.rs:565-592 | so does a timeout, and the end of stdout |
| PoolVerdicts.LineEndsAs | crates/dotagent-runner/src/persistent.rs:565-592 | so does a line: the first that answers is the answer unless the reaper came first, any other is passed over |
| PoolVerdicts.KeptIff | crates/dotagent-runner/src/persistent.rs:373-399 | after its answer an instance is kept exactly when its quota is not used up and nobody claimed it |
| PoolVerdicts.UpWhenReady | crates/dotagent-runner/src/persistent.rs:735-790 | a handshake ends at the first well-typed object of kind ready, for good exactly unless its ok is false |
| PoolVerdicts.RetriesOnce | crates/dotagent-runner/src/persistent.rs:323-342 | a request that finds its cell stopped, or its process gone, tries once more and then gives up |
| PoolVerdicts.SweepTakesIff | crates/dotagent-runner/src/persistent.rs:1035-1084 | a sweep takes out an entry exactly when its cell is free and stopped, or free and its process found dead |
| PoolVerdicts.SweepVisitsAll | crates/dotagent-runner/src/persistent.rs:943-960 | in every run a sweep looks at every entry that was in the map when it began |
| PoolTheorems.AuditBalances | crates/dotagent-runner/src/persistent.rs:350-356 | at every moment started entries equal recycled entries plus instances in service, and no instance is recycled twice |
| PoolTheorems.InServiceWhere | crates/dotagent-runner/src/persistent.rs:821-878 | an instance in service is the live one of its current cell, or in a current cell whose lock is held by the task at the kill of this very process, or waiting for the sweep that found it dead |
| PoolTheorems.RetiringIsNeverSeen | crates/dotagent-runner/src/persistent.rs:815-841 | a task that has just locked a cell never finds it retiring, and a reservation it finds never hosted a process |
| PoolTheorems.QuotaHolds | crates/dotagent-runner/src/persistent.rs:373-399 | no instance answers more requests than a non-zero max_invocations |
| PoolTheorems.OneInFlight | crates/dotagent-runner/src/persistent.rs:519-592 | an instance with an unanswered request is held by the task that asked it |
| PoolRetirement.RetirementStrandsIff | crates/dotagent-supervisor/src/lib.rs:508-536 | in every run, whatever happens in between, the step that ends a retirement frees the cell of a live process exactly when the reaper had claimed it first and it did not exit by itself |
| PoolRetirement.RetirementGoesOn | crates/dotagent-runner/src/persistent.rs:821-840 | nothing holds up a task between the start of a retirement and the freed cell |
| PoolStranding.CeilingCanBreak | crates/dotagent-supervisor/src/lib.rs:257-271 | a reachable state with two live processes of an agent limited to one |
| PoolStranding.StrandingIff | crates/dotagent-supervisor/src/lib.rs:508-536 | over a whole run a live process is ever found in a stopped cell exactly when some retirement freed the cell of a live process |
| PoolStranding.CeilingIsHard | crates/dotagent-runner/src/persistent.rs:203-206 | in every run without such a retirement max_instances bounds all live processes of every agent at every moment |
| PoolAnswers.AnswersStayPut | crates/dotagent-runner/src/persistent.rs:531-591 | what a finished request returned was logged by its own process under the id this request carried, and is about this request unless the agent printed id-less replies that no request was owed |
| PoolAnswers.StoppedForGood | crates/dotagent-runner/src/persistent.rs:157-182 | over a whole run a stopped cell stays stopped, keeps its key, and no cell ever hosts a second process |
| PoolProgress.LockOrder | crates/dotagent-runner/src/persistent.rs:1037-1053 | the allocation lock is asked for with empty hands, a cell never while holding the map, the map never while holding a cell |
| PoolProgress.NoDeadlock | crates/dotagent-runner/src/persistent.rs:594-662 | in every reachable state an unfinished task can run, or one that it waits for within two steps can |
| Channel.AnswersNeverShift | crates/dotagent-runner/src/protocol.rs:192-206 | over every history each request was answered by a reply about it exactly when no line read while a request was waiting is an id-less reply that no request was owed: a second one, or one about no request |
| Channel.AnIdLessRepeatShifts | crates/dotagent-runner/src/protocol.rs:192-206 | a concrete history in which the second request gets the first one's reply |
| Channel.AnUnsolicitedReplyShifts | crates/dotagent-runner/src/protocol.rs:138-206 | an id-less reply printed before any request is given as the answer to the first one |
| Channel.RunKeepsInv | crates/dotagent-runner/src/persistent.rs:1218-1240 | the channel invariant holds over every history of requests, lines and reads |
| Channel.LineAnswersIff | crates/dotagent-runner/src/protocol.rs:135-206 | by its fields: a line answers an id exactly when it is a well-typed object of kind response, or of no kind with a response field, whose id is missing, null or that id |
| Channel.LineReadyIff | crates/dotagent-runner/src/protocol.rs:135-206 | by its fields: which line is the ready frame, that it says no exactly when ok is false, and that it never answers a request |
| Exchange.WriteFrame | crates/dotagent-runner/src/persistent.rs:1188-1216 | the pipe accepts exactly the prefix it is willing to take; success means the whole line and the flush; a failure reports bytes exactly when some were accepted |
| Exchange.TakenIs | crates/dotagent-runner/src/persistent.rs:1191-1216 | of a line the pipe takes what it offers before it refuses, or all of it |
| Exchange.ReadAnswer | crates/dotagent-runner/src/persistent.rs:1218-1240 | the first line that answers the id, with every line before it dropped |
| Exchange.ReadAnswerIsChannel | crates/dotagent-runner/src/persistent.rs:1225-1240 | the read loop makes exactly the read events of the channel model |
| Exchange.Ask | crates/dotagent-runner/src/persistent.rs:519-592 | each of the four ends exactly when the environment did what it stands for: answered when the process was there, the whole frame and flush went through, some line answers and the reaper kept away; timed out, lost and dead likewise; the answer is the first line that answers |
| Exchange.AskWithRetry | crates/dotagent-runner/src/persistent.rs:323-516 | a second attempt is made exactly when the first did not end the request; the verdict is that of the last attempt, both ways, with the frame of its first answering line; of two attempts only the last can have sent bytes |
| OutputTail.StderrRing.Push | crates/dotagent-runner/src/persistent.rs:104-110 | the ring holds the last 500 lines of the whole history |
| OutputTail.StderrRing.Since | crates/dotagent-runner/src/persistent.rs:112-124 | the lines printed after the mark, or the last 500 of them, joined by newlines |
| OutputTail.StreamTail | crates/dotagent-runner/src/lib.rs:503-539 | the bounded tail of the stream equals cutting the whole output afterwards |
| LinkText.LinkDates | crates/dotagent-memory/src/record.rs:127-161 | the index loop writes the linked text of the specification |
| LinkText.LinkDatesTwice | crates/dotagent-memory/src/record.rs:131-133 | linking dates is idempotent on every string, with any brackets |
| DatePlaces.LinksExactlyTheDates | crates/dotagent-memory/src/record.rs:127-183 | by position, for every bracket-free text: the text gets brackets around exactly the ten-character slices in ISO shape with no digit, dash, dot or bracket before them and no digit, dash or bracket, nor a dot and a digit, after them, and nothing else changes |
| DatePlaces.CopiesLinks | crates/dotagent-memory/src/record.rs:139-150 | a text is copied whole up to the end of its first link, and linking goes on from there |
| FactText.ReadBlock | crates/dotagent-memory/src/record.rs:185-243 | the two loops compute the peeled statement and the topics in order without repeats |
| FactText.RoundTrip | crates/dotagent-memory/src/record.rs:119-126 | for a bracket-free statement and proper topics, reading the printed block gives the statement with single spaces, its dates, then the topics, exactly when no topic is a date |
| FactText.InlineLinked | crates/dotagent-memory/src/record.rs:224-238 | unlinking a linked bracket-free text gives back the text and its dates |
| FactText.PeelTopics | crates/dotagent-memory/src/record.rs:199-222 | peeling takes off exactly the topics after the last one that is a date |
| FactText.PushAllKeeps | crates/dotagent-memory/src/record.rs:343-348 | topics are kept once each in order of first occurrence, blanks dropped |
| HandEdits.LinksInsideStay | crates/dotagent-memory/src/record.rs:187-243 | a link written inside a statement keeps its text there and becomes a topic |
| FactKey.ComputeKey | crates/dotagent-memory/src/record.rs:267-283 | the loop computes the lower-cased alphanumeric runs of the statement joined by single spaces |
| FactKey.KeyIgnoresSurface | crates/dotagent-memory/src/record.rs:261-266 | statements alike up to case and the choice of punctuation have the same key |
| FactKey.KeyIgnoresSpacing | crates/dotagent-memory/src/record.rs:261-266 | collapsing white space never changes the key |
| FactKey.KeySurvives | crates/dotagent-memory/src/record.rs:209-219 | a printed block keeps its statement's key exactly when no topic is a date |
| FactKey.DatesIgnoreSpacing | crates/dotagent-memory/src/record.rs:165-183 | collapsing white space hides no date and makes none |
| TopicPages.Slugify | crates/dotagent-memory/src/record.rs:285-303 | the loop computes the slug of the specification |
| TopicPages.SlugIsTopic | crates/dotagent-memory/src/record.rs:285-303 | every non-empty slug is trimmed and bracket-free, so it survives the printed block |
| TopicPages.SlugIsWords | crates/dotagent-memory/src/record.rs:285-303 | the slug of a topic without slashes is its lower-cased alphanumeric runs joined by single dashes |
| TopicPages.NormalizeTopics | crates/dotagent-memory/src/record.rs:245-259 | the result is the sorted set of non-empty slugs |
| TopicPages.PagesAre | crates/dotagent-memory/src/record.rs:245-259 | normalized topics are strictly ascending, fit for a block, and exactly the non-empty slugs |
| TopicPages.LessIs | crates/dotagent-memory/src/record.rs:244-259 | the order of the pages: a prefix comes first, else the smaller character at the first difference |
| TopicPages.DateIsItsSlug | crates/dotagent-memory/src/record.rs:322-342 | a date is its own slug |
| MemoryStore.Store.RememberWith | crates/dotagent-memory/src/lib.rs:132-173 | the method's new state and result are those of the specification, in both branches |
| MemoryStore.Store.WriteFact | crates/dotagent-memory/src/lib.rs:526-558 | reinforcing or appending changes exactly the block it says |
| MemoryStore.Store.Replace | crates/dotagent-memory/src/lib.rs:181-208 | the replacement is written first, then the old fact is marked unless it is the same or missing |
| MemoryStore.Store.Delete | crates/dotagent-memory/src/lib.rs:214-224 | removes exactly the named fact, or nothing |
| MemoryEdits.ForgetRemoves | crates/dotagent-memory/src/lib.rs:214-224 | in any run forgetting an id that a readable block carries returns true, removes that block and keeps every other in order; otherwise it returns false and changes nothing |
| MemoryEdits.SupersedeMarks | crates/dotagent-memory/src/lib.rs:181-213 | in any run superseding by another fact leaves the block that carries the id marked with the new fact's id and no other changed; not found is the answer exactly when no readable block carries it |
| MemoryEdits.StatementReadsBack | crates/dotagent-memory/src/lib.rs:132-180 | under the guard the topics of a statement are read back from its block and are in the returned memory: of a new fact with its dates, of a found one together with its old topics, counted once more |
| MemoryStore.Scan | crates/dotagent-memory/src/lib.rs:511-524 | the scan finds the first block that fits |
| MemoryRuns.RunKeeps | crates/dotagent-memory/src/lib.rs:132-224 | every run keeps the counts, distinct ids and the order of supersessions |
| MemoryRuns.StatementsAreCounted | crates/dotagent-memory/src/lib.rs:528-558 | each fact's counter is the number of its statements up to saturation, and below it stored and forgotten facts account for every statement |
| MemoryRuns.SupersessionIsAcyclic | crates/dotagent-memory/src/lib.rs:175-208 | following supersessions never leads back |
| MemoryRuns.EdgesPointToLiveFacts | crates/dotagent-memory/src/lib.rs:192-207 | superseding adds at most one edge, from the named fact to another that is live at that moment |
| MemoryKeys.KeysStayUnique | crates/dotagent-memory/src/lib.rs:125-152 | over any bracket-free run, dated statements included, no two live facts share a non-empty key, as long as no new fact has a date for a topic and no block with a date among its topics or the new ones is printed again |
| MemoryKeys.RestatedIsReinforced | crates/dotagent-memory/src/lib.rs:125-152 | a fact just stated under that guard is recognised in any wording with the same key, whatever its topics, and adds no block |
| MemoryKeys.RecognisedIff | crates/dotagent-memory/src/lib.rs:511-552 | a fact just stated is found under the key of its statement exactly when the statement met the guard |
| MemoryKeys.ReprintKeepsKeyIff | crates/dotagent-memory/src/lib.rs:532-552 | rewriting a block for a new topic keeps its key exactly when none of its topics, its own dates included, is a date |
| MemoryKeys.DatedFactIsStoredTwice | crates/dotagent-memory/src/lib.rs:532-552 | a dated fact restated under some topics is stored again when stated once more exactly when one of these topics is not among its dates |
| MemoryKeys.TwoLiveFactsOneKey | crates/dotagent-memory/src/lib.rs:125-152 | and restating that copy under the same topics leaves two live facts with one statement and one non-empty key |
| Utf8.RoundTrip | crates/dotagent-notify/src/ntfy.rs:225-241 | strict decoding undoes UTF-8 encoding |
| HeaderWords.EncodeHeaderValue | crates/dotagent-notify/src/ntfy.rs:164-216 | the header is printable ASCII and decodes to the flattened, trimmed title; plain text goes as it is, otherwise in words of at most 75 characters that decode alone to whole characters |
| HeaderWords.FoldWords | crates/dotagent-notify/src/ntfy.rs:190-212 | the loop cuts the text into non-empty chunks that fit the budget |
| HeaderWords.WordsRoundTrip | crates/dotagent-notify/src/ntfy.rs:331-375 | adjacent words decode to the concatenation of their chunks, the folding space dropped |
| HeaderWords.WordRoundTrip | crates/dotagent-notify/src/ntfy.rs:218-241 | one word decodes by itself to the characters it was made from |
| Limits.TakeUtf16 | crates/dotagent-notify/src/limits.rs:70-87 | the longest prefix that fits the UTF-16 budget |
| Limits.UnitsAre | crates/dotagent-notify/src/limits.rs:70-87 | a text counts as many units as its UTF-16 encoding has |
| Limits.TruncateUtf16With | crates/dotagent-notify/src/limits.rs:36-68 | whole text, bare longest prefix, or mended longest prefix with the notice |
| Limits.TruncateBytes | crates/dotagent-notify/src/limits.rs:89-117 | whole text, or its longest prefix in bytes, with the notice when it fits |
| Limits.CutBytes | crates/dotagent-notify/src/limits.rs:104-111 | walking back to a character boundary keeps the longest prefix that fits |
| Limits.TruncateChars | crates/dotagent-notify/src/limits.rs:22-36 | whole text, or its longest prefix in characters, with the notice when it fits |
| MarkdownBody.EscapeMarkdownV2 | crates/dotagent-notify/src/telegram.rs:95-131 | the loop computes the escaped text of the specification |
| MarkdownBody.ReservedAre | crates/dotagent-notify/src/telegram.rs:95-131 | the characters that are escaped are the eighteen of MarkdownV2 and the backslash |
| MarkdownBody.Unescapes | crates/dotagent-notify/src/telegram.rs:95-131 | escaped text is accepted by the parser and displayed as it was |
| MarkdownBody.CutIsEscape | crates/dotagent-notify/src/telegram.rs:161-174 | cutting escaped text anywhere and dropping an orphaned backslash leaves the escape of the longest prefix that fits |
| MarkdownBody.Truncate | crates/dotagent-notify/src/telegram.rs:146-175 | the cut of the shared cutter with the escaped notice and the dangling-escape guard |
| MarkdownBody.RenderMarkdown | crates/dotagent-notify/src/telegram.rs:177-190 | the body is within 4096 units and displays the whole text or its longest fitting prefix with the notice |
| MarkdownBody.RenderPlain | crates/dotagent-notify/src/telegram.rs:177-190 | a body in another mode is the text or its longest fitting prefix with the notice |
| Scheduler.ComputeCronExpectedAt | crates/dotagent-scheduler/src/lib.rs:182-217 | the loop over the hours computes the specification |
| Scheduler.ClockReads | crates/dotagent-scheduler/src/lib.rs:182-195 | a time reads as its day, hour, minute and second, and weekdays follow each other from the Thursday of the epoch |
| Scheduler.ExpectedIsLatest | crates/dotagent-scheduler/src/lib.rs:182-217 | the latest window of the day that has come, if any has |
| Scheduler.WindowIsDue | crates/dotagent-scheduler/src/lib.rs:43-67 | at the instant a window opens it is the one that is due |
| Scheduler.ComputeCronNextOccurrence | crates/dotagent-scheduler/src/lib.rs:262-297 | the nested loops over days and sorted hours compute the specification |
| Scheduler.NextIsLeast | crates/dotagent-scheduler/src/lib.rs:225-297 | for every schedule the scan returns the least window strictly after now, or nothing when there is none, exactly when it does not give up: a scheduled day on which every hour that exists has had its window, and an hour that does not exist |
| Scheduler.ValidFindsNext | crates/dotagent-scheduler/src/lib.rs:225-297 | the eight-day scan of a valid cron schedule always finds the least window strictly after now |
| Scheduler.GivingUpHidesWindows | crates/dotagent-scheduler/src/lib.rs:279-290 | whenever the scan gives up it finds nothing, and a window is to come within the week |
| Scheduler.RealHoursFindNext | crates/dotagent-scheduler/src/lib.rs:270-297 | without the hours that do not exist the same scan always finds the next window |
| Scheduler.InvalidHourHidesWindows | crates/dotagent-scheduler/src/lib.rs:279-290 | at noon the hours 9 and 24 yield nothing, although there is a window at nine tomorrow |
| ScheduleHealth.IntervalWindows | crates/dotagent-scheduler/src/lib.rs:68-88 | for a positive interval the due window is the greatest tick that has come and the next the least to come, one interval apart, the former exactly when the last success is not in the future |
| ScheduleHealth.IntervalHealthIs | crates/dotagent-scheduler/src/lib.rs:343-398 | an interval schedule is fine (degraded when an attempt failed) until the first tick after its last success, failing from there on, and stale from the limit of whole minutes later; one that never succeeded is stale |
| ScheduleHealth.CronHealthIs | crates/dotagent-scheduler/src/lib.rs:343-398 | a cron schedule is judged by the latest window of the day that has come, in the same way; before the first one it is fine unless it never succeeded |
| ScheduleHealth.NeverGatedIff | crates/dotagent-scheduler/src/lib.rs:219-223 | a failing interval schedule is never skipped as stale exactly when its interval is at most a minute over the limit |
| ScheduleHealth.IntervalHealthWorsens | crates/dotagent-scheduler/src/lib.rs:343-398 | with the record left alone an interval schedule's health only gets worse |
| ScheduleHealth.HealthWorsensIff | crates/dotagent-scheduler/src/lib.rs:343-398 | for any schedule and any two moments health gets no better by itself, exactly unless a cron schedule that has succeeded once is failing and no window of the later day has come, or it is stale and a window that opened since is not |
| ScheduleHealth.CronFailureForgotten | crates/dotagent-scheduler/src/lib.rs:353-398 | on every later day a failing cron schedule reads as fine exactly until the first window of that day, if it has ever succeeded, and from then on as failing or stale by that day's latest window |
| ScheduleHealth.NextEventSkipsNothing | crates/dotagent-scheduler/src/lib.rs:299-309 | sleeping until the next event never ends in the past, and oversleeps no window of any schedule exactly when each agent whose scan gives up has another one that wakes the daemon by its next window |
| WindowKeys.HeartbeatFile.BeginHeartbeat | crates/dotagent-runner/src/lib.rs:595-622 | a started run keeps the last success |
| WindowKeys.HeartbeatFile.FinishHeartbeat | crates/dotagent-runner/src/lib.rs:624-680 | a finished run sets the last success exactly when it exited 0, and a vanished record claims none |
| WindowKeys.KeysAgree | crates/dotagent-scheduler/src/lib.rs:124-180 | over any run the record holds the latest success, and the key is the due window while it is missed and the newest written window once it succeeded |
| RateLimiter.RateLimiter.CheckAt | crates/dotagent-notify/src/telegram_inbound.rs:443-452 | prunes and records exactly as the specification |
| RateLimiter.ForgettingIsSafe | crates/dotagent-notify/src/telegram_inbound.rs:443-452 | pruning changes no verdict against the full history of accepted hits |
| RateLimiter.LimitHolds | crates/dotagent-notify/src/telegram_inbound.rs:415-421 | no half-open sixty-second span holds more accepted hits of one user than the limit |
| RateLimiter.RefusedIff | crates/dotagent-notify/src/telegram_inbound.rs:443-452 | a hit is refused exactly when at least as many accepted hits of this very user as the limit are under sixty seconds old, counted by their places in the history |
| AlertLadder.NotifyDedup.Record | crates/dotagent-state/src/notify_dedup.rs:108-121 | one more notification of one episode, the others unchanged |
| AlertLadder.NotifyDedup.ClearPair | crates/dotagent-state/src/notify_dedup.rs:123-138 | removes exactly the episodes under the pair's prefix |
| AlertLadder.LadderHolds | crates/dotagent-state/src/notify_dedup.rs:40-84 | the n-th notification, from the third on, comes no earlier than 7 h and 24 h for each after the third |
| AlertLadder.SpeaksAgain | crates/dotagent-state/src/notify_dedup.rs:71-84 | after the first, the second and every later notification an alert may speak again exactly 1 h, 6 h and 24 h later |
| AlertLadder.ClearsExactlyThePair | crates/dotagent-state/src/notify_dedup.rs:93-138 | an alert can be cleared along with another pair exactly when one of its three names has a slash |
| AlertLadder.EveryClearSparesIff | crates/dotagent-state/src/notify_dedup.rs:93-138 | a table is safe whatever pair is cleared exactly when no name in it has a slash |
| SentMessages.ScopedKeyInjective | crates/dotagent-state/src/sent_messages.rs:208-211 | two pairs of chat and message never share a key |
| SentMessages.ScopedIsNotLegacy | crates/dotagent-state/src/sent_messages.rs:80-90 | a scoped key is never an unscoped one |
| SentMessages.Table.EvictOldest | crates/dotagent-state/src/sent_messages.rs:104-120 | leaves at most 500 entries, as many as fit, none older than one it dropped |
| SentMessages.Table.Insert | crates/dotagent-state/src/sent_messages.rs:91-95 | records the entry under its unscoped key and evicts |
| SentMessages.Table.InsertForChat | crates/dotagent-state/src/sent_messages.rs:97-102 | records the entry with its chat under the scoped key and evicts |
| SentMessages.LookupsAreRight | crates/dotagent-state/src/sent_messages.rs:80-120 | over any run of inserts a lookup inside a chat finds the latest record of exactly that message or nothing |
| SentMessages.UnscopedLookupsAreRight | crates/dotagent-state/src/sent_messages.rs:75-95 | over any run of inserts a lookup without a chat finds the latest record made without one or nothing |
| SentMessages.RecordIsFound | crates/dotagent-state/src/sent_messages.rs:97-120 | a record is found right after it was made unless it is the oldest of a full table |
| SentMessages.UnscopedRecordIsFound | crates/dotagent-state/src/sent_messages.rs:91-120 | the same of a record made without a chat, looked up without one |
| LockedTable.CyclesAreSerial | crates/dotagent-state/src/notify_dedup.rs:179-240 | any interleaving of locked cycles in which no store object is loaded while another client is in a cycle on it ends in the table of a serial order of those that were saved |
| LockedTable.OwnStoresAreGuarded | crates/dotagent-state/src/sent_messages.rs:165-185 | cycles that each open their own lock file always meet that guard |
| LockedTable.ApartIsSerial | crates/dotagent-state/src/notify_dedup.rs:179-240 | for any table and any changes a run is serial when nobody saves between another's load and save |
| LockedTable.SerialIffApart | crates/dotagent-state/src/notify_dedup.rs:212-240 | and only then: every other run, of any clients on any store objects, loses a change of a table that counts them |
| LockedTable.SharedStoreLosesUpdate | crates/dotagent-state/src/notify_dedup.rs:212-240 | any two clients at once in a cycle on one store object lose the change that is saved first |

## Left out

- Process spawning, pipes and future cancellation: writes, exits, timeouts and reaper claims are free choices of the environment.
- The pool as a class: its tasks interleave at every await, which a method cannot express, so it is a step system over values; aliasing of slot handles is by cell id.
- The heartbeat and preflight around a dispatched request, and the write of the hello frame: a failed handshake covers their failures.
- `sanitize_key` and `resolve_key`: keys are opaque; collision freedom of hashed keys rests on the standard library's hasher.
- The protocol version field `v` and JSON decoding: a line arrives as the fields the reader looks at.
- Human-readable reasons, ages and labels in the health report: only the state is modelled.
- Daylight saving, time zones and fractions of a second: local time is a linear count of seconds; cron expressions are unimplemented in the source.
- Ranking of recalled facts (`score.rs`) and the other read-only queries: floating point, or one filter each.
- The outline workspace: blocks are a flat list, a new block goes anywhere in it, and provenance properties are not modelled.
- The Unicode tables behind `is_alphanumeric` and `to_lowercase`: parameters, with the few facts that are used (`FactKey.Sane`).
- File systems and failing locks: a write replaces the file in one step and taking a lock succeeds in the end; a heartbeat is read and rewritten in one step.
- HTTP drivers, redaction, configuration defaults, the audit hash chain and the plugin client: input and output, or single branches.
- MemoryKeys.KeysStayUnique: stated for statements without brackets, and for runs whose every statement meets `MemoryKeys.SafeWrite`; a statement that does not is lost to its own key (`MemoryKeys.RecognisedIff`), and `MemoryKeys.TwoLiveFactsOneKey` is a run in which uniqueness fails.
- LockedTable.CyclesAreSerial: assumes that no store object is loaded while another client is in a cycle on it; the exact condition on a run is `LockedTable.SerialIffApart`.
- The exit code of an answered request (`resolved_exit_code`): one branch, read by no modelled guard.
- Channel.AnswersNeverShift: agents that name a wrong id are not modelled.
