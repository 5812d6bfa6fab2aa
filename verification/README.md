# Melonbot: verified models of its stateful core

The bot consists of a TypeScript process that runs chat commands and two Go services: the Firehose, which
owns the chat connection and paces outgoing messages, and the EventSub broker, which turns webhook
deliveries into events. This project models the parts of them that keep state or edit data in place, and
proves what holds over all their runs.

* **Outgoing messages** (`SchedulerModel`, `Goroutines`, `MessageScheduler`, `Pacing`, `RepeatEvasion`, `SendStream`,
  `Firehose`). Every channel has a queue drained by goroutines with a cumulative deadline. `SchedulerModel`
  is the transition system of queues and goroutines; the classes of `MessageScheduler.dfy` change the same
  state in place and each method is proved to be one step of it. `Firehose.Application` adds the
  last-message table, the channels table and the chat, with two ghost histories. One
  holds the scheduler's events and carries delivery, progress, pacing, the absence of repeats and that nothing is
  lost from runs to the object; the other holds everything that happened to table and scheduler and does so for their
  agreement. The other statements are about runs. Three facts shape the model: `Ctx.Done()` cancels nothing, so
  the goroutine of a removed channel keeps draining its queue; `Run` starts a second goroutine for every channel
  already there; a goroutine that wakes late catches up in a burst, so the bound is on the running total.
* **Bot permissions** (`Permissions`, `PermissionUpdates`, `Firehose`). Badges in user-state messages move
  the stored permission and the pacing interval; the TypeScript process inserts, renames and deletes rows.
* **Command arguments** (`Arguments`, `ArgumentForms`, `ArgumentsAccounting`, `ArgumentsItems`, `ArgumentsDamage`,
  `ArgumentsScan`, `ArgumentsRoundTrip`). The loop that edits the token list it walks, what each token means as it is
  typed, an account of every token, and when parsing is the inverse of printing.
* **EventSub broker** (`EventSubBroker`). At-least-once delivery made at-most-once by a table of ids,
  followed by a gate that lets only changes of a title through.
* **Timers** (`TimerModel`, `TimerEffects`, `Timers`, `LeftoverTimers`). Timer objects in memory against the rows of the timers
  table, and what becomes of the timers of a channel that is left.
* **Trivia** (`Trivia`, `TriviaOrigins`). Rounds of a game under stale timeouts, and which event each of its reports
  stems from.
* **Smaller algorithms**: reconciliation of the commands table (`CommandTable`), splitting seconds into
  units (`Durations`), hiding user names (`Unping`), the command cooldown (`Cooldown`). `Common` and `Texts`
  hold what they share.

Runs are finite sequences of events, and functions over runs recurse on the last event. An event that cannot
happen in a state leaves it as it is, so every sequence is a run. Clock readings, the order in which a map or
a table is enumerated, and the success of every outside call are inputs that range over all values.

## What the code does not keep

Where a promise fails, the exact condition under which it holds is proved.

* Argument round trip. The documentation (docs/docs.md:83-97) asks for no order among parameters, but the token
  after a flag or a quoted sentence is skipped unexamined (src/Models/Command.ts:227-232, 250-251), and a flag
  removes all its copies, those inside values behind it included, without moving the index back.
  `RoundTripExactlyWhen`: a printed line comes back, each value read by the parameter it was written for, if and only
  if `Scan`, which looks only at the items, skips no parameter with a value, lets no examined flag remove a token of a
  value behind it, and finds for every skipped flag a later copy that is not skipped. Words and values alone come back
  in no other case either, unless a value was damaged: then it may happen by luck, when a later value of the same name
  covers up what was read (`SpoiltComesBackByLuck`; `SentenceLosesWord` shows the damage). `RoundTripWhenSpaced`: if
  no flag is written twice, the line comes back if and only if every flag and sentence is followed by a word or by
  nothing and no value behind a flag contains its token. `SecondFlagIsLost` is an input that fails, `SecondCopyMends`
  one that is not spaced and does not.
* Lines that break off, behind any items. `DanglingParameter`: a string parameter at the end throws if and only if it is
  not skipped; behind a flag it is, and ends up in the output. `OpenSentence` says the same of a sentence that is never
  closed.
* Order of a channel's messages. `EndToEnd` keeps it while the channel stays registered. `HomeOnJoin`: a channel that
  joins starts out so if and only if no message for it is queued anywhere; `OvertakenOnRejoin`: after PART and JOIN a
  new message overtakes everything the channel was asked to send before.
* Permissions. `ConvergesExactlyWhen`: with two badges set the handler leaves the permission they stand for when it
  already has it; `SeveralBadgesFlap`: repeated, such a message alternates between two permissions for ever.
* `OnUserState`: a channel in the database but not registered with the scheduler dereferences nil.
* Stored permission and interval. `AgreeThroughout`: from the start of the program they agree at every moment if and
  only if no JOIN's lookup fails for an unregistered channel whose row says other than Write, and no insert or rename
  gives a registered channel a row with another permission than its schedule has. `FailedLookupDisagrees` and
  `QuickReturnDisagrees` are the inputs; the second is a channel that comes back between the deletion of its row and
  the PART ten seconds later.
* Timers. `InitializeAgrees`: memory and table agree after start-up if and only if no channel has two rows of one
  name. `TimersAgreeWithTable`: from then on they agree at every moment if and only if no channel is left while it
  has timers. `FateOfLeftovers`: over every later run, a timer left behind never has a row again; it stays in memory
  until its name is deleted; and it runs if and only if the last event that concerns it switches it on, which is
  enabling its name or a title of its own. `NamesakeLosesItsRow`: deleting a new timer of its name removes the old one
  and the new one's row.
* Trivia. `PlaysAgainExactlyWhen`: a controller can begin another round if and only if none of its requests has
  thrown; `OneThrowIsEnough` is the shortest such run. Leaving and joining again makes a new controller
  (src/controller/Channel/index.ts:285-286).
* `Convert`: the seconds are those of the input, not of what the larger units leave. They are right if and only if
  the part of the input below whole years is less than a month.
* `ReversibleExactlyWhen`: an empty user name turns an empty word into the word "undefined".

## Model

| member | source | states |
|---|---|---|
| Permissions.MessageCooldown | Golang/internal/models/dbmodels/channel_table.go:23-34 | The pause of every permission level, known or not, lies between 50 and 1250 ms, on which the rate bounds rest. |
| SchedulerModel.Init | Golang/internal/message_scheduler/lib.go:50-57 | The scheduler starts well formed: the catch-all exists with Write permission and the directory points nowhere else. |
| SchedulerModel.Next | Golang/internal/message_scheduler/lib.go:63-167 | Every step of every operation and goroutine keeps the scheduler well formed: the catch-all stays at Write, no two channels share a schedule, every goroutine drains an existing schedule. |
| SchedulerModel.Route | Golang/internal/message_scheduler/lib.go:105-113 | A message always has one existing schedule to go to: that of its channel, or the catch-all. |
| SchedulerModel.StepConserves | Golang/internal/message_scheduler/lib.go:105-167 | In one step each schedule's queue followed by what it accepts equals what it dispatches followed by its new queue. |
| SchedulerModel.ConservationAndFifo | Golang/internal/message_scheduler/lib.go:74-167 | Over every run and for every schedule ever created, the catch-all and removed ones included: initial queue plus accepted messages equal dispatched messages plus the queue left, in order. |
| SchedulerModel.NothingLostOrDuplicated | Golang/internal/message_scheduler/lib.go:105-163 | Over all schedules together, each message has as many copies dispatched or waiting as were waiting at the start or requested since. |
| Goroutines.MessageWaits | Golang/internal/message_scheduler/lib.go:105-113 | A message joins the end of its channel's queue, or of the catch-all's if the channel is not registered, and every other queue stays. |
| Goroutines.RunStarts | Golang/internal/message_scheduler/lib.go:127-133 | For every schedule: `Run` starts one goroutine if it is the catch-all or registered and none otherwise, and touches none that was there. |
| Goroutines.AttendedExactlyWhen | Golang/internal/message_scheduler/lib.go:74-133 | Over every run until shutdown: a schedule has a goroutine that has not returned if and only if it belongs to a channel, registered or removed, or `Run` was called. |
| Goroutines.EveryQueueDrains | Golang/internal/message_scheduler/lib.go:115-166 | Progress over every run in which `Run` was called, until shutdown: at any time later turns of one goroutine send everything that waits on a schedule, in order and nothing else, for the catch-all and removed channels too; without `Run` the catch-all never sends. |
| Goroutines.ShutdownSilences | Golang/internal/message_scheduler/lib.go:149-153 | After a shutdown nothing is sent in any later run, and each goroutine returns at its next turn. |
| MessageScheduling.MessageScheduler.constructor | Golang/internal/message_scheduler/lib.go:50-57 | A new scheduler object represents the initial state. |
| MessageScheduling.MessageScheduler.UpdateTimer | Golang/internal/message_scheduler/lib.go:63-72 | Writing the interval in place is the timer step of the model; an unknown channel changes nothing. |
| MessageScheduling.MessageScheduler.AddChannel | Golang/internal/message_scheduler/lib.go:74-91 | Adding a channel creates one schedule and one goroutine, and nothing for a channel already there. |
| MessageScheduling.MessageScheduler.RemoveChannel | Golang/internal/message_scheduler/lib.go:93-103 | Removal takes the channel out of the directory only: its schedule, queue and goroutines stay; the error result tells whether it was there. |
| MessageScheduling.MessageScheduler.AddMessage | Golang/internal/message_scheduler/lib.go:105-113 | The message is appended to the queue of its channel, or to the catch-all's, and to no other. |
| MessageScheduling.MessageScheduler.Run | Golang/internal/message_scheduler/lib.go:115-134 | In whatever order the map is ranged over: of the goroutines, one more runs on the catch-all, one more on each registered schedule, and as many as before on every other schedule ever created. |
| MessageScheduling.MessageScheduler.StartRegistered | Golang/internal/message_scheduler/lib.go:127-131 | The loop over the map starts exactly one goroutine for each registered channel, each once. |
| MessageScheduling.MessageScheduler.Cancel | Golang/internal/message_scheduler/lib.go:115-125 | Cancelling the parent context, from which every schedule's context derives, is the shutdown step. |
| MessageScheduling.MessageScheduler.BeginLoop | Golang/internal/message_scheduler/lib.go:145 | A goroutine that starts sets its first deadline one interval after its clock reading. |
| MessageScheduling.MessageScheduler.NextMessage | Golang/internal/message_scheduler/lib.go:149-161 | The head of the queue is handed over exactly when the goroutine is past its deadline, not cancelled and the queue is not empty. |
| MessageScheduling.MessageScheduler.WakeLoop | Golang/internal/message_scheduler/lib.go:148-166 | The turn pops the queue and moves the deadline on from the old deadline, or ends the goroutine after cancellation. |
| Pacing.DeadlineIsCumulative | Golang/internal/message_scheduler/lib.go:145-165 | A sleeping goroutine's deadline is its begin time plus all intervals it has read, one more than it has passed. |
| Pacing.CumulativeRate | Golang/internal/message_scheduler/lib.go:136-172 | For every run, with any timer updates and late wake-ups, the k-th send of a goroutine comes no earlier than its begin time plus the first k intervals it read. |
| Pacing.LoopRate | Golang/internal/message_scheduler/lib.go:136-172 | By time t one goroutine has sent at most one message per 50 ms since it began. |
| Pacing.CatchAllIntervals | Golang/internal/message_scheduler/lib.go:42-44 | Every interval a catch-all goroutine reads is 1250 ms: no timer update reaches it. |
| Pacing.CatchAllRate | Golang/internal/message_scheduler/lib.go:133-172 | By time t a catch-all goroutine has sent at most one message per 1250 ms since it began. |
| Pacing.LevelPace | Golang/internal/models/dbmodels/channel_table.go:23-34 | A goroutine whose schedule stays at one level is due exactly every 250 ms for VIP, 50 ms for Moderator and Bot and 1250 ms for every other level after it began, and sends at most one message per that time. |
| Pacing.ScheduleCount | Golang/internal/message_scheduler/lib.go:127-163 | What a schedule has sent by time t is the sum of what each of its goroutines has sent. |
| Pacing.ScheduleRate | Golang/internal/message_scheduler/lib.go:115-172 | A schedule with several goroutines has sent by time t at most one message per 50 ms of the running time of each. |
| Pacing.OneTimePerMessage | Golang/internal/message_scheduler/lib.go:160-163 | The send times counted for a schedule are one for each message it dispatched. |
| Pacing.KeepsSchedule | Golang/internal/message_scheduler/lib.go:93-103 | A goroutine drains the same schedule for ever, removed or not. |
| Pacing.BoundedWait | Golang/internal/message_scheduler/lib.go:148-166 | A message at position p of a queue is the p-th its schedule sends from then on, and is sent once any goroutine of the schedule has passed p + 1 times, even if the channel was removed. |
| RepeatEvasion.VariantDiffers | Golang/cmd/Firehose/main.go:322-329 | Evasion always changes the text, and what is visible of it by at most one trailing space. |
| RepeatEvasion.SentTextIs | Golang/cmd/Firehose/main.go:320-331 | A text that differs from the channel's last one is sent as it is; the same one with a space and a U+E0000 behind it, or, if it contains any U+E0000, without all of them and otherwise unchanged. |
| RepeatEvasion.RewriteProperties | Golang/cmd/Firehose/main.go:319-338 | The text sent differs from the channel's last one; channel and reply id stay. |
| RepeatEvasion.NeverTwiceInARow | Golang/cmd/Firehose/main.go:319-338 | For every stream of messages over all channels, no text equals the one sent to its channel before, and the table holds each channel's last text. |
| RepeatEvasion.ChannelsIndependent | Golang/cmd/Firehose/main.go:320-331 | The stream of one channel is rewritten as if the others did not exist. |
| RepeatEvasion.RewritingIsFaithful | Golang/cmd/Firehose/main.go:319-338 | Sent messages correspond one for one, in order, to the requested ones, with U+E0000 removed and up to one trailing space. |
| RepeatEvasion.RepeatsAlternate | Golang/cmd/Firehose/main.go:319-331 | Any text sent n times in a row to a channel whose last text differs alternates with period two between the text and its variant. |
| SendStream.HomeRun | Golang/internal/message_scheduler/lib.go:74-113 | While a channel stays registered, its messages are in its own schedule's queue and in no other. |
| SendStream.OneSchedule | Golang/internal/message_scheduler/lib.go:74-167 | What a registered channel was asked to send and what was sent to it is what its own schedule accepted and dispatched. |
| SendStream.EndToEnd | Golang/cmd/Firehose/main.go:284-338 | For a channel registered throughout any run: sent texts match the requested ones one for one and in order up to evasion, never repeat, and the rest still waits in its queue. |
| SendStream.HomeOnJoin | Golang/cmd/Firehose/main.go:244-245 | A channel that joins has such a schedule of its own if and only if no queue holds a message for it. |
| SendStream.OvertakenOnRejoin | Golang/internal/message_scheduler/lib.go:74-103 | In every state: if a channel parts, joins again and is asked for a message, its new goroutine sends that message while the queues still hold all they held before. |
| SendStream.EndToEndFromStart | Golang/cmd/Firehose/main.go:185-338 | The same from the start of the program for a channel joined first. |
| PermissionUpdates.ConvergesExactlyWhen | Golang/cmd/Firehose/main.go:146-171 | The handler settles on the permission the badges stand for if and only if the channel does not already have it or at most one badge is set. |
| PermissionUpdates.RowFollowsInterval | Golang/cmd/Firehose/main.go:58-77 | Whatever the messages and whichever updates fail, the stored permission keeps equal to the interval, and Read is never entered. |
| PermissionUpdates.LastMessageDecides | Golang/cmd/Firehose/main.go:127-173 | After any history, a message with at most one badge whose update succeeds leaves the interval at that badge's permission; without a badge Write, except that Read stays. |
| PermissionUpdates.RepeatedMessage | Golang/cmd/Firehose/main.go:146-171 | Repeating a message with at most one badge writes at most once; with several badges every repetition writes. |
| PermissionUpdates.SeveralBadgesFlap | Golang/cmd/Firehose/main.go:146-171 | With several badges, n repetitions alternate with period two between the permission they stand for and a second one, for every n. |
| Firehose.RecordedIsTheRun | Golang/cmd/Firehose/main.go:319-338 | From any moment on, sending each message as it is dispatched equals rewriting the whole stream dispatched since. |
| Firehose.Application.constructor | Golang/cmd/Firehose/main.go:366-375 | The application starts with nothing sent and empty histories, and represents the initial state. |
| Firehose.Application.Join | Golang/cmd/Firehose/main.go:185-251 | JOIN registers the channel with the permission of its row, or Write when the lookup fails, and sends nothing; it is the join of the runs over table and scheduler. |
| Firehose.Application.Part | Golang/cmd/Firehose/main.go:252-268 | PART is the removal step; nothing queued is sent or lost by it. |
| Firehose.Application.Privmsg | Golang/cmd/Firehose/main.go:284-306 | A chat line or reply is queued, not sent. |
| Firehose.Application.OnScheduleMessage | Golang/cmd/Firehose/main.go:319-338 | The text is rewritten if it repeats the channel's last one, remembered and sent with its channel and reply id. |
| Firehose.Application.HandOver | Golang/internal/message_scheduler/lib.go:160-161 | The chat and the last-message table after a goroutine looked at its queue are those of the recorded run. |
| Firehose.Application.Turn | Golang/internal/message_scheduler/lib.go:148-166 | A goroutine's turn, sending before popping, is one step of the recorded run. |
| Firehose.Application.SetPermission | Golang/cmd/Firehose/main.go:58-77 | A failed update changes nothing; otherwise the channel's row, its interval and the announcement change together and no other row does. |
| Firehose.Application.OnUserState | Golang/cmd/Firehose/main.go:127-173 | Other users and unknown channels are ignored, an unregistered channel of the database is a nil dereference, and otherwise row, interval and announcement follow the decision on the badges; it is the user state of the runs over table and scheduler. |
| Firehose.Application.Start | Golang/cmd/Firehose/main.go:410-411 | Starting the scheduler records one run step in the order the map was ranged over. |
| Firehose.Application.BeginTurns | Golang/internal/message_scheduler/lib.go:145 | A goroutine beginning is one step of the recorded run and sends nothing. |
| Firehose.Application.Shutdown | Golang/internal/message_scheduler/lib.go:115-125 | Cancellation is one step of the recorded run and sends nothing. |
| Firehose.Application.InsertRow | src/controller/Channel/index.ts:80-88 | An insert adds the row, unless its name or its user id is in the table already. |
| Firehose.Application.RenameRow | src/controller/Channel/index.ts:266-273 | A rename moves the row to the new name, unless that name is taken. |
| Firehose.Application.DeleteRow | src/commands/leave/index.ts:32 | Leaving deletes the row and nothing else; the schedule stays until the PART. |
| Firehose.Application.NoRepeatedText | Golang/cmd/Firehose/main.go:319-338 | At any time, on every channel, no text was sent twice in a row. |
| Firehose.Application.NothingLost | Golang/cmd/Firehose/main.go:284-338 | At any time every message requested was sent, up to evasion, or waits in a queue, no more and no less often. |
| Firehose.Application.EverythingCanBeSent | Golang/internal/message_scheduler/lib.go:115-166 | At any time before shutdown, once the scheduler was started, everything that waits on any schedule of the program is sent by some later turns. |
| Firehose.Application.SilentSinceShutdown | Golang/internal/message_scheduler/lib.go:149-153 | Since its shutdown the program has sent nothing. |
| Firehose.Application.DeliveredSince | Golang/cmd/Firehose/main.go:284-338 | For a channel registered since some moment of the program: the messages sent to it since are those it held and was asked to send since, one for one and in order up to evasion, none repeated, the rest in its queue. |
| Firehose.Application.PacedSending | Golang/internal/message_scheduler/lib.go:115-172 | At any time a schedule of the program has sent at most one message per 50 ms of the running time of each of its goroutines. |
| Firehose.Application.AgreesThroughout | Golang/cmd/Firehose/main.go:58-268 | The table and the scheduler of the program are what its history makes of those it started with, and they agreed at every moment so far if and only if all that happened was harmless. |
| Firehose.AgreementKept | Golang/cmd/Firehose/main.go:127-268 | If stored permissions and intervals of the registered channels agree, they agree after any join, part, message, turn, user state or change of the table, failing lookups and updates included, if and only if it is not a JOIN whose lookup fails for an unregistered channel stored as other than Write, nor an insert or rename that gives a registered channel another permission than its interval. |
| Firehose.AgreeThroughout | Golang/cmd/Firehose/main.go:58-268 | Over every run from the start of the program, from any channels table: they agree at every moment if and only if nothing of that kind occurs. |
| Firehose.FailedLookupDisagrees | Golang/cmd/Firehose/main.go:234-245 | A channel stored as VIP whose lookup fails on its first JOIN is paced as Write. |
| Firehose.QuickReturnDisagrees | src/commands/leave/index.ts:27-32 | In every state: a registered channel not at Write whose row is deleted and inserted anew, with Write, before its PART disagrees with its schedule. |
| Firehose.UserStateStep | Golang/cmd/Firehose/main.go:58-77 | The step after a user state is the channel's permission machine; other channels keep row and interval, and agreement is kept. |
| Firehose.JoinInterval | Golang/cmd/Firehose/main.go:234-245 | A channel that joins is paced at the permission of its row, and at Write without a row or when the lookup fails; a channel already registered is left as it is. |
| Arguments.FindEnd | src/Models/Command.ts:240-243 | The end of a sentence is the first token behind the parameter that ends in the opening quote, or there is none. |
| Arguments.Without | src/Models/Command.ts:229 | Removing all equal tokens shortens the list if the token is in it, on which termination rests. |
| Arguments.ParseArguments | src/Models/Command.ts:200-266 | The loop that edits its list and index terminates and computes the parse, errors included. |
| Arguments.FindMatches | src/Models/Command.ts:219-221 | The parameter found is one the token names in its long or short form, and none is found only if the token names none. |
| Arguments.FindByName | src/Models/Command.ts:219-221 | Two tokens that find parameters of one name find the same parameter. |
| ArgumentForms.FindsFirst | src/Models/Command.ts:219-221 | A token finds the first declared parameter of whose name it is two dashes and the name, or one dash and its first character. |
| ArgumentForms.BothForms | src/Models/Command.ts:219-221 | A declared parameter has its long form, and its short one unless an earlier name begins with the same character, apart from the collisions of a short with a long form. |
| ArgumentForms.FreeTokensStay | src/Models/Command.ts:204-223 | Tokens that are neither form of any declared name stay, all and in order, and every declared name is then the empty string or false. |
| ArgumentForms.FlagTokenSets | src/Models/Command.ts:227-232 | Either form of a flag sets exactly the first declared parameter it names, and is gone from the output. |
| ArgumentForms.ValueTokenReads | src/Models/Command.ts:234-260 | Either form of a string parameter reads the token behind it as its value, unless that is empty or begins with a quote, and both are gone from the output. |
| ArgumentForms.QuotedTokenReads | src/Models/Command.ts:237-251 | A token in double or single quotes is read without them. |
| ArgumentForms.LoneQuoteReads | src/Models/Command.ts:237-251 | A quote on its own is read as the empty string. |
| ArgumentForms.MissingValueThrows | src/Models/Command.ts:234-235 | A string parameter with nothing or an empty token behind it throws the missing-value error. |
| ArgumentsAccounting.EveryTokenAccountedFor | src/Models/Command.ts:217-265 | For every input that parses: the output is an order-preserving subsequence of the input, the multiset of tokens is output plus consumed tokens, every consumption is one of a declared parameter, and the values are the defaults overwritten in order. |
| ArgumentsAccounting.ValuesAreTyped | src/Models/Command.ts:204-232 | With distinct names the keys of the values are exactly the declared names, booleans for boolean and strings for string parameters. |
| ArgumentsItems.InnerOfQuoted | src/Models/Command.ts:245-248 | Joining the quoted tokens of a sentence and cutting off the quotes gives its words. |
| ArgumentsItems.RenderWithout | src/Models/Command.ts:229 | Filtering a flag's token out of a printed line removes the flag's items and nothing else, if no value contains it. |
| ArgumentsItems.LeftStays | src/Models/Command.ts:217-260 | A token behind the index that is no flag is in the output of every parse that does not throw. |
| ArgumentsDamage.TouchedSpoils | src/Models/Command.ts:229 | A line out of which a flag's token was removed that one of its values contained throws, leaves a parameter in the output, or has a parameter read something else than was written, wherever the parser stands and whatever else follows. |
| ArgumentsScan.Scans | src/Models/Command.ts:217-260 | Wherever the parser stands in a printed line and whatever follows it: if the scan loses a parameter, the parse throws or leaves a parameter in the output; if a flag removes a token of a value, that or a parameter reads something else; otherwise the parser gets through the items leaving their words and the flags the scan names, every value read by its own parameter and all of them stored unless a flag stays. |
| ArgumentsRoundTrip.RoundTripExactlyWhen | src/Models/Command.ts:200-266 | For every list of proper items: parsing the printed line gives back exactly its words and values, last writer winning, each value read by the parameter it was written for, if and only if the scan skips no parameter with a value, damages no value and leaves no flag; where no value is damaged, words and values alone come back if and only if so. |
| ArgumentsRoundTrip.RoundTripWhenSpaced | src/Models/Command.ts:200-266 | If no flag is written twice: if and only if every flag and sentence is followed by a word or by nothing and no value behind a flag contains its token. |
| ArgumentsRoundTrip.DanglingParameter | src/Models/Command.ts:234-235 | Behind any items, a string parameter at the end throws the missing-value error if and only if the scan gets there with nothing to skip; with something to skip nothing is thrown and it is in the output. |
| ArgumentsRoundTrip.OpenSentence | src/Models/Command.ts:240-243 | Behind any items, a sentence that is never closed throws the end-of-sentence error if the scan gets to it with nothing to skip; otherwise the parse throws, leaves a parameter in the output or has misread a value before. |
| ArgumentsRoundTrip.SecondFlagIsLost | src/Models/Command.ts:227-232 | Of two flags in a row the second is not set and stays in the output, though docs/docs.md allows it. |
| ArgumentsRoundTrip.SecondCopyMends | src/Models/Command.ts:229 | A flag skipped behind another is set after all if a second copy follows: the line comes back, both flags set. |
| ArgumentsRoundTrip.SentenceLosesWord | src/Models/Command.ts:229 | Behind a flag and a word, a sentence comes back without the word that is the flag's token, whatever its other words and whatever follows. |
| ArgumentsRoundTrip.SpoiltComesBackByLuck | src/Models/Command.ts:247-258 | Such a line gives back its words and values all the same if a later value of the same name follows. |
| EventSubBroker.Server.EventsubRoute | Golang/cmd/EventSub/server/server.go:134-223 | 400 for other content, 403 unsigned, 500 for a body that cannot be decoded, the challenge for a handshake and 204 for everything else; state changes only for the first stored delivery of an id, which enters the table, and whose event is published, a title only past the gate. |
| EventSubBroker.Server.FirstOrCreate | Golang/cmd/EventSub/server/server.go:162-178 | The insert reports one row for a new id, none for a known one, and an error when storage fails. |
| EventSubBroker.Server.OnChannelUpdate | Golang/cmd/EventSub/server/server.go:249-276 | A title equal to the stored one, or a Redis failure, publishes and stores nothing. |
| EventSubBroker.RedeliveryIsInvisible | Golang/cmd/EventSub/server/server.go:155-185 | With successful storage every delivery trace leaves the same ids, titles and published events as the trace of first deliveries, challenges and rejected requests dropped. |
| EventSubBroker.AtMostOnce | Golang/cmd/EventSub/server/server.go:162-178 | With any storage failures no message id is dispatched twice or after it was known, and the id table holds exactly the known and the dispatched ids. |
| EventSubBroker.OnlyProcessedMatter | Golang/cmd/EventSub/server/server.go:155-185 | The deliveries that reached the dispatcher determine the whole state. |
| EventSubBroker.PlainEventsArePublished | Golang/cmd/EventSub/server/server.go:155-247 | Over every trace with any storage failures, the follow, online and offline events published are exactly those of the first stored genuine delivery of each id, in order. |
| EventSubBroker.TitleGateDestutters | Golang/cmd/EventSub/server/server.go:249-276 | The titles handed on for a channel are the titles that reached the gate with adjacent repeats collapsed, starting from the stored title, and the stored title is the last one. |
| EventSubBroker.DestutterNeverRepeats | Golang/cmd/EventSub/server/server.go:263-275 | Such a sequence never repeats a title and ends with the last one offered. |
| Timers.SingleTimer.Start | src/Singletons/Timers/index.ts:260-284 | Starting a running timer is an error and writes nothing; otherwise its row is enabled. |
| Timers.SingleTimer.Stop | src/Singletons/Timers/index.ts:286-300 | Stopping a stopped timer is an error and writes nothing; otherwise its row is disabled. |
| Timers.TimerSingleton.GetTimer | src/Singletons/Timers/index.ts:50-70 | The first timer of the channel with the name, or none. |
| Timers.TimerSingleton.Initialize | src/Singletons/Timers/index.ts:72-97 | In whatever order the table streams its rows, names repeated or not: one timer per row, in that order, running if and only if the row is enabled and lists no titles or the channel's stored one; the table is unchanged. |
| Timers.TimerSingleton.CreateNewTimer | src/Singletons/Timers/index.ts:99-122 | A name taken in the table is an error without effect; otherwise row and running timer appear together. |
| Timers.TimerSingleton.DeleteTimer | src/Singletons/Timers/index.ts:124-144 | Error, exception or removal of the timer and of its row. |
| Timers.TimerSingleton.EnableTimer | src/Singletons/Timers/index.ts:157-167 | Result and effect in every case: no timers, no such timer, already running, started. |
| Timers.TimerSingleton.DisableTimer | src/Singletons/Timers/index.ts:169-178 | Result and effect in every case: no timers, no such timer, not running, stopped. |
| Timers.TimerSingleton.GetTimers | src/Singletons/Timers/index.ts:146-155 | Asking for a channel without timers gives it an empty list and changes no other. |
| Timers.TimerSingleton.TitleChanged | src/Singletons/Timers/index.ts:206-222 | A timer with titles is started or stopped by membership of the title, one without is left alone. |
| Timers.TimerSingleton.HandleChannelUpdate | src/Singletons/Redis/EventSub/ChannelUpdate.ts:13-23 | The loop applies the title to every timer of the channel. |
| Timers.TimerSingleton.DeleteForChannel | src/Singletons/Timers/index.ts:183-194 | The loop stops every timer of the channel, and all its rows go. |
| TimerModel.InitializeAgrees | src/Singletons/Timers/index.ts:72-97 | After start-up from any table, in any order, memory and table agree if and only if no channel has two rows of one name; the table is unchanged. |
| TimerModel.NextAgrees | src/Singletons/Timers/index.ts:99-194 | Creating, deleting, enabling, disabling and title changes keep the agreement, and leaving a channel keeps it if and only if the channel has no timers. |
| TimerModel.TimersAgreeWithTable | src/Singletons/Timers/index.ts:72-300 | A channel's timers match its rows one to one with distinct names, a running timer's row is enabled, and without titles running and enabled are equivalent, at every moment of a run if and only if no channel is left while it has timers; so always without leaving. |
| TimerModel.TitleChangeDecides | src/Singletons/Redis/EventSub/ChannelUpdate.ts:13-23 | In every state, whatever the history, after a title change a timer with titles runs exactly when the title is among them and other timers are unchanged; where memory and table agreed, so are the rows of other channels. |
| TimerModel.LeavingChannel | src/Singletons/Timers/index.ts:183-194 | Leaving a channel stops all its timers and deletes all its rows, other channels still agree, and the channel itself agrees if and only if it had no timers. |
| TimerEffects.StartUpRestores | src/Singletons/Timers/index.ts:72-97 | For every table, order and stored titles: a channel's memory lists one timer per row of its own, in streaming order, running if and only if the row is enabled and lists no titles or the stored one. |
| TimerEffects.OwnedOnce | src/Singletons/Timers/index.ts:72-97 | If the table streams no row twice, no row has two timers. |
| TimerEffects.CreatingDecides | src/Singletons/Timers/index.ts:99-122 | In every state: a name that is taken changes nothing; a free one gets an enabled row and a running timer at the end of its channel's list, and nothing else changes. |
| TimerEffects.DeletingDecides | src/Singletons/Timers/index.ts:124-144 | In every state: the first timer of the name goes and every row of it; no other timer changes and no other row, but that of the timer itself if it has another name. |
| TimerEffects.EnablingDecides | src/Singletons/Timers/index.ts:157-167 | In every state: the first timer of the name runs afterwards, its row enabled where memory and table agreed; no other timer or row changes, and nothing does if there is none of the name. |
| TimerEffects.DisablingDecides | src/Singletons/Timers/index.ts:169-178 | In every state: the first timer of the name stands still afterwards, its row disabled if it was running; no other timer or row changes. |
| TimerEffects.LeavingDecides | src/Singletons/Timers/index.ts:183-194 | In every state: the channel's timers stand still, its rows and no others are gone, no other timer changes, and where memory and table agreed no other row. |
| TimerEffects.TitlesDecideRows | src/Singletons/Timers/index.ts:206-222 | Where memory and table agreed, a title change writes the rows of exactly the timers it starts or stops, as enabled or disabled. |
| LeftoverTimers.FateOfLeftovers | src/Singletons/Timers/index.ts:50-194 | For every timer of a channel that is left and every later run in which its uuid is not reused: it has no row, it is in memory if and only if its name was not deleted, and it runs if and only if the last event concerning it switched it on. |
| LeftoverTimers.NamesakeLosesItsRow | src/Singletons/Timers/index.ts:124-144 | A new timer of the name of one left behind loses its row when the name is deleted, and runs on. |
| Trivia.TriviaController.StartRound | src/controller/Trivia/index.ts:48-66 | A request is made exactly when the channel is neither loading nor playing. |
| Trivia.TriviaController.Resume | src/controller/Trivia/index.ts:75-94 | A question opens a round named by the time of the reply, sets its timeout and unblocks. |
| Trivia.TriviaController.ResumeFailed | src/controller/Trivia/index.ts:68-73 | Another status reports the failure and unblocks. |
| Trivia.TriviaController.ResumeThrown | src/controller/Trivia/index.ts:63-75 | A throw leaves the channel blocked with nothing reported. |
| Trivia.TriviaController.ResetRound | src/controller/Trivia/index.ts:159-168 | A reset closes the round, forgets its invoker and replaces its id by the time of the reset. |
| Trivia.TriviaController.TryTrivia | src/controller/Trivia/index.ts:97-106 | While a round is on, a similar answer ends it and names its author the winner; any other answer changes nothing. |
| Trivia.TriviaController.TrySkip | src/controller/Trivia/index.ts:108-114 | Only the invoker's skip ends the round; any other changes nothing. |
| Trivia.TriviaController.EmitTimeout | src/controller/Trivia/index.ts:175-181 | A timeout ends the round only if it carries the round's id. |
| Trivia.RoundsAreBracketed | src/controller/Trivia/index.ts:48-199 | Over every interleaving, with non-empty names: never loading and playing at once, each ready comes when no round is open and each ending when one is, and a round is open exactly while the game is on. |
| Trivia.ReadyIdsIncrease | src/controller/Trivia/index.ts:187-199 | If the clock advances between replies, round ids increase strictly. |
| Trivia.TimeoutEndsItsOwnRound | src/controller/Trivia/index.ts:175-199 | A timeout ends the round whose ready event carries its id, and with an advancing clock no other round has that id. |
| TriviaOrigins.EveryEntryReports | src/controller/Trivia/index.ts:48-199 | Over every run with non-empty names each report stems from one event in order: a winner from that user's similar answer while the round was open, a skip from the skip of its invoker, a timeout from the timer of that round, a question or failure from the reply to a request under way. |
| TriviaOrigins.AnswersDecide | src/controller/Trivia/index.ts:97-106 | At every point of every run: an answer similar enough ends the open round with its author as winner, and any other answer changes nothing. |
| TriviaOrigins.SkipsDecide | src/controller/Trivia/index.ts:108-114 | At every point of every run with non-empty names: the skip of the open round's invoker ends it, and any other skip changes nothing. |
| TriviaOrigins.TimeoutsDecide | src/controller/Trivia/index.ts:175-181 | At every point of every run: a timeout that fires ends the open round if it is its own, and is otherwise only used up. |
| TriviaOrigins.RepliesDecide | src/controller/Trivia/index.ts:63-95 | At every point of every run with a request under way: a question opens a round of its requester, an error is reported and unblocks, and a throw leaves the channel blocked. |
| TriviaOrigins.StartsDecide | src/controller/Trivia/index.ts:48-51 | At every point of every run: a start blocks the channel and makes a request in its invoker's name, unless the channel is loading or playing. |
| TriviaOrigins.RoundsBelongToTheirStarter | src/controller/Trivia/index.ts:48-93 | Over every run with non-empty names the request under way and the open round belong to the invoker of the last start that was accepted. |
| Trivia.NoRoundOutlivesItsLimit | src/controller/Trivia/index.ts:187-196 | With punctual timers every ending comes within 60000 ms of its round's beginning, and no round is open when anything happens later. |
| Trivia.StuckExactlyWhen | src/controller/Trivia/index.ts:51-93 | In every reachable state the channel is blocked with no request under way if and only if a request of it has thrown. |
| Trivia.ThrownReplyBlocksForever | src/controller/Trivia/index.ts:49-75 | From such a state no events begin a round, and the state stays. |
| Trivia.PlaysAgainExactlyWhen | src/controller/Trivia/index.ts:48-95 | In every reachable state some later events with non-empty names begin a round if and only if no request of the controller has thrown. |
| Trivia.OneThrowIsEnough | src/controller/Trivia/index.ts:51-75 | One start whose request throws is such a run. |
| CommandTable.Registry.RegisterCommand | src/controller/Commands/Handler.ts:29-34 | A name registered before is refused; each key stays the name of its command. |
| CommandTable.UpdateStale | src/controller/Commands/Handler.ts:41-60 | The two nested loops overwrite every row of a loaded command with that command, and write nothing if the table is already reconciled. |
| CommandTable.InsertMissing | src/controller/Commands/Handler.ts:61-77 | Each loaded command without a row read gets exactly one new row; existing rows stay. |
| CommandTable.DeleteUnknown | src/controller/Commands/Handler.ts:79-83 | The rows read whose name is not loaded go, and only those. |
| CommandTable.PhasesReconcile | src/controller/Commands/Handler.ts:41-83 | The three phases together are a reconciliation of the table read at the start. |
| CommandTable.ReconciliationReconciles | src/controller/Commands/Handler.ts:36-87 | After it the set of rows equals the loaded commands, distinct names stay distinct, and rows that were right keep id and content. |
| CommandTable.StoreToDB | src/controller/Commands/Handler.ts:36-87 | From any table, without database errors, the result is such a reconciliation, and a reconciled table sees no write. |
| CommandTable.StoreTwice | src/controller/Commands/Handler.ts:36-87 | A second run issues no writes. |
| Durations.SecondsConversions.Convert | src/tools/tools.ts:31-48 | For every input in the 32-bit range: mo at most 11, d 30, h 23, m and s 59; the units with a remainder below 60 give the input exactly; s is the remainder plus 17 per month modulo 60, and equals it if and only if the input modulo a year is less than a month. |
| Durations.ShownApproximates | src/tools/tools.ts:50-57 | Any number of leading non-zero units differs from the input by less than the last unit shown, or 60 if that is seconds. |
| Durations.SecondsFmt | src/tools/tools.ts:50-57 | The text is the joined labels of at most the given number of units, none zero, with that precision; no unit is printed only for 0. Joined in the default way it reads back, with the length of every unit written out, as the total shown, and with room for all units as exactly the input if and only if the input modulo a year is less than a month. |
| Durations.TextDecidesParts | src/tools/tools.ts:50-57 | Joined in the default way, the text determines the units printed and their numbers. |
| Durations.TextReadsBack | src/tools/tools.ts:31-57 | Reading the text with y, mo, d, h, m and s as 31536000, 2629757, 86400, 3600, 60 and 1 seconds gives the total of the units printed. |
| Durations.PrintedConcat | src/tools/tools.ts:50-57 | Whatever joins the units stands between them and nowhere else. |
| Unping.ReversibleExactlyWhen | src/tools/tools.ts:208-218 | Deleting U+E0000 undoes the hiding for every message and list of names, if and only if not both an empty name and an empty word occur. |
| Unping.WordsStayWords | src/tools/tools.ts:209-218 | The result has as many space-separated words as the message, each being what hiding makes of the word in its place. |
| Unping.NamesAreHidden | src/tools/tools.ts:208-218 | A word whose bare lower-case form is a user name comes back with U+E0000 right behind its first character, and every other word unchanged. |
| Unping.MarkedNamesAreHidden | src/tools/tools.ts:209-218 | That holds for a name of letters, digits and underscores with any of the marks @#.,:;?! around it. |
| Cooldown.KeyInjective | src/controller/Channel/index.ts:509-511 | Keys are equal exactly for the same channel, user and command, for channel ids of digits and any command names. |
| Cooldown.Redis.CheckCommandCooldown | src/controller/Channel/index.ts:513-521 | The check answers whether the key of the triple is alive, and changes nothing. |
| Cooldown.Redis.SetCommandCooldown | src/controller/Channel/index.ts:523-536 | Outside development the key lives for the cooldown from now, or not at all if that is not positive; in development nothing is written. |
| Cooldown.Redis.Admit | src/controller/Channel/index.ts:358-363 | A command is refused exactly while its key is alive; an accepted one sets the key except in development. |
| Cooldown.KeySpacing | src/controller/Channel/index.ts:513-536 | Over every run in order of time an attempt passes if and only if the cooldown of each earlier one on its key that passed is over. |
| Cooldown.CooldownSpacing | src/controller/Channel/index.ts:358-363 | A command is accepted if and only if every earlier accepted request of the same user for it in the same channel lies at least the cooldown back; no other request matters. |

## Left out

- Goroutine interleavings inside one operation: each scheduler operation, each goroutine turn and each handler is one atomic step, so data races within an append, a pop or a map access are not captured.
- `time.Sleep`, the clock and `time.Duration` overflow: times are unbounded integers in milliseconds and a goroutine may wake at any time, the model refusing turns before the deadline.
- Sockets, IRC, HTTP, OAuth, HMAC, JSON, SQL and Redis drivers: each call is an atomic step on a map or set, or a boolean input telling whether it succeeded.
- Parsing of JOIN, PART, PRIVMSG and reply lines, and the texts written back to the clients.
- String encodings: texts are sequences of code points. Go's bytes and JavaScript's UTF-16 units, which matter when the first unit of a name or a word belongs to an astral character, are not distinguished.
- `GetBotPermission` and `String` of a permission: conversions without state; published modes are the numbers.
- The order of announcement and timer update inside `setPermission`, which is one step here.
- Message ids that are empty: the id condition of the broker's insert would then match any row.
- Logging, and the branches of `eventsubRoute` for revocations, which only log.
- Trivia: the similarity score (a boolean input), hints, categories and replies of the wrong shape; a reply that cannot be decoded is a thrown reply.
- Timers: the interval at which a running timer says its message, and two methods of the singleton running at once; each runs to completion.
- RoundTripExactlyWhen: when a flag damages a value, whether the words and values alone come back by luck has no condition here other than the parse.
- CreateNewTimer: that the generated uuid is new is an assumption on the generator.
- StoreToDB: database errors, which the source catches and logs in the middle of a run, and inserts whose id conflicts, which the serial column rules out.
- SecondsFmt: negative and fractional inputs, those beyond the 32-bit range of `~~`, and negative limits.
- Unping: `toLowerCase` is any function that keeps the empty string; the user cache that supplies the names.
- CooldownSpacing: two calls for one key that overlap, and an expiry that fails after its key was set, which would block the command for good.
- The remaining repository (user cache, suggestions, pagination, 7TV and banphrase handling, TCP broadcast, web pages, migrations) has no state invariant of this kind.
