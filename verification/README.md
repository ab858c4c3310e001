# lierc, modelled and proved

lierc keeps IRC connections open for its users. `liercd` runs one `IRCClient` for each connection:
it connects, registers, follows channels and nicks, reconnects with a growing delay, and publishes
what happens to nsqd; `lierc-logger` stores those messages and publishes them again. This project
models the parts of that with the most interleaving and the most state, and proves what they
guarantee:

- **The life of a connection** (`Lifecycle*.dfy`, `Connection.dfy`). `connect`, the dial hook it
  runs, each report of an attempt's end, the reconnect timer, each handler and each `Destroy` are
  threads. Taking a lock, the section under it, and each action between two sections are single
  steps, and the steps interleave freely. `Lifecycle` is the transition system,
  `LifecycleInvariant` its inductive invariant, `LifecycleCore` and `LifecycleSteps` the proof that
  every step keeps it, and `LifecycleTheorems`, `LifecycleSockets` and `LifecycleProgress` what
  follows. `LifecycleContinues` proves that an end that is not final is always followed by the next
  attempt. `LifecycleEffects` tells what a step does for each part of the state; from it follow
  what a connection that is up has (`LifecycleSetup`), what the fields say of the run so far
  (`LifecycleHistory`), the backoff in numbers (`LifecycleBackoff`), where an end's text comes from
  (`LifecycleReasons`), and that Sends reach the connection (`LifecycleSends`). `LifecycleLocks` adds, between those steps, each sender's mutex and `once` and the calls of
  the sink that a handler leaves for later; its runs are runs of `Lifecycle`, so all of that holds of
  them too, and there the order of all the locks and the absence of deadlock are proved. `Connection`
  has the sections as methods that update the client's fields in place; each is proved to be the
  transition system's.
- **The nick search during registration** (`Registration.dfy`).
- **Channels, nicks and the config** (`Channels.dfy`, `Handlers.dfy`, `ClientState.dfy`). The handlers
  are methods over nested maps of channel objects, proved to do what `Handlers` says of one message.
  `Replay`, `ModeChanges`, `MemberModes`, `ConfigHistory` and `NickHistory` then prove what that means over whole
  histories, and `PublishOrder` what becomes of the config changes between the handler that makes them
  and their publication.
- **NAMES lists and ISUPPORT tokens** (`NamesList.dfy`, `Isupport.dfy`): printers and parsers that undo
  each other.
- **The socket's wrapper** (`ReadTracking.dfy`), **the publisher** (`Publishing.dfy`,
  `PublishingProgress.dfy`), **the sender**
  (`Sending.dfy`): loops driven by any sequence of events from the network and other goroutines.
- **The logger** (`Logging.dfy`): storing and publishing under failures and redelivery.

`Options` and `Text` are helpers. Check everything with `dafny verify dfyconfig.toml`.

Some properties one might expect do not hold of the code in every case, and are stated with their
exact condition instead:

- A NICK from a nick to itself deletes that nick from the channels it was in: the handler sets the
  new nick and then deletes the old one. The maps follow a NICK exactly when the two nicks differ or
  nobody has the nick (`Replay.NickRefinesExactly`, `Replay.SameNickIsLost`).
- A 324 (the server's answer to the MODE line sent with every JOIN of ours) stores its letters as they
  are, so a channel's own mode list may hold a letter twice: "+nn" does it. It happens exactly with
  such a 324 (`Replay.NoChannelModeTwiceExactly`, `Replay.RepeatedModeIsKept`); a nick's list never
  holds one twice.
- A JOIN of ours leaves its channel without a config entry exactly when the name holds a Unicode blank
  and the channel had none before (`ConfigHistory.JoinCoversExactly`, `ConfigHistory.BlankNameIsNotCovered`).
- A handler's config change is published after the client is unlocked. If an old connection's handler
  has yet to publish one when a new connection's handler makes another, they may be published in the
  other order, and the older value stays saved: this can happen exactly when two different changes of
  one field wait at once (`PublishOrder.OverlapExactly`, `PublishOrder.OverlapLosesAChannel`), and
  never within one connection.
- `Publisher.Run` loses the pending event, for some course of events, exactly when it is started with
  one (`Publishing.RunConservesExactly`); `liercd` starts it once, with none.
- The sender's drops may stay unreported after `Stop`, exactly when more Sends are still on their way
  to the queue than it has room for (`Sending.StopReportsExactly`); `Sending.UnreportedDrop` is a run
  from the start that ends so.
- The logger's classification panics on a message without a command, and on one stored by target that
  has no parameters and is not from someone else to us (`Logging.RoutesExactly`), such as a bare
  PRIVMSG (`Logging.PanicsOnBarePrivmsg`).

The design document says that 001 resets the retries
(docs/superpowers/specs/2026-11-02-irc-go-design.md:248); the code resets them only when a
connection that lasted `stableAfter` ends, and the model follows the code.

## Model

| member | source | states |
|---|---|---|
| LifecycleSteps.ReachableInv | pkg/lierc/connection.go:135-346 | every state that any interleaving of connect, dial hooks, end reports, timers, handlers and Destroys reaches satisfies the inductive invariant |
| LifecycleTheorems.LastStatusIsCurrent | pkg/lierc/connection.go:283-301 | in every reachable state where statusMu is free, the last published status is the client's current one |
| LifecycleTheorems.ClosingIsLast | pkg/lierc/client.go:53-56 | once "Closing connection" is published, neither "Connected" nor "Reconnecting in" ever follows it |
| LifecycleTheorems.AttemptsTellInOrder | pkg/lierc/connection.go:221-281 | statuses of one attempt all precede those of the next; an attempt publishes at most "Connected", then its end, then "Reconnecting in", each once and in that order, and an ended attempt has told its end |
| LifecycleTheorems.ReasonIsTold | pkg/lierc/connection.go:241-252 | an attempt that was stopped or given up ends with that reason as its status, the stop reason if both, and has told it once it is over |
| LifecycleTheorems.OneAttemptAtATime | pkg/lierc/connection.go:123-166 | at most one attempt is not over, each done channel is closed exactly once, by its attempt's end, and no attempt joins twice |
| LifecycleTheorems.LateReportChangesNothing | pkg/lierc/connection.go:227-235 | a second report of an attempt's end, already being ended or over, changes no field, no sender and no status and closes nothing, neither in its swap nor in its section |
| LifecycleTheorems.StaleHandlerChangesNothing | pkg/lierc/events.go:454-468 | a handler run for a connection that is no longer the client's changes nothing |
| LifecycleTheorems.NoAttemptAfterFinal | pkg/lierc/connection.go:254-263 | once quitting is set or the client stopped, no continuation starts another attempt, not even from a timer that has fired or a connect that has begun |
| LifecycleTheorems.ReachableFinal | pkg/lierc/client.go:69-72 | the same from every reachable state |
| LifecycleTheorems.DestroyedForGood | pkg/lierc/connection.go:303-346 | from quitting with every attempt over, no continuation has a live attempt, a connected client or a sender |
| LifecycleTheorems.DestroyIsFinal | pkg/lierc/connection.go:303-346 | when a Destroy has returned, no attempt is live, the client is not connected, the sender slot is empty, and all of it stays so |
| LifecycleSockets.OverMeansClosed | pkg/lierc/connection.go:236-252 | no socket is leaked: in every reachable state an attempt that is over has no open socket, so at most the last attempt's is open |
| LifecycleSockets.DestroyClosesAll | pkg/lierc/connection.go:303-346 | when a Destroy has returned, every socket ever opened is closed |
| LifecycleContinues.EndsAreFollowed | pkg/lierc/connection.go:254-281 | in every reachable state of a client that was started and is neither quitting nor stopped, one thread is there to start the next attempt if and only if none was made or the last one has ended or has armed the timer |
| LifecycleContinues.RestsConnectedOrArmed | pkg/lierc/connection.go:221-281 | when no one can move and irc-go owes nothing, such a client has an open connection, or its timer is armed for a time still to come |
| LifecycleTheorems.TotalWaitClosed | pkg/lierc/connection.go:44-50 | n unstable ends add up to retryUnit × n(n+1)/2 of waiting up to 20, and retryUnit × (210 + 20(n − 20)) beyond |
| LifecycleTheorems.BackoffIsWaited | pkg/lierc/connection.go:264-273 | an attempt that starts after n unstable ends starts at least that long after the first of them |
| LifecycleTheorems.ResetNeedsAStableConnection | pkg/lierc/connection.go:264-267 | the retries change only when an attempt's end is decided and the client goes on: to 1 if welcomedAt is set and at least 300 s ago, to one more otherwise |
| LifecycleBackoff.DecidesInNumbers | pkg/lierc/connection.go:264-280 | the whole section in numbers: the retries as above, the timer armed for 15 s for each of them, at most 300 s, "Reconnecting in" that long decided, and no other field changed |
| LifecycleBackoff.ResetsExactly | pkg/lierc/connection.go:264-267 | in terms of the run: the retries go back to 1 if and only if the newest attempt's last 001 was handled at least 300 s before |
| LifecycleBackoff.ArmedIsDueSoon | pkg/lierc/connection.go:268-273 | in every reachable state an armed timer fires within 15 s for each retry counted, and within 300 s |
| LifecycleHistory.FieldIsTheLastWord | pkg/lierc/events.go:63-65 | over every run: welcomedAt is the time of the newest attempt's last 001, gaveUp the reason of its last giveUp, stopped that of the last stop, and each is unset if there was none |
| LifecycleReasons.EndsAreTruthful | pkg/lierc/connection.go:241-252 | over every run, the text of an attempt's end is one that irc-go reported of that attempt, or the reason a handler ended it for |
| LifecycleSetup.RegisteredExactly | pkg/lierc/connection.go:162-190 | in every reachable state the client is registered if and only if its attempt is live and has sent its joins, which a live attempt whose connect has returned has |
| LifecycleSetup.AttachedIsUp | pkg/lierc/connection.go:193-215 | while a socket is attached the client is connected and says "Connected", or "Closing connection" when quitting; its own sender is stored, from the dial hook's store until a report of its end |
| LifecycleSetup.EndedIsClosed | pkg/lierc/events.go:187-203 | once a handler has stopped the client or given its attempt up, that attempt's socket is closed |
| LifecycleSetup.RestsRegisteredOrArmed | pkg/lierc/connection.go:123-281 | when no one can move and irc-go owes nothing, a client that goes on is registered, shows "Connected" and has its sender, or its timer is armed |
| LifecycleSetup.StoppedComesToRest | pkg/lierc/client.go:69-72 | and one that a handler stopped has no connection and no timer, and has told why |
| LifecycleSends.StoredIsRunning | pkg/lierc/connection.go:227-229 | the stored sender is never one that is stopped or being stopped |
| LifecycleSends.SendsReachTheConnection | pkg/lierc/connection.go:359-367 | so while connection k is attached, its sender stored and no end of it reported, anyone's Send goes on to k's queue |
| LifecycleSends.HandlerTellsItsCalls | pkg/lierc/events.go:454-494 | a handler that leaves its section with calls of the sink to make makes them, each in one step of its own, and no lock can stop it |
| LifecycleLocks.ReachableRight | pkg/lierc/sender.go:62-100 | every run with the senders' mutexes, their onces and the sink's calls in between is a run of the lifecycle, and keeps who holds what right |
| LifecycleLocks.UnderTheClientsLock | pkg/lierc/client.go:53-56 | who holds the client's lock never waits for statusMu, for a Stop or for the sink: for a sender's mutex at most |
| LifecycleLocks.MutexIsInnermost | pkg/lierc/sender.go:62-90 | who holds a sender's mutex waits for nothing and holds no other one |
| LifecycleLocks.OnceIsInner | pkg/lierc/sender.go:92-100 | who runs a sender's once holds neither lock of the client and waits for nothing but that sender's mutex |
| LifecycleLocks.SinkIsCalledUnlocked | pkg/lierc/events.go:454-494 | whoever calls the sink with a message, a NICK or QUIT or a config change is a thread that holds no lock at all |
| LifecycleLocks.StatusIsToldUnlocked | pkg/lierc/client.go:21-24 | whoever calls it with a status holds statusMu and no other lock |
| LifecycleLocks.LateStopChangesNothing | pkg/lierc/connection.go:227-229 | the Stop of a late end report finds its sender stopped already, and neither waits nor changes anything |
| LifecycleLocks.NoDeadlockAtAll | pkg/lierc/connection.go:193-346 | when no one can move and irc-go owes no answer, no one waits for any of the locks, and every thread has finished or is a timer not due yet |
| LifecycleLocks.QuittingRunsEndAtAll | pkg/lierc/connection.go:303-346 | after Destroy has taken effect, the moves of any run are bounded by what was left to do and what each new thread, Send and sink call adds |
| LifecycleLocks.DestroyReturnsAtAll | pkg/lierc/connection.go:327-346 | when those moves are used up and irc-go owes no report, every Destroy has returned, from its Stop too, and every attempt is over |
| Connection.IRCClient.Connect | pkg/lierc/connection.go:135-145 | connect's section makes attempt k the client's, with all its per-attempt fields reset, the dial's cancel and the nick requests included, unless quitting, when it changes nothing |
| Connection.IRCClient.OnConnected | pkg/lierc/connection.go:193-215 | the dial hook refuses exactly a stale or quitting client, and otherwise attaches the socket and decides "Connected" |
| Connection.IRCClient.SetUp | pkg/lierc/connection.go:162-190 | a connection is registered and joined if and only if it is still the client's |
| Connection.IRCClient.TakeAttempt | pkg/lierc/connection.go:231-246 | an end takes the attempt only if it is still the client's; its text is the stop reason, else the give-up reason, else the error |
| Connection.IRCClient.UpdateStatus | pkg/lierc/connection.go:284-293 | setStatus's section |
| Connection.IRCClient.ScheduleNext | pkg/lierc/connection.go:256-277 | a quitting or stopped client schedules nothing; any other sets the retries to 1 after a connection that lasted 300 s since 001 and else to one more, arms a new timer for 15 s for each, at most 300, and says so |
| Connection.IRCClient.BeginDestroy | pkg/lierc/connection.go:307-316 | Destroy's section sets quitting and "Closing connection", stops the timer, and takes the current connection, done channel and cancel |
| Connection.QuitStopsTheTimer | pkg/lierc/connection.go:309-316 | so does the transition system's |
| Connection.IRCClient.RunHandler | pkg/lierc/events.go:187-203 | welcome, stop and giveUp set only their field, to the time or the reason, only for the current connection, and say whether its socket is closed |
| Registration.Registrar.NickRefused | pkg/lierc/events.go:131-170 | the in-place handler of 432, 433 and 437 before 001 |
| Registration.RefusedExactly | pkg/lierc/events.go:131-170 | which of four things happens: a stop for the configured nick, giving up (ten tries made, or a cut nick with nothing left), a stop with nothing left to drop, or exactly one more nick sent, with its length and kept characters; and nothing else changes |
| Registration.NotAllowedDropsOne | pkg/lierc/events.go:152-158 | after a 432 the next nick is the refused one, without its last character but the underscores, then one underscore |
| Registration.CutChangesOne | pkg/lierc/events.go:172-183 | after a cut nick the next one differs from the refused one in exactly one place, its last character but the underscores, now an underscore |
| Registration.NextDiffers | pkg/lierc/events.go:150-167 | the next nick is never the refused one |
| Registration.SearchGoesDown | pkg/lierc/events.go:116-183 | against a server that names the sent nick cut to L characters, (trimmed length, room left up to L + 1) strictly goes down on every refusal |
| Registration.SearchEnds | pkg/lierc/events.go:116-183 | so the search ends without the cap, within a bound given by the first nick |
| Registration.SearchNeverRepeats | pkg/lierc/events.go:116-183 | and never asks for the same nick twice |
| Registration.TriedAreBuiltOn | pkg/lierc/events.go:116-127 | every nick tried is a beginning of the first one, followed by underscores only |
| Registration.InUseAppends | pkg/lierc/events.go:119 | while a nick is in use and not cut, the next are me_, me__ and so on |
| Registration.NotAllowedShortens | pkg/lierc/events.go:125-127 | 432 after 432, the nicks tried are nic_, ni_ and so on, each a letter shorter |
| Registration.InUseTradesLetters | pkg/lierc/events.go:119-122 | against a server whose limit is the nick's length, in use every time, they are nick_, nic_, nic__, ni__ and so on |
| Registration.TenInUse | pkg/lierc/events.go:112-148 | in a whole attempt each refusal as in use sends one more nick, up to ten: me_, me__ and so on |
| Registration.UnnamedNeedsTheCap | pkg/lierc/events.go:144-148 | a server whose 433 names no nick would be tried for ever without the cap |
| Registration.AtMostTenFallbacks | pkg/lierc/events.go:112-148 | against any server at all, an attempt sends at most ten fallback nicks |
| Registration.AttemptNeverRepeats | pkg/lierc/events.go:131-170 | a whole attempt against such a server never sends a nick twice, nor the configured one again |
| Registration.StopsExactly | pkg/lierc/events.go:139-157 | the client stops for good exactly on a 432 of the configured nick, or of a fallback with nothing left to drop while tries remain |
| Channels.AddMode | pkg/lierc/channel.go:45-50 | the mode is added, nothing else, and a list without repeats stays one |
| Channels.RemoveModeTakesOne | pkg/lierc/channel.go:52-57 | the mode is taken away once, on any list |
| Channels.RemoveModeRemoves | pkg/lierc/channel.go:52-57 | so on a list without repeats the mode is removed and nothing else |
| Channels.AddThenRemove | pkg/lierc/channel.go:45-57 | removing a mode just added gives the list back |
| Channels.IRCChannel.SetMode | pkg/lierc/channel.go:21-28 | "+" adds, "-" removes, anything else changes nothing |
| Channels.IRCChannel.SetNickMode | pkg/lierc/channel.go:30-39 | likewise for a nick that is there; a nick that is not is not added |
| ClientState.IRCClient.OnJoin | pkg/lierc/events.go:269-294 | the new maps, config and config changes after a JOIN, ours or another's; ours also sends the MODE line and takes user and host from the source |
| ClientState.IRCClient.OnKick | pkg/lierc/events.go:296-312 | likewise for KICK, where the kicked nick is a parameter |
| ClientState.IRCClient.OnPart | pkg/lierc/events.go:314-329 | likewise for PART |
| ClientState.IRCClient.OnQuit | pkg/lierc/events.go:331-342 | the nick leaves every channel, and the channels published are exactly those it was in, without repeats |
| ClientState.IRCClient.OnNick | pkg/lierc/events.go:408-436 | the nick is renamed in every channel, those channels are published without repeats, and the config is saved only for a requested nick |
| ClientState.IRCClient.OnNames | pkg/lierc/events.go:205-228 | the channel's nicks and modes after a 353; a complete list starts afresh |
| ClientState.IRCClient.OnEndOfNames | pkg/lierc/events.go:230-239 | a 366 completes the list |
| ClientState.IRCClient.OnMode | pkg/lierc/events.go:241-267 | the channel after a MODE, with the first letter's action for all and the first nick for all |
| ClientState.IRCClient.OnChannelModes | pkg/lierc/events.go:371-382 | the channel's modes after a 324: its letters after the first character, as they are |
| ClientState.IRCClient.EndNickRequest | pkg/lierc/events.go:103-110 | a refusal ends the request only if it names it, ignoring case |
| ClientState.IRCClient.RequestNick | pkg/lierc/client.go:338-345 | records the requested nick and changes nothing else |
| ClientState.IRCClient.ForgetRequest | pkg/lierc/connection.go:139 | a new attempt starts without one, and nothing else changes |
| ClientState.IRCClient.AddConfigChannel | pkg/lierc/client.go:371-381 | the channel gets an entry unless it has one, and it reports which |
| ClientState.IRCClient.RemoveConfigChannel | pkg/lierc/client.go:383-397 | the channel's entries are dropped, and it reports whether there were any |
| Replay.MapsFollowTheHistory | pkg/lierc/events.go:205-342 | after any history in which NICKs change nicks, the nested maps hold exactly the tracked channels, complete lists and members of a plain relation replayed from it |
| Replay.NickRefinesExactly | pkg/lierc/events.go:410-436 | the maps follow a NICK if and only if the nicks differ or nobody has the nick |
| Replay.SameNickIsLost | pkg/lierc/events.go:428-434 | a NICK to the same nick that loses it |
| Replay.HistoryKeyed | pkg/lierc/events.go:269-282 | every key of Channels is its channel's name lowercased, after any history |
| Replay.PublishedWhereTheNickWas | pkg/lierc/events.go:331-342 | a QUIT or NICK is published to exactly the channels the replayed history has the nick in |
| Replay.NoNickModeTwice | pkg/lierc/channel.go:30-57 | after any history, no nick's mode list holds a mode twice |
| Replay.StepRepeatsExactly | pkg/lierc/events.go:371-382 | an event brings a repeated mode to a channel's own list if and only if it is a 324 for it that repeats a letter |
| Replay.NoChannelModeTwiceExactly | pkg/lierc/channel.go:21-28 | over a history no channel's own list ever holds a mode twice if and only if there is no such 324 in it |
| Replay.RepeatedModeIsKept | pkg/lierc/events.go:371-382 | "+nn" as the input: the list is "nn", and "-n" takes one away |
| ModeChanges.NickModesChange | pkg/lierc/events.go:241-267 | a MODE with a nick gives or takes exactly the letters that are nick modes, as often as it names them, of that nick only |
| ModeChanges.ChannelModesChange | pkg/lierc/events.go:253-264 | a MODE without one gives or takes exactly the letters that are not nick modes, and no nick's; from a list that repeats a letter each "-" takes one |
| ModeChanges.GivenAndTaken | pkg/lierc/events.go:253-264 | a mode given to a nick and then taken back leaves the channel as it was |
| ModeChanges.ModeEventChanges | pkg/lierc/events.go:241-267 | a MODE event of someone for a channel of ours changes exactly those letters' counts, in the nick's list or the channel's, and no other channel, nick or field; any other MODE changes nothing |
| ModeChanges.GivenAndTakenBack | pkg/lierc/events.go:241-267 | the event that gives a nick a mode adds it to its list, and the event that takes it back restores the client |
| MemberModes.ModesFollowTheEvent | pkg/lierc/events.go:205-436 | the modes of one nick in one channel after any event but a MODE: those of its last entry in a list, none after a JOIN, those of its old nick after a NICK, else the same; and when it is not there |
| MemberModes.ChannelFollowsTheEvent | pkg/lierc/events.go:205-382 | a channel's name, modes and completeness after any event but a MODE, and when it is tracked |
| MemberModes.RenamedAndBack | pkg/lierc/events.go:408-436 | a NICK and the NICK back leave every channel as it was, modes included, if nobody had the other nick |
| MemberModes.CaseOfTheNameIsIgnored | pkg/lierc/events.go:205-382 | the capitals in a channel's name make no difference to what a message does, but for the spelling our own JOIN keeps |
| Text.FoldsExactly | pkg/lierc/events.go:103-110 | two strings are equal when folded if and only if they differ in nothing but the case of ASCII letters |
| ConfigHistory.WithoutKeepsTheRest | pkg/lierc/client.go:383-397 | removal leaves no entry for the name and keeps every other entry, its key included, in order |
| ConfigHistory.ChangesRebuildTheConfig | pkg/lierc/client.go:347-360 | merging all config changes in the order the handlers made them into the first config gives the client's config, after any history |
| PublishOrder.InOrderRunsRebuild | pkg/lierc/events.go:454-494 | with handling and publishing apart: if each field's changes are published in the order they were made, the saved config with what waits is the client's at every point of any run, so with nothing waiting the saved one is |
| PublishOrder.OneConnectionIsInOrder | pkg/lierc/connection.go:173-179 | within one connection, whose handlers publish before the next runs, they always are |
| PublishOrder.PublishKeeps | pkg/lierc/events.go:487-494 | a change published before others that wait does no harm if none of its field is older, or only the same |
| PublishOrder.OverlapExactly | pkg/lierc/events.go:454-494 | whatever order what waits is published in, the saved config becomes the client's, if and only if no two different changes of one field wait |
| PublishOrder.AgreeingRunsRebuild | pkg/lierc/events.go:454-494 | a run in which no two different changes of one field ever wait at once rebuilds the config, in whatever order they are published |
| PublishOrder.OverlapLosesAChannel | pkg/lierc/events.go:454-494 | an interleaving of two connections after which the saved channels lack one |
| ConfigHistory.RetriesAreHarmless | pkg/logger/logger.go:251-273 | merging any change again, any number of times, before the next one saves the same config |
| ConfigHistory.SavedIsTheLastAccepted | pkg/lierc/client.go:347-360 | when only some changes get through, in order, each saved field is the live one as it was at its last change that did |
| ConfigHistory.JoinCoversExactly | pkg/lierc/client.go:362-381 | a JOIN of ours leaves its channel with a config entry if and only if it had one or its name holds no Unicode blank |
| ConfigHistory.StepCoversExactly | pkg/lierc/events.go:269-329 | an event leaves every tracked channel with an entry, if each had one, if and only if it is no JOIN of ours of the other kind |
| ConfigHistory.BlankNameIsNotCovered | pkg/lierc/client.go:362-381 | a name with a space, and one with an ideographic space (U+3000), that leave it without one |
| ConfigHistory.HistoryCoversExactly | pkg/lierc/events.go:269-329 | over a whole history every tracked channel always has a config entry if and only if there is no such JOIN in it |
| ConfigHistory.EntryFollowsOurJoins | pkg/lierc/events.go:269-329 | over a history of such JOINs, the config has an entry for a channel, and the channel is tracked, as our last JOIN or leaving of it says, or as at the start if there is none |
| ConfigHistory.KeyIsKept | pkg/lierc/client.go:362-397 | an entry with a key is its channel's: a JOIN of it adds no other, and our PART removes it |
| ConfigHistory.Rejoin | pkg/lierc/client.go:194-201 | Join sends one JOIN for each non-empty entry, in order |
| ConfigHistory.JoinsInOrder | pkg/lierc/client.go:194-201 | without empty entries that is one line for each, the i-th for the i-th |
| ConfigHistory.EmptyJoinsNothing | pkg/lierc/client.go:194-201 | and an empty entry makes no difference |
| ConfigHistory.RejoinsEveryTrackedChannel | pkg/lierc/client.go:194-201 | so after a reconnect every tracked channel is asked for, with its key |
| NickHistory.RequestIsTheOpenOne | pkg/lierc/events.go:73-110 | the client's requested nick is that of the request not yet ended by an attempt, another request, its refusal or its taking |
| NickHistory.SavedExactlyWhenAskedFor | pkg/lierc/events.go:410-427 | a NICK is saved if and only if it is our own, to a nick that equals, ignoring case, one whose request is open |
| NickHistory.NickChangesOnlyBySaving | pkg/lierc/events.go:410-427 | the config's nick changes only then, to the server's spelling |
| NickHistory.EachRequestSavedOnce | pkg/lierc/events.go:410-427 | two saves come from two requests, the later made after the earlier save |
| NamesList.ListIsWhatTheServerSent | pkg/lierc/events.go:205-239 | from a synced channel, one or more 353s, with any spaces between and around the entries, and a 366 leave exactly the listed nicks with their modes, whatever was there before, and nothing else changed; given distinct PREFIX symbols and modes, at most one prefix per entry, and nicks that are not empty and start with no symbol |
| NamesList.NicksWithPrefix | pkg/lierc/client.go:242-249 | one printed name for each nick of the map, whatever its order |
| NamesList.HighestIsPrinted | pkg/lierc/client.go:255-264 | the printed prefix is the first of the server's whose mode the nick has, and there is none if and only if it has none of them |
| NamesList.GivenPrefixIsPrinted | pkg/lierc/events.go:241-267 | after a MODE that gives a nick a prefix's mode, it is printed with the higher of that prefix and the one it had |
| NamesList.PrintsBackTheList | pkg/lierc/client.go:255-273 | printing what was read gives back exactly the server's entries, each once, given also that each nick is listed once |
| NamesList.NamesRoundTrip | pkg/lierc/events.go:205-239 | the whole round trip through the handlers and back, with the prefixes that the server's ISUPPORT gives |
| NamesList.JoinedNamesRoundTrip | pkg/lierc/events.go:205-239 | the same for lines that are the entries with single spaces between them, when no entry holds a space |
| Isupport.UsesTheAdvertised | pkg/lierc/isupport.go:5-16 | the client's prefixes are those the server's PREFIX prints, and the default ones if it is missing or malformed |
| Isupport.ReadPrefix | pkg/lierc/isupport.go:18-33 | the loop that pairs the symbols with the modes |
| Isupport.AcceptsExactlyTheWellFormed | pkg/lierc/isupport.go:18-33 | exactly the values "(modes)symbols" with as many of each, at least one, and no ")" in the modes are taken |
| Isupport.PrintUndoesParse | pkg/lierc/isupport.go:18-33 | printing the parsed pairs gives the value back |
| Isupport.ParseUndoesPrint | pkg/lierc/isupport.go:18-33 | parsing printed pairs gives the pairs back |
| Isupport.IsupportTokens | pkg/lierc/isupport.go:37-49 | a token for each key of the map, once, in whatever order |
| Isupport.UnescapeEscape | pkg/lierc/isupport.go:35 | decoding \x5C, \x20 and \x3D undoes the escaper, for every value |
| Isupport.DecodesExactly | pkg/lierc/isupport.go:37-49 | a token decodes to its key and value if and only if the key holds no "=" |
| Isupport.TokensRoundTrip | pkg/lierc/isupport.go:37-49 | decoding the tokens gives the map back when no key holds a "=" |
| Isupport.TokensArePlain | pkg/lierc/isupport.go:37-49 | no token holds a space when no key does |
| ReadTracking.TrackedConn.Record | pkg/lierc/connection.go:400-406 | the first error is kept, later ones are not |
| ReadTracking.TrackedConn.Read | pkg/lierc/connection.go:414-428 | the pending count and first error after a read of any bytes, with or without an error |
| ReadTracking.TrackedConn.Write | pkg/lierc/connection.go:430-436 | a write records its error and leaves the count alone |
| ReadTracking.PendingCountsTheStream | pkg/lierc/connection.go:414-420 | however the stream is cut into reads, pending is the number of bytes after its last newline |
| ReadTracking.SinceNewlineCounts | pkg/lierc/connection.go:393-398 | that number is of bytes without a newline, right after one or from the start |
| ReadTracking.CuttingDoesNotMatter | pkg/lierc/connection.go:414-420 | two ways of cutting one stream end with the same count |
| ReadTracking.FirstIsWrittenOnce | pkg/lierc/connection.go:400-406 | a recorded error never changes |
| ReadTracking.FirstIsTheFirst | pkg/lierc/connection.go:388-436 | the recorded error is that of the first event with one |
| ReadTracking.NoErrorExactly | pkg/lierc/connection.go:388-436 | there is none if and only if no read or write failed and no read reached the limit |
| ReadTracking.ReadQExactly | pkg/lierc/connection.go:421-423 | it is ErrReadQ if and only if a read ended with the limit reached before any error |
| ReadTracking.ShortLinesAreNoError | pkg/lierc/connection.go:36-42 | a stream whose lines all stay within the limit is never taken for one with a line too long |
| Publishing.Publisher.Enqueue | pkg/liercd/publisher.go:45-57 | an event is queued, or dropped when the queue is full; one that cannot be encoded changes nothing |
| Publishing.Publisher.Publish | pkg/liercd/publisher.go:99-120 | what it does over any events is the specified run: it tries until nsqd takes the event or the context ends, whatever else happens meanwhile |
| Publishing.Publisher.Run | pkg/liercd/publisher.go:60-73 | its run over any events is the specified one, and it keeps the event in hand as pending |
| Publishing.Publisher.Flush | pkg/liercd/publisher.go:75-97 | likewise, first the pending event and then the queue |
| Publishing.AlwaysConserved | pkg/liercd/publisher.go:60-120 | at every step of Enqueue, Run and Flush: accepted events = published, then the one in hand or pending, then the queue |
| Publishing.RunConservesExactly | pkg/liercd/publisher.go:62-73 | Run conserves them over every course of events if and only if it starts with nothing pending |
| Publishing.FlushCounts | pkg/liercd/publisher.go:75-97 | Flush's result is accepted minus published, and what is left is the pending event and the queue |
| Publishing.WholeLife | pkg/liercd/publisher.go:60-97 | over Run and then Flush, what is published is a prefix of what was accepted and the result is the rest's length |
| Publishing.FlushPublishesAll | pkg/liercd/publisher.go:75-97 | while nothing arrives and the context does not end, whatever nsqd answers, Flush returns nothing but 0, and only with everything accepted published, the pending event first |
| Publishing.FlushReturns | pkg/liercd/publisher.go:75-97 | and once nsqd has taken as many events as were left, all are published and Flush has returned, or does at its next look at the queue |
| PublishingProgress.TriedUntilTaken | pkg/liercd/publisher.go:99-120 | an event in hand is published, next and once, by nsqd's first yes after any number of refusals, each followed by the interval, with arrivals anywhere between |
| PublishingProgress.NotBeforeTheInterval | pkg/liercd/publisher.go:113-118 | after a refusal nothing is published until the interval has passed |
| PublishingProgress.RunPublishesAll | pkg/liercd/publisher.go:60-73 | while Run runs, over any arrivals and refusals: once there have been as many chances (the interval, a look at the queue, a yes) as events were left, all accepted before are published, in order |
| PublishingProgress.FlushPublishesAllInTime | pkg/liercd/publisher.go:75-97 | and so with Flush, which has then returned 0 or does at its next look, if nothing arrived |
| PublishingProgress.ContextEndsRun | pkg/liercd/publisher.go:62-73 | when the context ends Run returns, from a publish at the next refusal, with the event in hand pending and nothing lost |
| PublishingProgress.ContextEndsFlush | pkg/liercd/publisher.go:75-97 | and Flush from a publish likewise, with the number of events left |
| Publishing.ArrivalsAreAcceptedOrDropped | pkg/liercd/publisher.go:45-57 | every arrival is accepted or dropped, and without a drop all are accepted in order |
| Publishing.DroppedExactlyWhenFull | pkg/liercd/publisher.go:52-57 | an arrival is dropped if and only if the queue is full |
| Sending.Sender.Send | pkg/lierc/sender.go:62-81 | a Send is accepted if and only if the sender is not stopped and the queue is not full |
| Sending.Sender.Enqueue | pkg/lierc/sender.go:68-81 | the part under the mutex, after anything else has happened |
| Sending.Sender.ReportDropped | pkg/lierc/sender.go:83-90 | the drops are logged and counted afresh |
| Sending.Sender.Stop | pkg/lierc/sender.go:92-100 | cancels, then logs, once |
| Sending.Sender.Run | pkg/lierc/sender.go:46-60 | the draining goroutine's run over any events is the specified one |
| Sending.AlwaysOrderedAndCounted | pkg/lierc/sender.go:46-90 | in every run: accepted lines = handed over, at most one in hand, then the queue, in order; reported drops plus current ones = lines refused for a full queue; and the two log lines strictly alternate |
| Sending.DroppedExactlyAt256 | pkg/lierc/sender.go:62-81 | in every run a Send that has found the sender running is queued if fewer than 256 lines wait, and else dropped and counted |
| Sending.DropsAreReported | pkg/lierc/sender.go:83-90 | right after a Send is accepted, and after Stop's last line, every line dropped so far is reported |
| Sending.HandsOverAll | pkg/lierc/sender.go:46-60 | until the stop, whatever is sent meanwhile: once there have been as many chances (a look at the queue, and the limiter's leave) as lines were left, all accepted before are handed over, in order |
| Sending.FirstStopReports | pkg/lierc/sender.go:92-100 | the first Stop, whatever comes between its cancel and its last line, leaves every drop until then reported, and another changes nothing |
| Sending.StopEndsTheGoroutine | pkg/lierc/sender.go:46-60 | after Stop the draining goroutine ends at its next look at the context, and hands nothing over from then on |
| Sending.SendAfterStopIsRefused | pkg/lierc/sender.go:62-67 | a Send that starts after Stop changes nothing |
| Sending.StoppedForGood | pkg/lierc/sender.go:92-100 | after the stop, only Sends that began before it are accepted or dropped, each once |
| Sending.HandsOverNoMore | pkg/lierc/sender.go:46-60 | after the stop, no line is handed over but the one that was in hand |
| Sending.StopReportsExactly | pkg/lierc/sender.go:83-100 | after Stop every drop stays reported if and only if the queue has room for the Sends that began before it |
| Sending.UnreportedDrop | pkg/lierc/sender.go:62-100 | a run from the start, of 256 Sends, one more that begins before Stop and enters after it, whose drop no later event reports |
| Logging.RoutesExactly | pkg/logger/classify.go:45-116 | exactly the messages on which the classification asks for a character or parameter that is not there |
| Logging.PanicsOnBarePrivmsg | pkg/logger/classify.go:104-116 | one of them |
| Logging.KindsOfRoutes | pkg/logger/classify.go:45-116 | exactly which messages are stored by target, stored as status, skipped and passed on, which are private, and under what channel each is stored |
| Logging.Store.InsertMessage | pkg/logger/store.go:38-63 | one row with a later id, the connection's user and the upper-cased command; no row for a missing connection, nothing on an error |
| Logging.Store.InsertMessages | pkg/logger/store.go:65-108 | all the rows in order with growing ids, other inserts between them or not, or none; the result is the last id |
| Logging.Store.InsertPrivate | pkg/logger/store.go:110-119 | the conversation's time is set, or nothing on an error |
| Logging.Logger.PublishLogged | pkg/logger/logger.go:275-293 | one message to "logged", and one to "highlight" exactly for a highlight or a direct message from someone else |
| Logging.Logger.HandleChat | pkg/logger/logger.go:176-222 | the store and the publications after one delivery, with every early return |
| Logging.Logger.HandleMulti | pkg/logger/logger.go:224-249 | likewise for NICK and QUIT |
| Logging.FailsExactly | pkg/logger/logger.go:176-249 | a delivery ends in an error if and only if a store call it makes fails, and then it has stored no row and published nothing |
| Logging.UnstoredIsPassedOn | pkg/logger/logger.go:186-196 | a message that is not stored is published once on "logged" with no id, and on "highlight" if it is direct and from someone else; a NICK or QUIT among the chats is not |
| Logging.ChatIsLoggedOnce | pkg/logger/logger.go:176-222 | after any failures and a success: one row if the connection exists and none if not, one publication with that id, and the private conversation recorded as if once |
| Logging.MultiIsLoggedOnce | pkg/logger/logger.go:224-249 | likewise with one row for each channel in order, and the last one's id |
| Logging.NothingPublishedWhileFailing | pkg/logger/logger.go:275-277 | as long as deliveries fail, nothing is stored in the log and nothing is published |
| Logging.HandledTwiceIsStoredTwice | pkg/logger/logger.go:275-277 | a message handled and delivered again all the same is stored twice, so the error return is what the guarantee rests on |
| Logging.EveryDeliveryTies | pkg/logger/logger.go:176-293 | any delivery adds its rows and its publications together: rows of its message with growing ids, and publications of it with the last row's id, or 0 without rows |
| Logging.IdsAlwaysGrow | pkg/logger/store.go:65-108 | over any messages and deliveries ids are positive and grow from row to row |
| Logging.EveryRowIsPublished | pkg/logger/logger.go:176-293 | over any messages and deliveries each row's message has been published by the delivery that stored it, with the id of that delivery's last row |

## Left out

- irc-go, sockets, TLS and dialing: an environment that calls the dial hook, hands over messages, and
  reports an attempt's end any number of times. It reports attempt k only after its dial has
  returned; for progress it answers every call, and reports the end of a connection whose socket is
  closed.
- `cancelDial` and `conn.Quit`: a dial may fail at any time and a server may end a connection at any
  time, so what they bring about is always possible.
- Publishing a status, releasing statusMu and, in the dial hook, returning are one step; so are, in
  Send, loading the sender and checking whether it is stopped. The locks inside irc-go, and the read
  locks of the API's getters, are not modelled.
- The raw callback's section (`annotate`) is one of a handler that changes nothing; its call of the sink
  is the Message of that.
- Real time: seconds are counted by an environment's ticks. The rate limiter is assumed; a wait may end
  at any time, but fails when the sender was stopped before it began.
- Unicode case folding: letters are folded as ASCII. Invalid UTF-8 is not modelled. MODE letters, NAMES symbols and PREFIX values are characters here, bytes in
  the code.
- Topics (332, 333, TOPIC) and the VERSION check of PRIVMSG: they touch no field that the model has.
- Agreement of channel modes with the server: the handler applies one action to all letters and only the
  first nick, and the model does the same.
- `Message` and `Direct`/`Self` annotation, echoed messages, CAP and SASL, `ClientData`.
- `pkg/liercd/manager.go`, the HTTP API, `cmd`, environment variables, the text of log lines, identd and
  the dial guard.
- `pkg/notify`: mail and push, with their timers and database.
- Postgres, NSQ and JSON: a store call happens as a whole or fails with nothing done; the
  logger can always encode a message; nsqd's limit on redeliveries and its reordering of messages are not
  modelled. Letters of commands are upper-cased as ASCII.
- `Prefix` of a logged message is taken to be there, as liercd always sends it.
- The highlight match: whether a message is a highlight is an input of each delivery.
- A publisher with a queue of size 0, on which Go's channels hand over directly.
