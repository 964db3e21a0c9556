# A verified model of the mailcow watchdog

The watchdog runs one loop per check. Each loop waits at a pause gate, probes its
service, charges the failures to an error budget, sleeps, and raises an event when
the budget is spent. One handler takes the events from a bounded channel and
restarts containers or notifies; one watcher pauses everything while the dockerapi
is unreachable. This project models that protocol in Dafny and proves what holds
over every interleaving, together with the pieces the protocol is made of.

`dafny verify dfyconfig.toml` checks everything. Durations are nanoseconds, integers
are unbounded, characters are Unicode code points.

| file | content |
|---|---|
| `health.dfy` | the error tracker as a class; what its count means over whole histories; the percentage |
| `gates.dfy` | the pause gate as a class over channels, and every history of its calls |
| `checks.dfy` | sleep windows, probe costs, the bounded transcript, one round |
| `runners.dfy` | one check's loop as a step system: budget, pace, what a pause and a shutdown leave it |
| `runnerloop.dfy` | the same loop as the program has it, on a real tracker, proved to take exactly the steps of `runners.dfy` |
| `restarts.dfy` | restarting containers against a daemon that answers in time but restarts in its own time |
| `holders.dfy` | the watcher's loop and the restart on a real gate and real trackers |
| `protocol.dfy` | all goroutines together: state, steps, and the invariants |
| `supervision.dfy` | events, budget, pace and pauses over every run; the runs in which a tempting claim fails |
| `handling.dfy` | what the steps of a run add up to: restarts, outages and histories |
| `pauses.dfy` | what can still happen while the gate is closed, and when one slot per check is enough |
| `blocking.dfy` | when one channel slot per check keeps every check from blocking |
| `liveness.dfy` | fair runs: events get handled, waiting senders get in, a closed gate opens |
| `shutdown.dfy` | cancellation: nobody is stuck, the work runs out, everything stops |
| `bans.dfy` | ban notices from the Redis hash to the operator |
| `throttle.dfy` | the notification throttle over every history of alerts |
| `webhook.dfy` | template expansion and the JSON text it produces (section 7 of RFC 8259) |
| `smtp.dfy` | the SMTP and LMTP conversation, as a table of steps and as the code that plays it |
| `banner.dfy` | reading a banner in chunks |
| `newlines.dfy` | line endings of a mail body |
| `wrappers.dfy` | the Option datatype |

In `protocol.dfy` a run is an initial state and a sequence of steps; each step is one
atomic action of one goroutine (a mutex section, a channel operation, the end of a
sleep or of a call), of the clock, or the cancellation of the context. Verdicts of
probes, replies of docker and of the network, picks from a sleep window and the choice
of a ready `select` case are arbitrary. A sleep that the handler or the watcher begins
after cancellation fails; for the runners nothing of the kind is assumed.

## Where the code does less than a reader might think

* `internal/supervisor/supervisor.go:130` says one channel slot per check is enough. With
  an open gate it never is, however many checks there are and whatever their thresholds;
  with a closed gate it is exactly when the queue and the checks that can still raise an
  event fit together: `Blocking.OneSlotSufficesExactlyWhen`. No sender stays blocked for
  ever all the same: `Liveness.SenderIsReleased`.
* The gate is a flag. `Supervision.OutageDoesNotImplyPaused` is a run in which the
  checks go on during an outage; `Supervision.ClosedExactlyWhen` says exactly when the
  gate is closed, and `Liveness.GateReopens` that it opens again while the dockerapi answers.
* A heal can reverse the order of two counts; `Health.HealKeepsOrderExactlyWhen`.
* The minimum uptime does not always keep two restarts of a container apart. A call is
  given up after ten seconds (`internal/dockerapi/dockerapi.go:38`), and a restart that
  takes effect later than that can be missed by the next event:
  `Restarts.RestartedTwice`. `Restarts.SeparationExactlyWhen` says how late is too late,
  `Restarts.SeparatesExactlyWhen` which listing is good enough.
* One notice per ban needs a threshold of one and a handler that takes each event before
  the next round, and nothing else (`Bans.OneNoticeExactlyWhen`); a read that fails right
  after a round with new bans repeats them (`Bans.NoticesAreDueExactlyWhen`).
* A placeholder outside a string literal lets some subject break the webhook body;
  `Webhook.StructureIsKeptExactlyWhen`.

## Model

| member | source | states |
|---|---|---|
| Supervision.EventsConserved | internal/supervisor/supervisor.go:132-192 | Over every run: all events ever sent are those handled, then the one in hand, then the queue, in order; the queue never exceeds one slot per check; only dead snapshots are sent; every recorded death is reported or about to be, except one of a cancelled runner that stopped |
| Supervision.EventsArePaidFor | internal/supervisor/runner.go:95-118 | For every interleaving of rounds, heals and resets: events times threshold is at most the failing weight recorded, rounds start below the threshold, and the count stays within one round's weight of it |
| Supervision.EventsAreSpaced | internal/supervisor/runner.go:101-124 | Two events of one check are at least (rounds needed - 1) interval minimums plus the dead delay apart |
| Supervision.EveryRecoveryHealsEveryCheck | internal/supervisor/supervisor.go:407-441 | Whenever the watcher is not in the middle of healing, each check has been healed exactly once per recovery |
| Supervision.NoStuckPause | internal/supervisor/supervisor.go:307-311 | In every reachable state a closed gate means a restart or an outage is holding it, overlaps included |
| Supervision.ClosedExactlyWhen | internal/supervisor/supervisor.go:393-430 | In every state of every run the gate is closed exactly when a restart or an outage is on, unless the other of the two has ended meanwhile and not begun again |
| Supervision.PausedExactlyWhenHeld | internal/supervisor/supervisor.go:307-338 | In runs where restarts and outages never overlap the gate is closed exactly while one of them is on |
| Supervision.OutageDoesNotImplyPaused | internal/supervisor/supervisor.go:310-311 | A run that ends with the outage held and the gate open |
| Handling.EveryMatchGetsItsTurn | internal/supervisor/supervisor.go:323-338 | In every run: after a lookup that matched m containers the restart can end when, and only when, exactly m of them have had their turn; until then it holds the gate with the same event in hand |
| Handling.PauseComesFirst | internal/supervisor/supervisor.go:310-318 | In every run nothing is looked up before the checks have been paused for ten seconds |
| Handling.NoRestartIsSkipped | internal/supervisor/supervisor.go:316-323 | Before the context is cancelled no restart ends without a lookup |
| Handling.BrakeEndsExactlyWhen | internal/supervisor/supervisor.go:316-318 | The handler's pause can end in full exactly when ten seconds have passed, never if begun after cancellation |
| Handling.PollEndsExactlyWhen | internal/supervisor/supervisor.go:397-402 | So with the watcher's three seconds between two looks |
| Handling.OutageExactlyWhen | internal/supervisor/supervisor.go:404-419 | In every run an outage holds the gate exactly while the watcher's last look failed to reach the dockerapi |
| Handling.RestartExactlyWhen | internal/supervisor/supervisor.go:255-259 | In every run a restart holds the gate exactly from acting on an event of a check that restarts its container to the release that ends it |
| Handling.HistoriesAreTrue | internal/supervisor/runner.go:89-127 | The numbers of rounds, events, weight, recoveries and heals the other rows speak of are those of the run's own steps |
| Handling.HealNextRepays | internal/supervisor/supervisor.go:437-441 | A recovery repays two points to each check that owes more than one, and touches nothing else |
| Blocking.OneSlotSufficesExactlyWhen | internal/supervisor/supervisor.go:130-132 | In every uncancelled state of every run, no order of events blocks a sender before the gate next moves if and only if the gate is closed and the queue and the checks that can still raise an event fit into the channel; with an open gate one long call of an otherwise prompt handler is enough |
| Blocking.OneSlotPerCheckCanFill | internal/supervisor/supervisor.go:130-132 | From every uncancelled start, with any number of checks and any thresholds, a check blocks on a full channel during one long call of the handler |
| Liveness.EveryEventIsHandled | internal/supervisor/supervisor.go:183-192 | In a fair uncancelled run every event ever put into the channel is handled in the end, in its place |
| Liveness.SenderIsReleased | internal/supervisor/runner.go:122-127 | In such a run a check waiting at a channel that serves its senders gets its event in |
| Liveness.EveryDeathIsHandled | internal/supervisor/runner.go:112-127 | If the runner is scheduled fairly too, a death recorded in a round is raised and handled in the end, with that round's snapshot |
| Liveness.GateReopens | internal/supervisor/supervisor.go:307-311 | In such a run a closed gate opens again, overlaps included, if the dockerapi is found reachable again and again |
| Pauses.PauseQuietens | internal/supervisor/gate.go:31-83 | While the gate stays closed a runner starts at most one round, only if it had captured the open gate, and raises at most one event, none if it waited |
| Pauses.BufferSufficesExactlyWhen | internal/supervisor/supervisor.go:130-132 | From a state with a closed gate, no sender can come to block before the gate opens if and only if the queue and the runners that can still raise an event fit into the channel together |
| Pauses.EmptyQueueSuffices | internal/supervisor/supervisor.go:130-132 | With nothing queued when the gate closed, no sender blocks until it opens |
| Shutdown.NobodyIsStuck | internal/supervisor/runner.go:89-127 | In every cancelled reachable state each goroutine that has not ended has a step it can take at once |
| Shutdown.WorkShrinks | internal/supervisor/supervisor.go:155-192 | After cancellation every step but the passing of time lowers a well-founded measure |
| Shutdown.WorkRunsOut | internal/supervisor/supervisor.go:155-192 | Every infinite run from a cancelled state does only finitely much work |
| Shutdown.ShutdownCompletes | internal/supervisor/supervisor.go:155-180 | Every cancelled run that keeps making progress reaches a state where all goroutines have ended |
| Shutdown.LastWords | internal/supervisor/runner.go:85-129 | After cancellation each runner starts at most one more round and raises at most one more event |
| Runners.AccountedKept | internal/supervisor/runner.go:95-126 | Every step of a runner keeps the account of deaths, count and recorded weight |
| Runners.PacedKept | internal/supervisor/runner.go:101-124 | Every step of a runner keeps the lower bound on the time its rounds have taken |
| Runners.DebtMove | internal/supervisor/runner.go:112-127 | A recorded death stays owed until its event is sent, or the runner stops on a cancelled context |
| Runners.WayOut | internal/supervisor/runner.go:89-127 | The step a cancelled runner can take wherever it stands, whatever the gate and the channel |
| Runners.SleepEndsExactlyWhen | internal/supervisor/gate.go:101-116 | A sleep of any picked delay can end in full at any later time exactly when that delay has passed |
| Runners.MinRoundsIsLeast | internal/supervisor/runner.go:132-137 | The rounds the spacing counts on are the fewest that can spend the budget |
| RunnerLoop.Loop.Run | internal/supervisor/runner.go:85-129 | In every world the loop stands at every moment exactly where that world puts it, has made exactly the calls of its tracker due by then although others heal it, and ends only by stopping |
| RunnerLoop.Loop.WorldDecides | internal/supervisor/runner.go:85-129 | Where the loop stands is a function of the world and the moment |
| RunnerLoop.MovesExactlyWhen | internal/supervisor/runner.go:89-127 | A move is allowed by the step system if and only if the loop makes it at some moment that looks like that |
| RunnerLoop.WaitsExactlyWhen | internal/supervisor/runner.go:89-127 | The loop lets a moment pass exactly when no move is possible |
| RunnerLoop.AlwaysAccounted | internal/supervisor/runner.go:95-126 | The account of deaths, count and weight holds at every moment of the loop |
| RunnerLoop.Loop.Wait | internal/supervisor/gate.go:71-83 | The channel is captured first; it passes at the first moment that channel is closed, gives up at the first with the context done, of both cases either, and goes on waiting otherwise; both are said of the world's own moments |
| RunnerLoop.Loop.Sleep | internal/supervisor/gate.go:101-116 | It sleeps until the first moment whose clock is at least the delay past the first, or with the context done; then the reset follows after a dead round and the gate otherwise |
| RunnerLoop.Loop.Raise | internal/supervisor/runner.go:122-127 | The event is sent at the first moment with room, or dropped on cancellation |
| Holders.WatchDockerAPI | internal/supervisor/supervisor.go:393-420 | With restarts using the gate and checks their trackers at the same time: the gate ends as those calls and the watcher's own leave it, one call for each change of reachability and a resume at the end of an unfinished outage, and every tracker is healed once per recovery |
| Holders.PausesAreReturned | internal/supervisor/supervisor.go:396-420 | The watcher's calls alternate, one pair for each recovery, and when it ends no pause of its own is left |
| Holders.ClosedExactlyWhenUnreachable | internal/supervisor/supervisor.go:404-419 | With nobody else using the gate it is closed after any turns exactly when the last look failed, and open when the watcher has ended |
| Holders.RestartPaused | internal/supervisor/supervisor.go:307-338 | However a restart ends and whatever the watcher asked of the gate meanwhile, the gate is open afterwards |
| Health.Tracker.constructor | internal/health/health.go:88-93 | A tracker starts with a full budget of at least one |
| Health.Tracker.Record | internal/health/health.go:104-122 | A failing round adds its weight, a clean one repays a point, and the snapshot shows the new state and the change |
| Health.Tracker.Heal | internal/health/health.go:130-144 | Points are repaid down to zero, a single outstanding point excepted |
| Health.Tracker.Reset | internal/health/health.go:149-153 | The count is cleared |
| Health.HealAll | internal/supervisor/supervisor.go:437-441 | Every tracker is healed exactly once, nothing else happens to it |
| Health.HealRepays | internal/health/health.go:130-144 | After any history a heal repays the smaller of its points and the count, but nothing of a single point |
| Health.TwoHealsAreOneExactlyWhen | internal/health/health.go:137-142 | When two heals amount to one of both sizes, and when not |
| Health.ResetForgets | internal/health/health.go:149-153 | What came before a reset makes no difference after it |
| Health.FailuresToDeath | internal/health/health.go:85-93 | At one point a round a check dies at the threshold-th round, at the first if the threshold is below one |
| Health.SnapshotTells | internal/health/health.go:163-175 | What remaining, trend and percent of any call's snapshot are, in terms of the history |
| Health.DeadIsBudgetSpent | internal/health/health.go:71-71 | A snapshot is dead exactly when the count has reached the threshold |
| Health.CountIsMaxSuffix | internal/health/health.go:104-122 | The count is the largest net cost of a stretch of rounds ending now |
| Health.DiesExactlyWhen | internal/health/health.go:104-122 | A check dies at a round exactly when some stretch ending there nets at least the threshold |
| Health.HealsNeverHasten | internal/health/health.go:130-153 | At every point of every history the count is at most what it would be without the heals |
| Health.HealKeepsOrderExactlyWhen | internal/health/health.go:137-142 | When a heal keeps the order of two counts, and when not |
| Health.PercentRoundsHalfUp | internal/health/health.go:186-194 | The two truncating divisions are the floor of (200c + t) / (2t) |
| Health.PercentInRange | internal/health/health.go:186-194 | The percentage lies in 0 to 100, never falls as health rises, and is 100 at full health |
| Health.PercentZeroExactlyWhen | internal/health/health.go:186-194 | Zero percent exactly below half a percent of health |
| Health.PercentComplement | internal/health/health.go:186-194 | A level and its complement read 100 together, or 101 exactly on a tie |
| Health.PercentDistinguishesExactlyWhen | internal/health/health.go:186-194 | Every lost point changes the percentage exactly for thresholds up to 100 |
| Gates.Gate.constructor | internal/supervisor/gate.go:25-29 | A new gate is open |
| Gates.Gate.Pause | internal/supervisor/gate.go:33-43 | A closed gate stays as it is, an open one gets a fresh open channel |
| Gates.Gate.Resume | internal/supervisor/gate.go:46-56 | The current channel is closed, unless it already is |
| Gates.Gate.IsPaused | internal/supervisor/gate.go:59-69 | Paused exactly when the current channel is not closed |
| Gates.Gate.Capture | internal/supervisor/gate.go:72-75 | A waiter keeps the channel current at that moment |
| Gates.Generations | internal/supervisor/gate.go:33-56 | After any calls all superseded generations are closed, and the gate is paused exactly when the last call was Pause |
| Gates.WaiterPassesExactlyWhen | internal/supervisor/gate.go:72-83 | A waiter passes exactly if the gate was open at capture or some Resume came since |
| Gates.ClosedOnce | internal/supervisor/gate.go:46-56 | No channel is closed twice over any calls |
| Checks.Pick | internal/check/check.go:34-41 | A pick lies in its window |
| Checks.PausesAreBounded | internal/check/registry.go:93-103 | For every configured bound exactly which pauses each window allows: never below that bound, the check's own minimum, or the original cadence |
| Checks.ProbeCost | internal/probe/probe.go:72-125 | A result costs nothing exactly when OK, at most three points, its wrapper's price on failure, and three on a panic |
| Checks.SeverityCounts | internal/health/health.go:15-33 | Round for round CRITICAL counts twice and UNKNOWN three times as much as WARNING, which counts one |
| Checks.Check.Record | internal/check/check.go:82-95 | The transcript is always the last fifty of all non-empty lines recorded |
| Checks.OnlyEmptyLinesAreDropped | internal/check/check.go:86-91 | Of the lines recorded all but the empty ones are kept, as often and in the order they came |
| Checks.NewestAreKept | internal/check/check.go:92-94 | The k-th newest line is the k-th newest kept, for the last fifty, and no other is |
| Checks.LineReadsBack | internal/supervisor/runner.go:139-139 | Each transcript line shows its probe's verdict and message |
| Checks.RunProbes | internal/supervisor/runner.go:135-150 | Every probe is charged once and leaves one line |
| Checks.Round | internal/supervisor/runner.go:132-155 | The summed weight is folded into the tracker once |
| Checks.RoundCost | internal/supervisor/runner.go:132-137 | A round is free exactly when every probe is OK and costs at most three points a probe |
| Restarts.Host.RestartOne | internal/supervisor/supervisor.go:340-386 | The whole situation after one container's turn, for every reply: what it asked for, when that lands, when its call was answered or given up, and how long the handler took |
| Restarts.Host.RestartService | internal/supervisor/supervisor.go:307-338 | The whole situation and the outcomes after a restart event, early exits included, each listed container in its turn |
| Restarts.Host.HandleEvents | internal/supervisor/supervisor.go:183-192 | The whole situation after any sequence of restart events, with time and other people's restarts in between |
| Restarts.TurnExactlyWhen | internal/supervisor/supervisor.go:340-386 | A turn adds a restart that lands exactly when the start is unknown or at least six minutes ago, php-fpm is not migrating, and the call gets through; and which outcome each case has |
| Restarts.EveryRestartHasATurn | internal/supervisor/supervisor.go:319-337 | Every restart of a run comes from that container's turn in an event that went through, never from one of a migrating php-fpm |
| Restarts.EveryMatchHasItsTurn | internal/supervisor/supervisor.go:319-337 | Every matched container has its outcome, unless the sleep, the client or the lookup fails first |
| Restarts.HandlerIsHeld | internal/supervisor/supervisor.go:316-385 | Uncancelled, an event holds the handler at least 10 seconds plus 35 for each restart and 60 for each migration; if the sleeps end on time, notifications aside, at most 10 seconds, the lookup, and 70 for each container |
| Restarts.RunSeparated | internal/supervisor/supervisor.go:307-386 | Over any sequence of events two restarts of one container take effect at least the minimum uptime apart, if each has taken effect by the container's next listing |
| Restarts.SeparationExactlyWhen | internal/dockerapi/dockerapi.go:37-131 | Every run in which restarts take effect within a given delay of their answer, or of the client giving up, keeps them the minimum uptime apart, if and only if that delay is at most the ten seconds of pause |
| Restarts.RestartedTwice | internal/supervisor/supervisor.go:373-377 | With a longer delay after a failed call any container of any service is restarted again by the next event, at most twenty seconds after the first |
| Restarts.RestartRate | internal/supervisor/supervisor.go:20-23 | n separated restarts of a container take at least n - 1 minimum uptimes |
| Restarts.SeparatesExactlyWhen | internal/supervisor/supervisor.go:340-386 | The next restart keeps its distance from the last one asked for, for all its timings, if and only if that one has taken effect by the listing or the listing shows a start at least as late |
| Restarts.StampDecides | internal/supervisor/supervisor.go:348-355 | Whatever the daemon reports: exactly when it reports a start no older than the last restart, or looks a minimum uptime after it |
| Bans.Fail2ban.Run | internal/probe/redis.go:270-299 | Only additions after the first successful read are new, and a failed read changes nothing |
| Bans.NoticesAreDueExactlyWhen | internal/supervisor/supervisor.go:269-299 | With threshold one and prompt handling the notices are exactly those due if and only if before each failed read there was at most one good read, or the last good one had no address that the one before it lacked |
| Bans.DueOncePerEdge | internal/probe/redis.go:279-292 | Each address is due once per appearance after the seeding read, never for expiring |
| Bans.OneNoticePerBan | internal/supervisor/supervisor.go:269-299 | Without read errors every address gets exactly one notice per appearance |
| Bans.OneNoticeExactlyWhen | internal/supervisor/supervisor.go:269-299 | For every threshold and every schedule of the handler: each ban gets exactly one notice, whatever is read without error, if and only if the threshold is one and an event is taken before each next round (or there is at most one round) |
| Bans.LosesABan | internal/supervisor/runner.go:112-118 | With a higher threshold, or no event taken after some round, any address banned from that round on is never noticed |
| Bans.ServesEach | internal/supervisor/supervisor.go:183-192 | Waiting events are handled one by one, each telling of the addresses remembered then |
| Bans.FailuresRaise | internal/supervisor/runner.go:104-124 | For every threshold, of failing rounds in a row each threshold-th raises an event |
| Bans.AtMostExactlyWhen | internal/probe/redis.go:287-287 | The order of the addresses is the lexicographic one |
| Throttle.Reserver.Reserve | internal/store/storetest/fake.go:135-145 | A free key is booked until its expiry, a taken one is refused with the time left |
| Throttle.GrantedExactlyWhen | internal/store/store.go:210-230 | An attempt is granted exactly when every window opened by an earlier grant of its key is over |
| Throttle.KeysAreIndependent | internal/store/store.go:204-213 | A key's reservation does not depend on attempts for other keys |
| Throttle.Dispatcher.Dispatch | internal/notify/notify.go:160-180 | Each alert is delivered or suppressed as the throttle says, and sent anyway when the backend fails |
| Throttle.SentExactlyWhen | internal/notify/notify.go:165-179 | What is sent is exactly the delivered alerts, each once and in order; unthrottled ones and those whose throttle cannot be asked always |
| Throttle.OncePerWindow | internal/notify/notify.go:165-177 | While the backend answers the sender is invoked at most once per window and service |
| Throttle.WithheldOnlyInWindow | internal/notify/notify.go:172-176 | An alert is withheld only inside the window of one that went out |
| Webhook.ExpandFillsTheHoles | internal/notify/webhook.go:79-87 | Placeholders are settled by the template alone; inserted text is never rescanned |
| Webhook.NoPlaceholderIsLeft | internal/notify/webhook.go:79-87 | The template is copied exactly where none of the four placeholders begins |
| Webhook.PlaceholderBecomesValue | internal/notify/webhook.go:79-87 | Each placeholder becomes the escaped subject or body it stands for, and expansion goes on behind it |
| Webhook.EscapeDecodes | internal/notify/webhook.go:91-104 | Inside a string literal an escaped value reads back as the value, and the literal goes on |
| Webhook.WrittenAsItIsExactlyWhen | internal/notify/webhook.go:94-103 | A value is written unchanged exactly when it has no quote, backslash, control character or JavaScript line end |
| Webhook.ExpandPreservesStructure | internal/notify/webhook.go:71-87 | If every placeholder is inside a string literal the expanded text has the template's structure with the values' characters in place of the placeholders |
| Webhook.StructureAtEveryBoundary | internal/notify/webhook.go:71-87 | With safe placeholders the lexer state agrees with the template's at every segment boundary, from any lexer state |
| Webhook.StructureIsKeptExactlyWhen | internal/notify/webhook.go:71-87 | For every template: the expanded text leaves the lexer where the template leaves it at every boundary, for every subject and body, if and only if each placeholder is inside a string literal and not mid-escape, or after text already broken |
| Smtp.Run | internal/probe/smtp.go:66-118 | The probe as written plays its table of steps: same lines, same verdict, for every server |
| Smtp.Session.Greet | internal/probe/smtp.go:122-147 | The greeting, with HELO tried for SMTP only |
| Smtp.Session.StartTLS | internal/probe/smtp.go:151-176 | The upgrade and the second greeting |
| Smtp.Session.RunCommands | internal/probe/smtp.go:196-212 | The scripted commands in order until one fails |
| Smtp.ConversationFollowsTable | internal/probe/smtp.go:66-118 | For every reply stream the lines written form the beginning of greeting, STARTTLS and greeting, MAIL FROM, commands, QUIT |
| Smtp.OnlyGreetingsInTheClear | internal/probe/smtp.go:96-106 | With STARTTLS set only greetings and the request itself are ever written unencrypted |
| Smtp.LmtpHasOneDialogue | internal/probe/smtp.go:122-141 | An LMTP conversation is a prefix of one fixed dialogue, without HELO |
| Smtp.SucceedsExactlyWhen | internal/probe/smtp.go:66-118 | The probe succeeds exactly when the peer greets with 220 and answers every step well |
| Smtp.OkMeansEverythingMatched | internal/probe/smtp.go:66-212 | OK outside certificate mode: what was written is the greeting, the upgrade and second greeting if asked for, the sender if there is one, each accepted, then the whole script in order with every reply containing what its command wanted, then QUIT if it could be written |
| Smtp.CertifiedMeansUpgraded | internal/probe/smtp.go:96-106 | Success in certificate mode: greeting, upgrade and second greeting, each accepted, and nothing else but QUIT |
| Smtp.FailureMeans | internal/probe/smtp.go:62-212 | WARNING means the sender or a command was answered wrongly; CRITICAL that there was no 220, the connection broke, a greeting or the upgrade was refused, or the handshake failed |
| Smtp.DecimalReadsBack | internal/probe/smtp.go:205-205 | The reply code in front of the graded text is the decimal number |
| Banner.ReadUntil | internal/probe/tcp.go:139-156 | It stops at the first chunk boundary where the text is there, the stream failed or the limit is reached, and buffers at most 9215 bytes |
| Banner.FoundExactlyWhen | internal/probe/tcp.go:83-93 | The text is found exactly when it occurs up to the first chunk boundary at or past the limit |
| Banner.VerdictIgnoresChunks | internal/probe/tcp.go:136-156 | Text within the first 8192 bytes is found however the stream is cut, text beyond 9215 never |
| Newlines.CollapseUndoesExpand | internal/notify/smtp.go:264-265 | Collapsing CRLF undoes expanding LF on every string |
| Newlines.CollapseAppend | internal/notify/smtp.go:264-264 | Collapsing works piece by piece wherever the text is not cut inside a CRLF |
| Newlines.CollapseLeaves | internal/notify/smtp.go:264-264 | Text without a CRLF is left alone |
| Newlines.LFBodyIsExpanded | internal/notify/smtp.go:263-271 | A body with LF endings gets a CR before every LF and a closing CRLF if it had none |
| Newlines.NormaliseKeepsLines | internal/notify/smtp.go:263-271 | The lines of a body survive, up to the closing newline |
| Newlines.NormaliseIdempotent | internal/notify/smtp.go:263-271 | Normalising twice is normalising once |
| Newlines.SameMailExactlyWhen | internal/notify/smtp.go:263-271 | Two bodies are sent alike exactly when they have the same lines |
| Newlines.NormaliseIsCRLF | internal/notify/smtp.go:263-271 | Every LF follows a CR and the body ends in CRLF |

## Left out

- The goroutines of the supervisor are modelled as a step system on values, because their interleavings are the subject; the loops themselves are also given in their own form in `runnerloop.dfy` and `holders.dfy`, each while others use the same gate and trackers.
- The handler's branches that only notify are one step; which message belongs to which event is settled by reading one branch.
- Holders.WatchDockerAPI: the watcher's own loop is followed for a given number of turns; what others do within a turn comes before what the watcher does.
- Liveness.SenderIsReleased: that the channel serves a sender that could send again and again is assumed of the Go runtime.
- Liveness.EveryDeathIsHandled: that a goroutine that could run is not passed over for ever is assumed of the Go runtime.
- Restarts.Host.HandleEvents: the daemon is assumed to report, with a readable start time, every restart that has landed when it takes stock, by whomever; StampDecides says what holds for any report.
- Restarts.RunSeparated: the daemon is assumed to list each container of a service once.
- Restarts.Host.RestartService: the start times of one listing are all read at one moment.
- Restarts.Host.RestartOne: notifications and log records of a restart appear only as the time they take.
- Bans.OneNoticePerBan: whois lookups, delivery and the switch that turns ban mails off are left out; a notice is a call of alert.
- Throttle.Dispatcher.Dispatch: a dispatcher without a channel or without a throttle, rendering, and the result of the sender are left out.
- Webhook.EscapeDecodes: values are sequences of Unicode characters; the replacement of invalid UTF-8 is left out.
- Smtp.Run: resolving and dialling, deadlines, message texts and the certificate's dates are left out; the handshake is a single success or failure.
- Banner.ReadUntil: a connection is a finite list of reads ending in an error, which its deadline guarantees.
- Go's integer overflow, real scheduling delays and the quality of the random jitter.
- Configuration, the table of checks, metrics, logging, the observation server, and the probes that are one request and one verdict (HTTP, DNS, IMAP, MySQL, rspamd, mail queue, IPv6, Redis flags).
- Delivery of mail to exchangers: a failure of QUIT after acceptance makes the code try the next one, so single delivery is not promised.
