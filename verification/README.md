# slackbridge child processes, modelled in Dafny

slackbridge connects programs to Slack channels. A child program's stdin is
fed from a Slack reader and its stdout goes to a Slack writer. This project
models the part that starts and stops those children, and the part of mux
mode that decides which children to start:

- `internal/childproc` (module `Childproc`), the current child-process
  manager. `Spawn` looks up the program, makes two OS pipes and starts the
  child with the whole command line as its argv. On any failure the deferred
  closes release the pipes it created. On success it closes the child's
  stdout write end and starts two relay goroutines. Spawn's close error and
  the relays' five errors go into one buffered channel of capacity
  `numWaitErrors` = 6. `Wait` runs its body once, under a `sync.Once`. That
  body waits for the process, closes the reader, drains and closes the stdin
  pipe, appending each of these four results directly, and then receives all
  six buffered errors. The result is the multierror of every non-nil error,
  and it is frozen for later calls.
- `childproc` (module `LegacyChildproc`), the older version. Each relay
  hands its copy error over an unbuffered channel of its own. Four close
  errors are discarded. The child is started with `cmdline[1:]` as argv.
- The shared launch sequence (module `Lifecycle`) models the six resources
  a child owns and the events of its life. Each step is a trace event and
  each resource has an open/closed status.
- multierror aggregation (module `Errors`) and interleavings of the two
  relays (module `Interleave`).
- Mux mode (`cmd/mux.go`, modules `Mux` and `Replace`). For each message
  from a channel not yet seen, mux replaces every `{{.ChannelID}}` in each
  argument with the channel ID and spawns a child. It never starts a second
  child for that channel, whether or not the launch succeeded.
- A comparison of the two versions (module `Comparison`).

Each version's concurrency is modelled as one chosen linearization of
`Wait` and the two relay goroutines.

- Current version: both relays run after `Wait` has closed the reader and
  before the drain. The order of their steps, and so of their sends into the
  buffered channel, is an input `schedule: seq<bool>`. Any interleaving of
  the two relays can be chosen (`Interleave.MergeInterleaves`,
  `Interleave.PickFor`).
- Older version: the input relay runs after the reader's close and before
  the drain. It hands its copy error over after `Wait` drains. The output
  relay runs as a whole after `Wait` closes the stdin read end, just before
  `Wait` receives its error.

Other orders the Go runtime allows are not modelled. Examples: the output
relay finishing before the process is waited for, since its copy ends when
the child exits; the input relay's copy ending on the reader's own EOF or
error before the reader is closed; `Wait`'s drain ending early on a read
error, before the input relay has closed the stdin write end. As long as the
drain ends at EOF, no proved property depends on the chosen placement. The
closes-once counts, `Wait`'s result and the values received do not depend on
where the relays run. Each relay's own order holds under every interleaving
(`Childproc.RelayOrder`). The outcome of every system call is an opaque
error value passed in as a parameter (`SpawnEnv`, `WaitEnv`).

## Model

| member | source | states |
|---|---|---|
| Errors.NonNil | internal/childproc/childproc.go:149-173 | Appending to a multierror keeps exactly the non-nil errors, each as many times as it was appended; nothing is kept exactly when every appended value is nil |
| Errors.NonNilAppend | internal/childproc/childproc.go:164-172 | Appending in several calls gives the same errors as appending everything in one call |
| Errors.AggregatePermutation | internal/childproc/childproc.go:171-175 | Appending the same values in another order changes neither whether `ErrorOrNil` is nil nor which errors it holds |
| Errors.Aggregate | internal/childproc/childproc.go:171-175 | `ErrorOrNil` is nil exactly when every appended value is nil; otherwise the multierror holds exactly the non-nil values, in the order appended |
| Interleave.Merge | internal/childproc/childproc.go:111-126 | Interleaving the two goroutines' steps loses none and adds none (same length, same multiset) |
| Interleave.MergeKeepsOrder | internal/childproc/childproc.go:111-126 | Each goroutine's own steps keep their program order in any interleaving |
| Interleave.FlatMapMerge | internal/childproc/childproc.go:111-126 | The values the two goroutines send, interleaved, are exactly the values each one sends |
| Interleave.MergeInterleaves | internal/childproc/childproc.go:111-126 | Every schedule yields an interleaving of the two goroutines' steps |
| Interleave.PickFor | internal/childproc/childproc.go:111-126 | Every interleaving of the two goroutines' steps is produced by some schedule |
| Lifecycle.Launch | internal/childproc/childproc.go:57-95 | Launch fails exactly when lookup, a pipe or the start fails, and it reports the first failed call. It never touches the caller's reader or writer. After a failure every created pipe end is closed once and no other end exists. The child is started (with the given argv and fds stdin, stdout, stdout) exactly when the lookup and both pipes succeeded |
| Childproc.Spawn | internal/childproc/childproc.go:57-139 | Spawn fails exactly when a launch call fails, leaving the reader and writer untouched and the pipes released. On success the program is looked up by the first word and started with the whole command line. All resources are open except the child's stdout end, which is closed once. That close's error is the first value buffered in the error channel |
| Childproc.RunRelays | internal/childproc/childproc.go:104-126 | Each relay step records its event and its send in order and closes what it closes. The channel ends with Spawn's value followed by the relays' values and never exceeds its capacity, so no send blocks |
| Childproc.Collect | internal/childproc/childproc.go:171-173 | The receive loop takes the first n buffered values in order and leaves the rest; it changes no resource |
| Childproc.InputRelayDoes | internal/childproc/childproc.go:111-117 | The input relay sends its copy error and then the stdin write end's close error, and closes that end and nothing else |
| Childproc.OutputRelayDoes | internal/childproc/childproc.go:120-126 | The output relay sends its copy error, then the stdout read end's close error, then the writer's close error, and closes exactly those two |
| Childproc.RelayEventOrder | internal/childproc/childproc.go:111-126 | Under any schedule, each relay's own events appear in its program order |
| Childproc.RelayOrder | internal/childproc/childproc.go:111-126 | Under any schedule, each relay closes only after its copy has finished, and the output relay closes the stdout read end before the writer |
| Childproc.RelayCloses | internal/childproc/childproc.go:111-126 | Under any schedule, the relays together close the stdin write end, the stdout read end and the writer, each once, and close nothing else |
| Childproc.RelayQuiet | internal/childproc/childproc.go:111-126 | The relays never wait for the process, drain, receive, or close the stdin read end |
| Childproc.Shutdown | internal/childproc/childproc.go:148-176 | Wait appends its own four results (wait, reader close, drain, stdin read end close) and then the six channel values: Spawn's first, then the relays' in the order they were sent. It empties the channel |
| Childproc.ShutdownShape | internal/childproc/childproc.go:147-176 | Wait's body waits, closes the reader, lets the relays finish, drains and closes the stdin pipe, and then receives the six buffered values. The values appended are Wait's own four, then Spawn's, then the relays'. The channel is left empty |
| Childproc.ShutdownFinishes | internal/childproc/childproc.go:147-176 | On a freshly spawned child, every one of the six resources ends closed by exactly one close, and the process is waited for once. The steps happen in the documented order, each relay's in its own. What was received is exactly what was sent: six values |
| Childproc.ShutdownInOrder | internal/childproc/childproc.go:147-176 | On a freshly spawned child, the shutdown's steps come in Wait's order and each relay's in its own |
| Childproc.ShutdownResult | internal/childproc/childproc.go:149-175 | Wait reports no error exactly when all ten operations after the launch (Spawn's close, the relays' copies and closes, Wait's own steps) returned nil. Otherwise it reports exactly the non-nil ones, with Wait's own errors and Spawn's first, in that order |
| Childproc.Wait | internal/childproc/childproc.go:141-179 | The first call runs the shutdown, freezes its result and empties the channel; on a spawned child it leaves everything finished. A call after the guard has fired returns the frozen result and changes nothing |
| Childproc.ScheduleIrrelevant | internal/childproc/childproc.go:171-173 | How the relays' sends interleave changes neither whether Wait fails nor which errors it reports, only their order |
| Childproc.RelaysKeepOrder | internal/childproc/childproc.go:107-125 | Spawn's value is received first, and each relay's values are received in the order that relay sent them |
| Childproc.WaitAfterDone | internal/childproc/childproc.go:145-148 | Once the guard has fired, any number of calls change nothing and all return the frozen result |
| Childproc.WaitOnce | internal/childproc/childproc.go:145-179 | However many times Wait is called, the shutdown runs once: all calls return the same result, the state is the first call's, and the process is waited for exactly once |
| LegacyChildproc.Spawn | childproc/childproc.go:54-133 | Spawn fails exactly when a launch call fails, leaving the reader and writer untouched and the pipes released. On success the child is started with the command line minus its first word. All resources are open except the child's stdout end |
| LegacyChildproc.SpawnDropsCloseError | childproc/childproc.go:98-100 | The error from closing the child's stdout end makes no difference to what Spawn returns |
| LegacyChildproc.Slots | childproc/childproc.go:143-167 | The six values Wait appends are all nil exactly when the process wait, the reader close, the drain, the input copy, the stdin read end close and the output copy all succeeded; no other outcome can make Wait fail |
| LegacyChildproc.Wait | childproc/childproc.go:141-171 | The first call reports no error exactly when the six collected values are nil, and otherwise exactly the non-nil ones in order. On a spawned child every resource ends closed once and the process is waited once. Later calls return the frozen result and change nothing |
| LegacyChildproc.ShutdownEvents | childproc/childproc.go:100-165 | The shutdown closes every resource except the child's stdout end (Spawn closed that one) exactly once, and waits for the process once |
| LegacyChildproc.ShutdownOrder | childproc/childproc.go:106-165 | Wait's steps and the relays' closes and handoffs come in this order. Each relay closes its resources only after its copy has finished and before handing over its copy error; the output relay closes the stdout read end before the writer. The input relay's error is received between the drain and the close of the stdin read end, and the output relay's error last |
| LegacyChildproc.IgnoresCloseErrors | childproc/childproc.go:106-119 | The relays' close errors never reach Wait's result: two runs that differ only in them report the same |
| LegacyChildproc.WaitOnce | childproc/childproc.go:135-171 | However many times Wait is called, the shutdown runs once: all calls return the same result, the state is the first call's, and the process is waited for exactly once |
| Comparison.CurrentReportsMore | internal/childproc/childproc.go:104-126 | For the same outcomes, the older Wait fails only if the current one does, and every error the older one reports the current one reports too |
| Comparison.WriterCloseFailure | internal/childproc/childproc.go:125 | When only the writer's close fails, the older version reports no error and the current one reports exactly that error |
| Comparison.LegacyArgvDropsName | childproc/childproc.go:89 | The older Spawn of `echo hi` starts `/bin/echo` with argv `["hi"]`, never `["echo", "hi"]` |
| Comparison.CurrentArgvKeepsName | internal/childproc/childproc.go:92 | The current Spawn of `echo hi` starts `/bin/echo` with argv `["echo", "hi"]` |
| Replace.JoinSplit | cmd/mux.go:68 | Putting the template back between the pieces the scan cuts out gives the argument again |
| Replace.ReplaceIsJoin | cmd/mux.go:68 | Replace-all is the same pieces joined with the channel ID |
| Replace.SplitPatternFree | cmd/mux.go:68 | No piece copied unchanged holds the template, so every occurrence is replaced |
| Replace.SplitCount | cmd/mux.go:68 | An argument holds the template exactly when the scan finds something to replace |
| Replace.ReplaceNoMatch | cmd/mux.go:68 | An argument without the template is passed through unchanged |
| Replace.ReplaceInjective | cmd/mux.go:68 | If the argument holds the template, different channel IDs give different results |
| Replace.ReplaceUnchanged | cmd/mux.go:68 | Replacement leaves an argument as it was exactly when it holds no template or the channel ID is the template text itself |
| Replace.ReplaceAll | cmd/mux.go:68 | A channel ID no longer than the template never makes an argument longer, and one no shorter never makes it shorter |
| Mux.ChildArgs | cmd/mux.go:66-69 | The child gets one argument per mux argument, each with the template replaced by the channel ID |
| Mux.ChildArgsKeepPlain | cmd/mux.go:66-69 | An argument without the template reaches the child as it was |
| Mux.ChildArgsDistinct | cmd/mux.go:66-69 | When some argument holds the template, two channels never get the same argument vector |
| Mux.Start | cmd/mux.go:71-75 | The child is for the message's channel, its reader starts at that message, and its arguments are the template arguments for that channel |
| Mux.Step | cmd/mux.go:61-77 | A message marks its channel spawned. For a channel already seen nothing else changes. Otherwise exactly one child, started by this message, is added after the existing ones |
| Mux.Dispatch | cmd/mux.go:59-77 | Each message starts at most one child, and the first message always starts one |
| Mux.DispatchSpawned | cmd/mux.go:59-77 | After any run of messages, the spawned set is exactly the set of channels heard from |
| Mux.DispatchOnce | cmd/mux.go:30-32 | No channel ever gets two children, and the channels with a child are exactly the spawned ones |
| Mux.DispatchFromFirsts | cmd/mux.go:61-77 | Every child was started by the first message of its channel, and its reader starts at that message's ID |
| Mux.DispatchCoversFirsts | cmd/mux.go:24-26 | Every first message of a channel started a child |
| Mux.DispatchArgs | cmd/mux.go:66-69 | Every child's argument vector is the mux arguments with the template replaced by its own channel ID |
| Mux.DispatchGrows | cmd/mux.go:61-77 | Processing more messages only appends children and only adds spawned channels |
| Mux.OutcomeIgnored | cmd/mux.go:74-76 | Which channels get a child, from which message and with which arguments does not depend on whether the launches succeed: a channel whose Spawn failed stays marked spawned |
| Mux.UsageExample | cmd/mux.go:16 | With the usage example `./start-bot.sh -c {{.ChannelID}}`, the child for channel `id` gets `./start-bot.sh -c id` |

## Left out

- Real I/O: the bytes the relays copy, the Slack client and its
  subscription, and the `SLACK_TOKEN` check and usage message
  (`cmd/mux.go:47-57`) are not modelled. Each operation's outcome is an
  opaque error value given as a parameter.
- Goroutine schedules other than the linearizations described above, for
  example a relay finishing before the process is waited for. An `io.Copy`
  ends when its source reports EOF or an error: for the output relay, when
  the child exits; for the input relay, when the reader is closed (the code's
  documented assumption that `Close` interrupts an active `Read`) or when the
  reader itself ends. The goroutine `go p.Wait()` started by Spawn is one of
  the calls given to `WaitAll`, at whatever position the caller chooses.
- Childproc.Spawn, LegacyChildproc.Spawn: require a non-empty command line.
  The Go code indexes `cmdline[0]` and would panic; mux guarantees at least
  one argument (`cobra.MinimumNArgs(1)`).
- Mux.ChildArgs: requires the channel ID to hold no `$`. `ReplaceAllString`
  expands `$name` groups in the replacement text, and the model copies the
  text literally. Slack channel IDs are upper-case letters and digits.
  `Mux.Start`, `Mux.Step` and `Mux.Dispatch` inherit this requirement.
- Regular-expression internals: the pattern `{{\.ChannelID}}` has no
  metacharacter left in effect, so it is modelled as a literal leftmost,
  non-overlapping scan.
- The text of error messages (`fmt.Errorf` wrapping, multierror's
  formatting). A launch error is modelled as which call failed plus its
  cause.
- Memory and file-descriptor limits, and what the child program itself does.
- What happens after `Wait` returns: the Slack reader and writer objects
  beyond their `Close`.

## Findings

| source | as written | input that shows it | evidently intended | confidence | as-written member | corrected member |
|---|---|---|---|---|---|---|
| childproc/childproc.go:89 | `os.StartProcess(path, cmdline[1:], attrs)` passes the arguments without the program name, so the child's `argv[0]` is its first argument | the command line `echo hi` starts `/bin/echo` with argv `["hi"]`: `hi` becomes the program name, and no argument is printed | argv is the whole command line, as `internal/childproc/childproc.go:92` does | high (not executed) | Comparison.LegacyArgvDropsName | Comparison.CurrentArgvKeepsName |
