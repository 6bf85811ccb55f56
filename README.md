# schedule: a verified model of the task scheduler's core

The scheduler is a service that runs configured tasks on cron schedules.
A task either pings a URL and compares the response body with an expected
string, or runs a command. When the configuration file changes, the
scheduler reloads the whole task list. A failing task escalates to the
"error jobs", the tasks whose `At` is `@error`.

This project models the logic of `main.go` that decides what happens:

- `ConfigLine.Verify`, which checks a task's action kind and arity;
- `ConfigLine.Run`, which keeps a task from overlapping with itself and
  reports each failure through the failure callback;
- the reload loop of the service's `Start` hook, which validates a new
  configuration in full before it stops the running cron instance, then
  rebuilds the error jobs and arms every other task;
- the `onRunError` callback, which runs every error job once, in order,
  unless the failing task is itself an error job;
- the `Stop` hook.

Files and modules:

- `wrappers.dfy` (`Wrappers`): `Option`, standing for Go's `error` results
  (`None` is `nil`).
- `config.dfy` (`Config`): the declared part of a task (`ConfigLine`: `At`,
  `Do`, `Args`), `Verify` and the `UnknownDoErr` error. It also holds the
  per-line reload check, `Validate` (the first failing line, in order), the
  split of a configuration into error jobs and scheduled jobs, and the
  sample configuration.
- `actions.dfy` (`Actions`): the ping and exec actions. They run against a
  `World` oracle that answers HTTP GETs and command runs.
- `jobs.dfy` (`Jobs`): the `Task` class (a line plus the mutable `running`,
  `isErrorJob` and `runError` fields) and the `Scheduler` class. The
  scheduler's fields are `armed` (the jobs on the current cron instance),
  `errorJobs`, `utc` and `started`, and its methods are `Start`, `Reload`,
  `OnRunError` and `Stop`.
- `escalation.dfy` (`Escalation`): lemmas about what a run makes
  observable.

How the model is built:

- **Split of `ConfigLine`.** The Go struct is split in two. The decoded
  fields form the value `Config.ConfigLine`, and the run-time fields live
  on the object `Jobs.Task`.
- **The failure callback.** `Task.runError` is a nullable reference to the
  scheduler whose `OnRunError` is bound, and `null` stands for Go's nil
  func. As in the source, `OnRunError` reads the scheduler's *current*
  error-job list when it is called. The Go closure captures the
  `errorJobs` variable itself, not a copy of it.
- **The event trace.** A run returns a trace of events: `Invoked(t)` when
  `Run` is entered, `Acted(t, guarded)` when the action is performed, and
  `Failed(t, err)` when the failure callback is called. `guarded` records
  the task's running flag at the moment the action is performed. `Run`
  and `OnRunError` are proved to return exactly the trace given by the
  specification functions `Task.RunTrace` and `EscalationTrace`,
  evaluated on the state at the call. They are also proved to restore
  every running flag on return.
- **What the lemmas state.** The lemmas in `Escalation` are about those
  specification functions: single flight, one failure report per failing
  run, and escalation that is one level deep.
- **The cron parser** is the scheduler's constant `parses: string -> bool`.

Behaviours modelled as the code has them:

- Reload sets the new cron instance's UTC flag to `true` whatever the
  configuration's `UTC` says (main.go:201).
- For a line that is not an error job, a bad schedule is reported before a
  failed `Verify` (main.go:184-195). `Verify` is still applied to error
  jobs.
- The validation pass binds the failure callback to each line as soon as
  that line passes (main.go:196). This happens before later lines are
  checked.
- The running flag is read, then set, in two separate steps
  (main.go:73-79). The model is sequential, so no other run can come
  between them.

## Model

| member | source | states |
|---|---|---|
| `Config.ConfigLine.Verify` | main.go:45-60 | an accepted line can be run without indexing past `Args` |
| `Config.VerifyCases` | main.go:45-60 | accepts exactly `ping` with two arguments and `exec` with at least one; any other `Do` yields `UnknownDo` carrying that `Do`; a ping with another number of arguments and an exec with none are refused with their own arity errors |
| `Config.ConfigError.Text` | main.go:21-23 | the message of an unknown `Do` is `unknown "Do": ` followed by that `Do`, from which the `Do` can be read back; both arity messages start with a quote |
| `Config.TextInjective` | main.go:45-60 | the three kinds of `Verify` error have different messages, and two unknown-`Do` messages agree only for the same `Do` |
| `Config.ValidateAllOrNothing` | main.go:183-195 | validation passes iff every line, error jobs included, passes `Verify` and every non-`@error` line's `At` parses |
| `Config.ValidateFirstFailure` | main.go:183-195 | a refused configuration reports the error of the first failing line, and every line before it is admissible |
| `Config.SplitSound` | main.go:203-215 | the error jobs are lines of the configuration, all marked `@error`; the scheduled jobs are lines of the configuration, none marked `@error` |
| `Config.SplitOne` | main.go:203-215 | one more line extends the error jobs when it is marked `@error` and the scheduled jobs otherwise, and leaves the other side as it was |
| `Config.PartitionLines` | main.go:203-216 | error jobs and scheduled jobs together are the configuration's lines, each exactly once |
| `Config.LastAccepted` | main.go:172-197 | the configuration in force is one of the loads and passed validation |
| `Config.SampleAccepted` | main.go:119-145 | the sample configuration validates when its two schedules parse, and it has one error job followed by two scheduled jobs |
| `Actions.Perform` | main.go:85-109 | an action never reports `AlreadyRunning`, which only the busy check produces |
| `Actions.PerformSucceedsIff` | main.go:85-109 | a ping succeeds iff the GET and the body read succeed and the body equals `Args[1]`, and a mismatch reports the expected and received bodies; an exec succeeds iff the command reports no error |
| `Jobs.Task.constructor` | main.go:28-38 | a decoded task has no callback bound, is not an error job, and is not running |
| `Jobs.Task.Running` | main.go:62-68 | returns the running flag |
| `Jobs.Task.Failure` | main.go:72-112 | a run fails with `AlreadyRunning` exactly when the task is busy; otherwise it fails as its action does |
| `Jobs.Task.Run` | main.go:72-113 | returns exactly the trace `RunTrace` predicts from the state at the call, with the flag held whenever the action runs; on return the task's flag and every error job's flag are as they were |
| `Jobs.Task.Guarded` | main.go:77-112 | for an idle task: sets the flag before the action, returns the trace `RunTrace` predicts, and leaves the flag cleared, as the deferred reset does, and every error job's flag as it was |
| `Jobs.Scheduler.OnRunError` | main.go:160-168 | logs one failure; for an error job does nothing more, otherwise runs every error job once, in list order, and returns their traces; restores their flags |
| `Jobs.NewTasks` | main.go:176 | a load yields one fresh, distinct, unbound, idle task per configured line, in order |
| `Jobs.Scheduler.constructor` | main.go:150 | a new cron instance has nothing armed, no error jobs, UTC off, and is not started |
| `Jobs.Scheduler.Start` | main.go:156-220 | starts the cron instance and clears the error jobs; after the loads the state is that of the last load that decoded and validated (distinct tasks, one per line, none both armed and an error job), or the old armed jobs with no error jobs if none did |
| `Jobs.Scheduler.Reload` | main.go:175-218 | on refusal leaves armed jobs, error jobs, UTC and start state unchanged and returns the first line's error; on success the error jobs are exactly the `@error` lines and the armed jobs exactly the others, in order, all freshly loaded, idle and bound, no task listed twice and none on both lists, and the new instance has UTC set and is started |
| `Jobs.Scheduler.Admit` | main.go:182-197 | returns `Validate`'s verdict on the lines; when all pass, every task has the failure callback bound |
| `Jobs.Scheduler.Install` | main.go:199-217 | stops and replaces the instance with UTC set, makes the error jobs exactly the loaded tasks with `@error` lines (each flagged) and the armed jobs exactly the other loaded tasks, in order, starts, and establishes the scheduler invariant |
| `Jobs.SplitDistinct` | main.go:203-215 | splitting distinct loaded tasks lists no task twice on either side |
| `Jobs.Scheduler.Place` | main.go:203-214 | an `@error` task is flagged and appended to the error jobs; any other task is armed and its flag left alone |
| `Jobs.TaskSplit` | main.go:203-215 | splitting the loaded tasks into error jobs and scheduled jobs splits their lines exactly as the configuration split does, and each task lands on the side its line belongs to |
| `Jobs.Scheduler.InstalledValid` | main.go:199-217 | tasks bound to this scheduler, admissible, flagged by their lines and split by their lines make a valid scheduler state |
| `Jobs.Scheduler.AddJob` | main.go:209-214 | arms one job; the process-exit path cannot be reached, since the schedule was parsed before |
| `Jobs.Scheduler.Stop` | main.go:222-224 | the instance is stopped; armed jobs, error jobs, UTC and all task flags are unchanged |
| `Escalation.RunConcerning` | main.go:72-113 | within a run, the task acts exactly when it was not busy, and its failure callback is called exactly once when the run fails and never when it succeeds |
| `Escalation.BusyRun` | main.go:73-76 | a run of a busy task reports `AlreadyRunning` once and performs no action of that task |
| `Escalation.RunActsGuarded` | main.go:77-84 | every action performed in a run, escalated ones included, runs with its task's flag held |
| `Escalation.IdleRunSucceedsIff` | main.go:86-109 | an idle ping reports nothing iff the GET and read succeed and the body equals `Args[1]`; an idle exec reports nothing iff the command reports no error |
| `Escalation.EscalationInvokesEach` | main.go:165-167 | escalation runs each error job exactly once, in list order |
| `Escalation.RunInvocations` | main.go:160-168 | a run invokes the task, then every error job in order exactly when it fails and is not an error job, and nothing else, so escalation is one level deep |
| `Escalation.ArmedJobEscalates` | main.go:160-168 | in a valid scheduler, a failing armed job runs all error jobs once, in order; a succeeding one runs none |
| `Escalation.ErrorJobStaysPut` | main.go:162-164 | in a valid scheduler, a run of an error job invokes only that job, whether or not it fails |

## Left out

- HTTP, reading the body, and running the process (main.go:87-105) are
  I/O. The `World` oracle gives their outcomes. The oracle is fixed for
  one top-level run, so an error job answers the same way each time it is
  asked within that run.
- The cron library is foreign code. That covers `cron.Parse`, `AddJob`'s
  own internals, fire times and what `UTC` means for them. The parser is
  the constant `parses`, the library's job list is the sequence `armed`,
  and its triggering is not modelled. In particular, "a stopped instance
  fires nothing" is not modelled.
- The configuration watcher, JSON decoding, `GetConfigFilePath`,
  `NewWatchConfig` and `Init` (main.go:176, 225-243) are file I/O and
  foreign calls. Each load is an `Option<AppConfig>` value, and `None`
  stands for a load error. `NewTasks` allocates a fresh task per line. The
  JSON decoder's reuse of existing slice elements is not modelled.
- `sync.Mutex` and goroutines are not modelled (main.go:36, 62-84). The
  model is sequential, so the race between the check and the set of the
  running flag is not represented. Neither are runs still in flight after
  a reload or a stop.
- Logging, `String()` and `fmt` formatting are left out. So are the text
  of run errors and the service framework (`serv.Config`, `ser.Run`). A
  `Failed` event stands for the warning `onRunError` logs.
- `panic("unreachable")` (main.go:111) is left out. `Run` requires the
  line to be runnable whenever the task is idle, so the panic cannot be
  reached.
- `os.Exit(1)` (main.go:213) is left out. `AddJob` requires the schedule
  to parse, and reload establishes that during validation.
- Jobs.Task.Run: requires a bound failure callback even for runs that
  succeed, where the Go code would never call the nil func. Every run the
  scheduler makes is of a task bound during reload.
- A `null` entry in the configuration's `Tasks` array is not modelled. Go
  decodes it to a nil `*ConfigLine`, and the validation pass then
  dereferences it in `Verify` (main.go:184, 47), so the process panics
  instead of refusing the reload. The model's lines are values and cannot
  be absent.
- Round-tripping a configuration through its JSON encoding is not
  modelled. Encoding and decoding belong to the configuration library.
