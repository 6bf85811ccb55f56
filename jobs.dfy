/**
 * The scheduler's run-time state: tasks with their single-flight flag, the
 * jobs armed on the current cron instance, the error jobs that failures
 * escalate to, and the reload that swaps one configuration for the next.
 */
module Jobs {
  import opened Wrappers
  import opened Config
  import opened Actions

  /** What a run makes observable, in the order it happens. */
  datatype Event =
    | Invoked(task: Task)               // `Run` was entered
    | Acted(task: Task, guarded: bool)  // the action was performed; `guarded` is the task's running flag at that moment
    | Failed(task: Task, err: RunError) // the failure callback was called (and logged the failure)

  /** A configured task together with its run-time fields. */
  class Task {
    const line: ConfigLine
    /** The scheduler whose failure callback is bound; `null` while unbound. */
    var runError: Scheduler?
    var isErrorJob: bool
    var running: bool

    /** A task as the configuration decoder yields it: nothing bound, not running. */
    constructor (line: ConfigLine)
      ensures this.line == line
      ensures runError == null && !isErrorJob && !running
    {
      this.line := line;
      runError := null;
      isErrorJob := false;
      running := false;
    }

    /** Reads the running flag. */
    method Running() returns (r: bool)
      ensures r == running
    {
      r := running;
    }

    /** The error a run started now ends with, if any. */
    function Failure(w: World): (r: Option<RunError>)
      reads this`running
      requires running || line.Runnable()
      ensures r == Some(AlreadyRunning) <==> running
    {
      if running then Some(AlreadyRunning) else Perform(line, w)
    }

    /** Whether a run started now hands its failure on to the error jobs. */
    predicate Escalates(w: World)
      reads this`running, this`isErrorJob
      requires running || line.Runnable()
    {
      Failure(w).Some? && !isErrorJob
    }

    /** What a run started now does itself: enter, act unless busy, report a failure. */
    function OwnTrace(w: World): seq<Event>
      reads this`running
      requires running || line.Runnable()
    {
      [Invoked(this)]
      + (if running then [] else [Acted(this, true)])
      + (if Failure(w).Some? then [Failed(this, Failure(w).value)] else [])
    }

    /** The failure callback is bound to a scheduler whose error jobs can be run. */
    predicate Bound()
      reads this`runError, (if runError != null then {runError} else {})`errorJobs
      reads (set e | runError != null && e in runError.errorJobs)`isErrorJob, (set e | runError != null && e in runError.errorJobs)`runError
    {
      runError != null && runError.ErrorJobsReady()
    }

    /** Everything a run started now makes observable, escalation included. */
    function RunTrace(w: World): seq<Event>
      reads this`running, this`isErrorJob
      reads this`runError, (if runError != null then {runError} else {})`errorJobs
      reads (set e | runError != null && e in runError.errorJobs)`isErrorJob, (set e | runError != null && e in runError.errorJobs)`runError, (set e | runError != null && e in runError.errorJobs)`running
      requires Bound()
      requires running || line.Runnable()
    {
      OwnTrace(w) + (if Escalates(w) then EscalationTrace(runError.errorJobs, w) else [])
    }

    /**
     * One run of the task. A busy task reports `AlreadyRunning` and does
     * nothing else; otherwise the flag is held while the action runs and
     * is reset on the way out, and a failure is reported through the
     * bound callback.
     */
    method Run(w: World) returns (trace: seq<Event>)
      requires Bound()
      requires running || line.Runnable()
      modifies this`running, (set e | e in runError.errorJobs)`running
      decreases if isErrorJob then 0 else 1, 2
      ensures running == old(running)
      ensures forall e | e in runError.errorJobs :: e.running == old(e.running)
      ensures trace == old(RunTrace(w))
    {
      var busy := Running();
      if busy {
        var reported := runError.OnRunError(this, AlreadyRunning, w);
        trace := [Invoked(this)] + reported;
      } else {
        trace := Guarded(w);
      }
    }

    /**
     * The part of a run past the busy check: the flag is set, the action
     * is performed, a failure is reported, and the deferred reset clears
     * the flag again.
     */
    method Guarded(w: World) returns (trace: seq<Event>)
      requires Bound()
      requires !running && line.Runnable()
      modifies this`running, (set e | e in runError.errorJobs)`running
      decreases if isErrorJob then 0 else 1, 1
      ensures !running
      ensures forall e | e in runError.errorJobs :: e.running == old(e.running)
      ensures trace == old(RunTrace(w))
    {
      ghost var jobs := runError.errorJobs;
      ghost var escalation := EscalationTrace(jobs, w);
      running := true;
      if !isErrorJob {
        assert this !in jobs;
        assert EscalationTrace(jobs, w) == escalation;
      }
      var outcome := Perform(line, w);
      trace := [Invoked(this), Acted(this, running)];
      if outcome.Some? {
        var reported := runError.OnRunError(this, outcome.value, w);
        trace := trace + reported;
      }
      running := false;
    }
  }

  /** The events of running each of `jobs` once, in order, none of them escalating. */
  function EscalationTrace(jobs: seq<Task>, w: World): seq<Event>
    reads (set e | e in jobs)`running
    requires forall e | e in jobs :: e.running || e.line.Runnable()
  {
    if jobs == [] then []
    else EscalationTrace(jobs[..|jobs| - 1], w) + jobs[|jobs| - 1].OwnTrace(w)
  }

  /** The configured lines of a list of tasks. */
  function Lines(tasks: seq<Task>): seq<ConfigLine> {
    seq(|tasks|, i requires 0 <= i < |tasks| => tasks[i].line)
  }

  /** A task's line is among the lines of any list holding the task. */
  lemma LinesMember(tasks: seq<Task>, t: Task)
    requires t in tasks
    ensures t.line in Lines(tasks)
  {
    var k :| 0 <= k < |tasks| && tasks[k] == t;
    assert Lines(tasks)[k] == t.line;
  }

  /** Appending a task appends its line. */
  lemma LinesAppend(tasks: seq<Task>, t: Task)
    ensures Lines(tasks + [t]) == Lines(tasks) + [t.line]
  {
  }

  /** No task occurs twice. */
  predicate Distinct(tasks: seq<Task>) {
    forall i, j | 0 <= i < j < |tasks| :: tasks[i] != tasks[j]
  }

  /** The tasks whose line is an `@error` line, in order. */
  function ErrorTasks(tasks: seq<Task>): seq<Task> {
    if tasks == [] then []
    else
      var init := ErrorTasks(tasks[..|tasks| - 1]);
      if tasks[|tasks| - 1].line.IsErrorLine() then init + [tasks[|tasks| - 1]] else init
  }

  /** The tasks whose line is not an `@error` line, in order. */
  function ScheduledTasks(tasks: seq<Task>): seq<Task> {
    if tasks == [] then []
    else
      var init := ScheduledTasks(tasks[..|tasks| - 1]);
      if tasks[|tasks| - 1].line.IsErrorLine() then init else init + [tasks[|tasks| - 1]]
  }

  /**
   * Splitting tasks splits their lines the same way, and each task lands
   * on the side its line belongs to.
   */
  lemma {:induction false} TaskSplit(tasks: seq<Task>)
    ensures Lines(ErrorTasks(tasks)) == ErrorLines(Lines(tasks))
    ensures Lines(ScheduledTasks(tasks)) == ScheduledLines(Lines(tasks))
    ensures forall t | t in ErrorTasks(tasks) :: t in tasks && t.line.IsErrorLine()
    ensures forall t | t in ScheduledTasks(tasks) :: t in tasks && !t.line.IsErrorLine()
  {
    if tasks != [] {
      var n := |tasks| - 1;
      var init := tasks[..n];
      TaskSplit(init);
      assert tasks == init + [tasks[n]];
      LinesAppend(init, tasks[n]);
      SplitOne(Lines(init), tasks[n].line);
      LinesAppend(ErrorTasks(init), tasks[n]);
      LinesAppend(ScheduledTasks(init), tasks[n]);
      assert forall t | t in init :: t in tasks;
    }
  }

  /** Splitting distinct tasks puts no task on a side twice. */
  lemma {:induction false} SplitDistinct(tasks: seq<Task>)
    requires Distinct(tasks)
    ensures Distinct(ErrorTasks(tasks)) && Distinct(ScheduledTasks(tasks))
  {
    if tasks != [] {
      var n := |tasks| - 1;
      var init := tasks[..n];
      TaskSplit(init);
      SplitDistinct(init);
      assert tasks[n] !in init;
    }
  }

  /**
   * Allocates one task per decoded line (the objects a configuration load
   * produces).
   */
  method NewTasks(lines: seq<ConfigLine>) returns (tasks: seq<Task>)
    ensures Lines(tasks) == lines
    ensures forall t | t in tasks :: fresh(t) && t.runError == null && !t.isErrorJob && !t.running
    ensures Distinct(tasks)
  {
    tasks := [];
    while |tasks| < |lines|
      invariant |tasks| <= |lines|
      invariant Lines(tasks) == lines[..|tasks|]
      invariant forall t | t in tasks :: fresh(t) && t.runError == null && !t.isErrorJob && !t.running
      invariant Distinct(tasks)
    {
      var t := new Task(lines[|tasks|]);
      tasks := tasks + [t];
    }
    assert lines[..|tasks|] == lines;
  }

  /**
   * The service: the jobs armed on the current cron instance, the error
   * jobs of the current configuration, the cron instance's UTC flag and
   * whether it is started. `parses` stands for the cron library's parser.
   */
  class Scheduler {
    const parses: string -> bool
    var armed: seq<Task>
    var errorJobs: seq<Task>
    var utc: bool
    var started: bool

    /** Error jobs are flagged, bound to this scheduler, and can run. */
    predicate ErrorJobsReady()
      reads this`errorJobs, (set e | e in errorJobs)`isErrorJob, (set e | e in errorJobs)`runError
    {
      forall e | e in errorJobs :: e.isErrorJob && e.runError == this && e.line.Runnable()
    }

    /** What a successful reload establishes and every operation keeps. */
    ghost predicate Valid()
      reads this, armed, errorJobs
    {
      ErrorJobsReady()
      && (forall e | e in errorJobs :: e.line.IsErrorLine() && e.line.Verify() == None)
      && (forall t | t in armed ::
            !t.line.IsErrorLine() && Admissible(t.line, parses) && !t.isErrorJob && t.runError == this)
    }

    /** A fresh cron instance, not started, with no configuration loaded. */
    constructor (parses: string -> bool)
      ensures Valid()
      ensures this.parses == parses && armed == [] && errorJobs == [] && !utc && !started
    {
      this.parses := parses;
      armed, errorJobs := [], [];
      utc, started := false, false;
    }

    /**
     * The failure callback: logs the failure and, unless the failing task
     * is an error job, runs every error job once, in order.
     */
    method OnRunError(cl: Task, err: RunError, w: World) returns (trace: seq<Event>)
      requires ErrorJobsReady()
      modifies (set e | e in errorJobs)`running
      decreases if cl.isErrorJob then 0 else 1, 0
      ensures forall e | e in errorJobs :: e.running == old(e.running)
      ensures trace == [Failed(cl, err)] + if cl.isErrorJob then [] else old(EscalationTrace(errorJobs, w))
    {
      trace := [Failed(cl, err)];
      if cl.isErrorJob {
        return;
      }
      var i := 0;
      while i < |errorJobs|
        invariant 0 <= i <= |errorJobs|
        invariant forall e | e in errorJobs :: e.running == old(e.running)
        invariant trace == [Failed(cl, err)] + old(EscalationTrace(errorJobs[..i], w))
      {
        var job := errorJobs[i];
        assert job in errorJobs && errorJobs[..i + 1][..i] == errorJobs[..i];
        var ran := job.Run(w);
        assert ran == old(job.OwnTrace(w));
        trace := trace + ran;
        i := i + 1;
      }
      assert errorJobs[..i] == errorJobs;
    }

    /**
     * The service's Start hook: starts the cron instance, clears the error
     * jobs, then handles each change notification in turn. A load that
     * could not be decoded (`None`) is skipped, and so is one that fails
     * verification.
     */
    method Start(loads: seq<Option<AppConfig>>)
      requires Valid()
      modifies this
      ensures Valid() && started
      ensures LastAccepted(loads, parses) == None ==>
        armed == old(armed) && errorJobs == [] && utc == old(utc)
      ensures LastAccepted(loads, parses) != None ==>
        var cfg := LastAccepted(loads, parses).value;
        Lines(errorJobs) == ErrorLines(cfg.tasks) && Lines(armed) == ScheduledLines(cfg.tasks) && utc
        && Distinct(armed) && Distinct(errorJobs) && forall a, e | a in armed && e in errorJobs :: a != e
    {
      errorJobs := [];
      started := true;
      var i := 0;
      while i < |loads|
        invariant 0 <= i <= |loads|
        invariant Valid() && started
        invariant LastAccepted(loads[..i], parses) == None ==>
          armed == old(armed) && errorJobs == [] && utc == old(utc)
        invariant LastAccepted(loads[..i], parses) != None ==>
          var cfg := LastAccepted(loads[..i], parses).value;
          Lines(errorJobs) == ErrorLines(cfg.tasks) && Lines(armed) == ScheduledLines(cfg.tasks) && utc
          && Distinct(armed) && Distinct(errorJobs) && forall a, e | a in armed && e in errorJobs :: a != e
      {
        assert loads[..i + 1][..i] == loads[..i];
        if loads[i].Some? {
          var err := Reload(loads[i].value);
        }
        i := i + 1;
      }
      assert loads[..i] == loads;
    }

    /**
     * Handles one configuration change. The new configuration is checked
     * in full first; any failing line leaves the scheduler as it was.
     * Otherwise the current cron instance is stopped and replaced by a new
     * one with UTC set, the error jobs become the `@error` lines, every
     * other line is armed, and the new instance is started.
     */
    method Reload(cfg: AppConfig) returns (err: Option<ReloadError>)
      requires Valid()
      modifies this
      ensures Valid()
      ensures err == Validate(cfg.tasks, parses)
      ensures err.Some? ==>
        armed == old(armed) && errorJobs == old(errorJobs) && utc == old(utc) && started == old(started)
      ensures err.None? ==>
        Lines(errorJobs) == ErrorLines(cfg.tasks) && Lines(armed) == ScheduledLines(cfg.tasks)
        && utc && started
      ensures err.None? ==> forall t | t in armed + errorJobs :: fresh(t) && !t.running
      ensures err.None? ==> Distinct(armed) && Distinct(errorJobs) && forall a, e | a in armed && e in errorJobs :: a != e
    {
      var tasks := NewTasks(cfg.tasks);
      err := Admit(tasks, cfg.tasks);
      if err.None? {
        ValidateAllOrNothing(cfg.tasks, parses);
        forall t | t in tasks
          ensures t.runError == this && !t.isErrorJob && Admissible(t.line, parses)
        {
          LinesMember(tasks, t);
        }
        Install(tasks, cfg.tasks);
        SplitDistinct(tasks);
      }
    }

    /**
     * The verification pass of a reload: checks the lines in order and
     * stops at the first that fails; each task that passes gets this
     * scheduler's failure callback bound.
     */
    method Admit(tasks: seq<Task>, lines: seq<ConfigLine>) returns (err: Option<ReloadError>)
      requires Lines(tasks) == lines
      modifies (set t | t in tasks)`runError
      ensures err == Validate(lines, parses)
      ensures err.None? ==> forall k | 0 <= k < |tasks| :: tasks[k].runError == this
    {
      var i := 0;
      while i < |tasks|
        invariant 0 <= i <= |tasks|
        invariant Validate(lines[..i], parses) == None
        invariant forall k | 0 <= k < i :: tasks[k].runError == this
      {
        var t := tasks[i];
        assert t.line == Lines(tasks)[i] == lines[i];
        assert lines[..i + 1] == lines[..i] + [lines[i]] && lines == lines[..i] + lines[i..];
        ValidateAppend(lines[..i], [lines[i]], parses);
        ValidateAppend(lines[..i], lines[i..], parses);
        var verr := t.line.Verify();
        if !t.line.IsErrorLine() && !parses(t.line.at) {
          return Some(BadSchedule(t.line.at));
        }
        if verr.Some? {
          return Some(BadTask(verr.value));
        }
        t.runError := this;
        i := i + 1;
      }
      assert lines[..i] == lines;
      err := None;
    }

    /**
     * The swap of a reload: stops the current cron instance, makes a new
     * one with UTC set, rebuilds the error jobs from the `@error` lines
     * (flagging each), arms every other line, and starts the new instance.
     */
    method Install(tasks: seq<Task>, lines: seq<ConfigLine>)
      requires Lines(tasks) == lines
      requires forall t | t in tasks :: t.runError == this && !t.isErrorJob && Admissible(t.line, parses)
      requires Distinct(tasks)
      modifies this, (set t | t in tasks)`isErrorJob
      ensures Valid()
      ensures Lines(errorJobs) == ErrorLines(lines) && Lines(armed) == ScheduledLines(lines)
      ensures utc && started
      ensures errorJobs == ErrorTasks(tasks) && armed == ScheduledTasks(tasks)
      ensures forall t | t in armed + errorJobs :: t in tasks
    {
      started := false;
      armed, utc := [], true;
      errorJobs := [];
      var i := 0;
      while i < |tasks|
        invariant 0 <= i <= |tasks|
        invariant errorJobs == ErrorTasks(tasks[..i]) && armed == ScheduledTasks(tasks[..i])
        invariant forall k | 0 <= k < i :: tasks[k].isErrorJob == tasks[k].line.IsErrorLine()
        invariant forall k | i <= k < |tasks| :: !tasks[k].isErrorJob
        invariant utc && !started
      {
        var t := tasks[i];
        assert tasks[..i + 1][..i] == tasks[..i];
        assert forall k | 0 <= k < |tasks| && k != i :: tasks[k] != t;
        Place(t);
        i := i + 1;
      }
      assert tasks[..i] == tasks;
      TaskSplit(tasks);
      InstalledValid(tasks);
      started := true;
    }

    /**
     * Places one loaded task: an `@error` line is flagged and appended to the
     * error jobs, any other line is armed on the cron instance.
     */
    method Place(t: Task)
      requires !t.line.IsErrorLine() ==> parses(t.line.at)
      modifies this`armed, this`errorJobs, t`isErrorJob
      ensures t.line.IsErrorLine() ==>
        errorJobs == old(errorJobs) + [t] && armed == old(armed) && t.isErrorJob
      ensures !t.line.IsErrorLine() ==>
        armed == old(armed) + [t] && errorJobs == old(errorJobs) && t.isErrorJob == old(t.isErrorJob)
    {
      if t.line.IsErrorLine() {
        t.isErrorJob := true;
        errorJobs := errorJobs + [t];
      } else {
        AddJob(t);
      }
    }

    /** The state `Install` leaves satisfies the scheduler invariant. */
    lemma InstalledValid(tasks: seq<Task>)
      requires forall t | t in tasks :: t.runError == this && Admissible(t.line, parses)
      requires forall k | 0 <= k < |tasks| :: tasks[k].isErrorJob == tasks[k].line.IsErrorLine()
      requires errorJobs == ErrorTasks(tasks) && armed == ScheduledTasks(tasks)
      ensures Valid()
    {
      TaskSplit(tasks);
      forall t | t in tasks
        ensures t.isErrorJob == t.line.IsErrorLine()
      {
        var k :| 0 <= k < |tasks| && tasks[k] == t;
      }
    }

    /**
     * Arms a job on the cron instance. Its schedule was parsed when the
     * configuration was verified, so the library's error (after which the
     * process would exit) cannot occur.
     */
    method AddJob(t: Task)
      requires parses(t.line.at)
      modifies this`armed
      ensures armed == old(armed) + [t]
    {
      armed := armed + [t];
    }

    /** The service's Stop hook: stops the cron instance and nothing else. */
    method Stop()
      modifies this`started
      ensures !started
      ensures armed == old(armed) && errorJobs == old(errorJobs) && utc == old(utc)
    {
      started := false;
    }
  }
}
