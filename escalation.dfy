/**
 * What a run makes observable: the single-flight guard, the one failure
 * report per failing run, and escalation to the error jobs that goes one
 * level deep and no further.
 */
module Escalation {
  import opened Wrappers
  import opened Config
  import opened Actions
  import opened Jobs

  /** The tasks whose `Run` was entered, in order. */
  function Invocations(trace: seq<Event>): seq<Task> {
    if trace == [] then []
    else Invocations(trace[..|trace| - 1]) + (if trace[|trace| - 1].Invoked? then [trace[|trace| - 1].task] else [])
  }

  /** The events that concern task `t`, in order. */
  function Concerning(trace: seq<Event>, t: Task): seq<Event> {
    if trace == [] then []
    else Concerning(trace[..|trace| - 1], t) + (if trace[|trace| - 1].task == t then [trace[|trace| - 1]] else [])
  }

  /** The invocations of a concatenation are those of each part, in order. */
  lemma {:induction false} InvocationsAppend(a: seq<Event>, b: seq<Event>)
    ensures Invocations(a + b) == Invocations(a) + Invocations(b)
  {
    if b == [] {
      assert a + b == a;
    } else {
      InvocationsAppend(a, b[..|b| - 1]);
      assert (a + b)[..|a + b| - 1] == a + b[..|b| - 1];
    }
  }

  /** The events concerning a task in a concatenation are those of each part, in order. */
  lemma {:induction false} ConcerningAppend(a: seq<Event>, b: seq<Event>, t: Task)
    ensures Concerning(a + b, t) == Concerning(a, t) + Concerning(b, t)
  {
    if b == [] {
      assert a + b == a;
    } else {
      ConcerningAppend(a, b[..|b| - 1], t);
      assert (a + b)[..|a + b| - 1] == a + b[..|b| - 1];
    }
  }

  /** A task's own part of a run enters `Run` once, for that task. */
  lemma OwnInvocations(t: Task, w: World)
    requires t.running || t.line.Runnable()
    ensures Invocations(t.OwnTrace(w)) == [t]
  {
    var acted := if t.running then [] else [Acted(t, true)];
    var failed := if t.Failure(w).Some? then [Failed(t, t.Failure(w).value)] else [];
    assert t.OwnTrace(w) == [Invoked(t)] + acted + failed;
    InvocationsAppend([Invoked(t)] + acted, failed);
    InvocationsAppend([Invoked(t)], acted);
  }

  /** A task's own part of a run concerns that task alone. */
  lemma OwnConcerning(t: Task, w: World)
    requires t.running || t.line.Runnable()
    ensures forall ev | ev in t.OwnTrace(w) :: ev.task == t
    ensures Concerning(t.OwnTrace(w), t) == t.OwnTrace(w)
  {
    var acted := if t.running then [] else [Acted(t, true)];
    var failed := if t.Failure(w).Some? then [Failed(t, t.Failure(w).value)] else [];
    assert t.OwnTrace(w) == [Invoked(t)] + acted + failed;
    ConcerningAppend([Invoked(t)] + acted, failed, t);
    ConcerningAppend([Invoked(t)], acted, t);
  }

  /** Escalation enters `Run` of each error job exactly once, in list order. */
  lemma {:induction false} EscalationInvokesEach(jobs: seq<Task>, w: World)
    requires forall e | e in jobs :: e.running || e.line.Runnable()
    ensures Invocations(EscalationTrace(jobs, w)) == jobs
  {
    if jobs != [] {
      var n := |jobs| - 1;
      EscalationInvokesEach(jobs[..n], w);
      OwnInvocations(jobs[n], w);
      InvocationsAppend(EscalationTrace(jobs[..n], w), jobs[n].OwnTrace(w));
      assert jobs == jobs[..n] + [jobs[n]];
    }
  }

  /** Escalation concerns the error jobs only. */
  lemma {:induction false} EscalationConcernsJobs(jobs: seq<Task>, w: World)
    requires forall e | e in jobs :: e.running || e.line.Runnable()
    ensures forall ev | ev in EscalationTrace(jobs, w) :: ev.task in jobs
  {
    if jobs != [] {
      var n := |jobs| - 1;
      EscalationConcernsJobs(jobs[..n], w);
      OwnConcerning(jobs[n], w);
      assert forall e | e in jobs[..n] :: e in jobs;
    }
  }

  /** A task that is not an error job takes no part in an escalation. */
  lemma EscalationOmits(jobs: seq<Task>, w: World, t: Task)
    requires forall e | e in jobs :: e.running || e.line.Runnable()
    requires t !in jobs
    ensures Concerning(EscalationTrace(jobs, w), t) == []
  {
    EscalationConcernsJobs(jobs, w);
    NoneConcerning(EscalationTrace(jobs, w), t);
  }

  /** A trace none of whose events is about `t` has no events concerning `t`. */
  lemma {:induction false} NoneConcerning(trace: seq<Event>, t: Task)
    requires forall ev | ev in trace :: ev.task != t
    ensures Concerning(trace, t) == []
  {
    if trace != [] {
      NoneConcerning(trace[..|trace| - 1], t);
    }
  }

  /**
   * A run enters `Run` of the task itself and then, exactly when it
   * fails and the task is not an error job, of every error job once, in
   * list order. Runs of error jobs escalate no further.
   */
  lemma RunInvocations(t: Task, w: World)
    requires t.Bound()
    requires t.running || t.line.Runnable()
    ensures Invocations(t.RunTrace(w)) ==
      [t] + if t.Failure(w).Some? && !t.isErrorJob then t.runError.errorJobs else []
  {
    var own := t.OwnTrace(w);
    OwnInvocations(t, w);
    if t.Escalates(w) {
      var jobs := t.runError.errorJobs;
      var esc := EscalationTrace(jobs, w);
      assert t.RunTrace(w) == own + esc;
      EscalationInvokesEach(jobs, w);
      InvocationsAppend(own, esc);
    } else {
      assert t.RunTrace(w) == own;
    }
  }

  /**
   * The events of a run that concern the task itself: it is entered, it
   * acts exactly when it was not already running (with the flag held),
   * and the failure callback is called for it exactly when the run fails.
   */
  lemma RunConcerning(t: Task, w: World)
    requires t.Bound()
    requires t.running || t.line.Runnable()
    ensures Concerning(t.RunTrace(w), t) ==
      [Invoked(t)]
      + (if t.running then [] else [Acted(t, true)])
      + (if t.Failure(w).Some? then [Failed(t, t.Failure(w).value)] else [])
  {
    OwnConcerning(t, w);
    if t.Escalates(w) {
      var jobs := t.runError.errorJobs;
      assert t !in jobs;
      EscalationOmits(jobs, w, t);
      ConcerningAppend(t.OwnTrace(w), EscalationTrace(jobs, w), t);
    } else {
      assert t.RunTrace(w) == t.OwnTrace(w);
    }
  }

  /**
   * Every action performed during a run, the escalated ones included,
   * is performed while its task's running flag is held.
   */
  lemma RunActsGuarded(t: Task, w: World)
    requires t.Bound()
    requires t.running || t.line.Runnable()
    ensures forall ev | ev in t.RunTrace(w) && ev.Acted? :: ev.guarded
  {
    OwnConcerning(t, w);
    if t.Escalates(w) {
      EscalationActsGuarded(t.runError.errorJobs, w);
    }
  }

  /** Every action an escalation performs runs with its task's flag held. */
  lemma {:induction false} EscalationActsGuarded(jobs: seq<Task>, w: World)
    requires forall e | e in jobs :: e.running || e.line.Runnable()
    ensures forall ev | ev in EscalationTrace(jobs, w) && ev.Acted? :: ev.guarded
  {
    if jobs != [] {
      EscalationActsGuarded(jobs[..|jobs| - 1], w);
    }
  }

  /** A run of a busy task reports `AlreadyRunning` for it and performs nothing for it. */
  lemma BusyRun(t: Task, w: World)
    requires t.Bound()
    requires t.running
    ensures Concerning(t.RunTrace(w), t) == [Invoked(t), Failed(t, AlreadyRunning)]
  {
    RunConcerning(t, w);
  }

  /**
   * A ping that was not already running reports nothing for itself exactly
   * when its GET and body read succeed and the body equals `args[1]`; an
   * exec exactly when its command reports no error.
   */
  lemma IdleRunSucceedsIff(t: Task, w: World)
    requires t.Bound()
    requires !t.running && t.line.Runnable()
    ensures Concerning(t.RunTrace(w), t) == [Invoked(t), Acted(t, true)] <==>
      if t.line.do == "ping" then w.get(t.line.args[0]) == Body(t.line.args[1])
      else w.exec(t.line.args[0], t.line.args[1..]).err == None
  {
    RunConcerning(t, w);
    if t.Failure(w).Some? {
      assert |Concerning(t.RunTrace(w), t)| == 3;
    }
  }

  /**
   * For a scheduler in a valid state: a fire of an armed job escalates to
   * every error job, in order, exactly when it fails; a run of an error job
   * never escalates.
   */
  lemma ArmedJobEscalates(s: Scheduler, t: Task, w: World)
    requires s.Valid()
    requires t in s.armed
    ensures t.Bound()
    ensures Invocations(t.RunTrace(w)) == [t] + if t.Failure(w).Some? then s.errorJobs else []
  {
    RunInvocations(t, w);
  }

  lemma ErrorJobStaysPut(s: Scheduler, e: Task, w: World)
    requires s.Valid()
    requires e in s.errorJobs
    ensures e.Bound()
    ensures e.RunTrace(w) == e.OwnTrace(w)
    ensures Invocations(e.RunTrace(w)) == [e]
  {
    RunInvocations(e, w);
  }
}
