/**
 * The declared part of a task, as decoded from the configuration file:
 * its trigger (`At`), its action kind (`Do`) and the action's arguments
 * (`Args`), together with the checks a reload makes before it adopts a
 * new configuration.
 */
module Config {
  import opened Wrappers

  /** The `At` value that marks an error job: it has no schedule of its own. */
  const ErrorAt := "@error"

  /** One configured task (the exported fields of Go's `ConfigLine`). */
  datatype ConfigLine = ConfigLine(at: string, do: string, args: seq<string>)
  {
    /** The checks of `ConfigLine.Verify`: the action kind and its arity. */
    function Verify(): (r: Option<ConfigError>)
      ensures r == None ==> Runnable()
    {
      if do == "ping" then
        if |args| != 2 then Some(PingArity) else None
      else if do == "exec" then
        if |args| == 0 then Some(ExecArity) else None
      else
        Some(UnknownDo(do))
    }

    /**
     * What running the action needs in order not to panic: a known kind,
     * and the argument slots it indexes (`Args[0]`, `Args[1]`).
     */
    predicate Runnable() {
      (do == "ping" && |args| >= 2) || (do == "exec" && |args| >= 1)
    }

    /** Whether this line belongs to the error jobs rather than the cron schedule. */
    predicate IsErrorLine() {
      at == ErrorAt
    }
  }

  /**
   * `Verify` accepts exactly a ping with two arguments and an exec with at
   * least one; any other kind is rejected with `UnknownDo` naming it.
   */
  lemma VerifyCases(line: ConfigLine)
    ensures line.Verify() == None <==>
      (line.do == "ping" && |line.args| == 2) || (line.do == "exec" && |line.args| >= 1)
    ensures line.Verify() == Some(UnknownDo(line.do)) <==> line.do != "ping" && line.do != "exec"
    ensures line.Verify() == Some(PingArity) <==> line.do == "ping" && |line.args| != 2
    ensures line.Verify() == Some(ExecArity) <==> line.do == "exec" && |line.args| == 0
  {
  }

  /** The decoded configuration (Go's `AppConfig`). */
  datatype AppConfig = AppConfig(utc: bool, tasks: seq<ConfigLine>)

  /** The errors `Verify` returns. */
  datatype ConfigError =
    | PingArity              // "ping" without exactly two arguments
    | ExecArity              // "exec" without a command
    | UnknownDo(do: string)  // the `UnknownDoErr` type
  {
    /** The message of the error (`Error()` of the Go value). */
    function Text(): (r: string)
      ensures UnknownDo? ==> |UnknownDoPrefix| <= |r| && r[..|UnknownDoPrefix|] == UnknownDoPrefix && r[|UnknownDoPrefix|..] == do
      ensures !UnknownDo? ==> |r| > 0 && r[0] == '"'
    {
      match this
      case PingArity => PingArityText
      case ExecArity => ExecArityText
      case UnknownDo(d) => UnknownDoPrefix + d
    }
  }

  const PingArityText := "\"ping\"" + " command must have two arguments: Url, and expected result."
  const ExecArityText := "\"exec\"" + " command must have at least one Args: CMD [ARGS]."
  const UnknownDoPrefix := "unknown \"Do\": "

  /** Different errors have different messages, so the message identifies the error. */
  lemma TextInjective(a: ConfigError, b: ConfigError)
    ensures a.Text() == b.Text() ==> a == b
  {
  }

  /** Why a reload was refused. */
  datatype ReloadError =
    | BadSchedule(at: string)      // the cron parser rejected `At`
    | BadTask(cause: ConfigError)  // `Verify` rejected the line

  /**
   * The check one line must pass during a reload. A line that is not an
   * error job must have a parseable `At`, which is tested before the
   * result of `Verify` is looked at; every line must pass `Verify`.
   */
  function CheckLine(line: ConfigLine, parses: string -> bool): Option<ReloadError>
  {
    if !line.IsErrorLine() && !parses(line.at) then Some(BadSchedule(line.at))
    else if line.Verify().Some? then Some(BadTask(line.Verify().value))
    else None
  }

  /** A line that a reload admits. */
  predicate Admissible(line: ConfigLine, parses: string -> bool) {
    line.Verify() == None && (line.IsErrorLine() || parses(line.at))
  }

  /**
   * The outcome of validating a whole configuration: the error of the
   * first line in order that fails, or `None` when all pass.
   */
  function Validate(lines: seq<ConfigLine>, parses: string -> bool): (r: Option<ReloadError>)
  {
    if lines == [] then None
    else if CheckLine(lines[0], parses).Some? then CheckLine(lines[0], parses)
    else Validate(lines[1..], parses)
  }

  /** The error jobs of a configuration, in configuration order. */
  function ErrorLines(lines: seq<ConfigLine>): seq<ConfigLine> {
    if lines == [] then []
    else
      var init := ErrorLines(lines[..|lines| - 1]);
      if lines[|lines| - 1].IsErrorLine() then init + [lines[|lines| - 1]] else init
  }

  /** The scheduled (non-error) jobs of a configuration, in configuration order. */
  function ScheduledLines(lines: seq<ConfigLine>): seq<ConfigLine> {
    if lines == [] then []
    else
      var init := ScheduledLines(lines[..|lines| - 1]);
      if lines[|lines| - 1].IsErrorLine() then init else init + [lines[|lines| - 1]]
  }

  /**
   * A reload is all-or-nothing: validation passes exactly when every line
   * is admissible, error jobs included (they skip only the schedule parse).
   */
  lemma {:induction false} ValidateAllOrNothing(lines: seq<ConfigLine>, parses: string -> bool)
    ensures Validate(lines, parses) == None <==> forall i | 0 <= i < |lines| :: Admissible(lines[i], parses)
  {
    if lines != [] {
      ValidateAllOrNothing(lines[1..], parses);
      assert forall i | 1 <= i < |lines| :: lines[i] == lines[1..][i - 1];
    }
  }

  /**
   * A refused reload reports the error of the first line, in configuration
   * order, that fails its check.
   */
  lemma {:induction false} ValidateFirstFailure(lines: seq<ConfigLine>, parses: string -> bool)
    requires Validate(lines, parses).Some?
    ensures exists i | 0 <= i < |lines| ::
      CheckLine(lines[i], parses) == Validate(lines, parses) &&
      forall j | 0 <= j < i :: Admissible(lines[j], parses)
  {
    if CheckLine(lines[0], parses).Some? {
      assert CheckLine(lines[0], parses) == Validate(lines, parses);
    } else {
      ValidateFirstFailure(lines[1..], parses);
      var i :| 0 <= i < |lines[1..]| &&
        CheckLine(lines[1..][i], parses) == Validate(lines[1..], parses) &&
        forall j | 0 <= j < i :: Admissible(lines[1..][j], parses);
      assert CheckLine(lines[i + 1], parses) == Validate(lines, parses);
      assert forall j | 1 <= j < i + 1 :: lines[j] == lines[1..][j - 1];
    }
  }

  /** Validating a concatenation: the first part's error wins, otherwise the second part decides. */
  lemma {:induction false} ValidateAppend(a: seq<ConfigLine>, b: seq<ConfigLine>, parses: string -> bool)
    ensures Validate(a + b, parses) == if Validate(a, parses).Some? then Validate(a, parses) else Validate(b, parses)
  {
    if a == [] {
      assert a + b == b;
    } else {
      assert (a + b)[0] == a[0] && (a + b)[1..] == a[1..] + b;
      ValidateAppend(a[1..], b, parses);
    }
  }

  /**
   * Every line of a configuration lands in exactly one of the two lists:
   * the error jobs and the scheduled jobs together are the whole
   * configuration, line for line.
   */
  lemma {:induction false} PartitionLines(lines: seq<ConfigLine>)
    ensures multiset(ErrorLines(lines)) + multiset(ScheduledLines(lines)) == multiset(lines)
    ensures |ErrorLines(lines)| + |ScheduledLines(lines)| == |lines|
  {
    if lines != [] {
      var n := |lines| - 1;
      PartitionLines(lines[..n]);
      assert lines == lines[..n] + [lines[n]];
    }
  }

  /**
   * The error jobs are lines of the configuration marked `@error`, and the
   * scheduled jobs are lines of the configuration not so marked.
   */
  lemma {:induction false} SplitSound(lines: seq<ConfigLine>)
    ensures forall l | l in ErrorLines(lines) :: l in lines && l.IsErrorLine()
    ensures forall l | l in ScheduledLines(lines) :: l in lines && !l.IsErrorLine()
  {
    if lines != [] {
      var init := lines[..|lines| - 1];
      SplitSound(init);
      assert forall l | l in init :: l in lines;
    }
  }

  /** Adding one line to a configuration adds it to exactly one side of the split. */
  lemma SplitOne(prefix: seq<ConfigLine>, l: ConfigLine)
    ensures ErrorLines(prefix + [l]) == ErrorLines(prefix) + (if l.IsErrorLine() then [l] else [])
    ensures ScheduledLines(prefix + [l]) == ScheduledLines(prefix) + (if l.IsErrorLine() then [] else [l])
  {
    assert (prefix + [l])[..|prefix|] == prefix;
  }

  /**
   * The configuration in force after a series of loads: the last one that
   * decoded (`Some`) and passed validation.
   */
  function LastAccepted(loads: seq<Option<AppConfig>>, parses: string -> bool): (r: Option<AppConfig>)
    ensures r.Some? ==> r in loads && Validate(r.value.tasks, parses) == None
  {
    if loads == [] then None
    else
      var last := loads[|loads| - 1];
      if last.Some? && Validate(last.value.tasks, parses) == None then last
      else LastAccepted(loads[..|loads| - 1], parses)
  }

  /** The configuration written out when none exists yet. */
  const SampleConfig := AppConfig(false, [
    ConfigLine(ErrorAt, "ping", ["http://hitthisurl.com/error", "OK"]),
    ConfigLine("0 5 * * * *", "ping", ["http://hitthisurl.com/here", "OK"]),
    ConfigLine("@every 1h30m", "ping", ["http://hitthisurl.com/here", "OK"])
  ])

  /** The sample configuration passes validation and has one error job. */
  lemma SampleAccepted(parses: string -> bool)
    requires parses("0 5 * * * *") && parses("@every 1h30m")
    ensures Validate(SampleConfig.tasks, parses) == None
    ensures ErrorLines(SampleConfig.tasks) == SampleConfig.tasks[..1]
    ensures ScheduledLines(SampleConfig.tasks) == SampleConfig.tasks[1..]
  {
    var t := SampleConfig.tasks;
    assert t[0].at == ErrorAt;
    assert t[1].at[0] == '0' && t[2].at[0] == '@' && t[2].at[1] == 'e' && ErrorAt[1] == 'e';
    assert t[1].at != ErrorAt && |t[2].at| != |ErrorAt|;
    assert forall i | 0 <= i < 3 :: Admissible(t[i], parses);
    ValidateAllOrNothing(t, parses);
    assert t[..3] == t && t[..3][..2] == t[..2] && t[..2][..1] == t[..1] && t[..1][..0] == [];
    assert ErrorLines(t[..1]) == [t[0]] && ScheduledLines(t[..1]) == [];
    assert ErrorLines(t[..2]) == [t[0]] && ScheduledLines(t[..2]) == [t[1]];
    assert ErrorLines(t) == [t[0]] && ScheduledLines(t) == [t[1], t[2]];
  }
}
