/**
 * The two actions a task can perform, with the outside world they talk to
 * (an HTTP server, the operating system's processes) given as an oracle.
 */
module Actions {
  import opened Wrappers
  import opened Config

  /** What `http.Get` of a URL followed by reading the whole body yields. */
  datatype HttpResult =
    | GetFailed(msg: string)   // `http.Get` returned an error
    | ReadFailed(msg: string)  // reading the response body failed
    | Body(text: string)       // the body, read in full

  /** What running a command and collecting its combined output yields. */
  datatype ExecResult = ExecResult(err: Option<string>, output: string)

  /** The answers the world gives: to a GET of a URL, and to running a command with arguments. */
  datatype World = World(get: string -> HttpResult, exec: (string, seq<string>) -> ExecResult)

  /** The errors a run reports through its failure callback. */
  datatype RunError =
    | AlreadyRunning                         // `alreadyRunningError`
    | Transport(msg: string)                 // the GET failed
    | BodyRead(msg: string)                  // the body could not be read
    | Mismatch(expected: string, got: string)
    | ExecFailed(msg: string, output: string)

  /**
   * Performs the action of `line` against the world and returns the error
   * it ends with, if any. A ping GETs `args[0]` and succeeds only when the
   * body is exactly `args[1]`; an exec runs `args[0]` with the remaining
   * arguments and succeeds only when the command reports no error.
   */
  function Perform(line: ConfigLine, w: World): (r: Option<RunError>)
    requires line.Runnable()
    ensures r != Some(AlreadyRunning)
  {
    if line.do == "ping" then
      match w.get(line.args[0])
      case GetFailed(m) => Some(Transport(m))
      case ReadFailed(m) => Some(BodyRead(m))
      case Body(text) => if text != line.args[1] then Some(Mismatch(line.args[1], text)) else None
    else
      var res := w.exec(line.args[0], line.args[1..]);
      if res.err.Some? then Some(ExecFailed(res.err.value, res.output)) else None
  }

  /**
   * A ping succeeds exactly when the GET and the read succeed and the body
   * equals `args[1]`, and a mismatch reports both bodies; an exec succeeds
   * exactly when the command reports no error.
   */
  lemma PerformSucceedsIff(line: ConfigLine, w: World)
    requires line.Runnable()
    ensures Perform(line, w) == None <==>
      (line.do == "ping" && w.get(line.args[0]) == Body(line.args[1])) ||
      (line.do == "exec" && w.exec(line.args[0], line.args[1..]).err == None)
    ensures line.do == "ping" && w.get(line.args[0]).Body? && Perform(line, w) != None ==>
      Perform(line, w) == Some(Mismatch(line.args[1], w.get(line.args[0]).text))
  {
  }
}
