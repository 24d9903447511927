/** The list-different mode: for every stylesheet, regenerate its declaration
    and compare it with the declaration file on disk; fail the run when any
    stylesheet's declaration is missing, stale or cannot be computed. */
module ListDifferent {
  import opened Collaborators

  /** Why one stylesheet failed its check. */
  datatype Problem =
    | MissingTypes  // a declaration is needed but no file exists at its path
    | StaleTypes    // the file exists but its text is not the declaration
    | CheckFailed   // extraction, generation or the read threw

  datatype Outcome = Pass | Fail(problem: Problem)

  /** What is written to the alert channel: the notice's text, or the
      stylesheet an error is about and which error it is. */
  datatype Alert = Notice(message: string) | Error(file: Path, problem: Problem)

  /** The calls one check makes after generation, in order. */
  datatype Step = Located(path: Path) | ExistsChecked(path: Path) | ContentRead(path: Path)

  /** One settled check: its outcome, the alerts it emitted, the calls it made. */
  datatype Check = Check(outcome: Outcome, alerts: seq<Alert>, steps: seq<Step>) {
    predicate Passed() { outcome.Pass? }
  }

  /** How the process ends: normally, or through `process.exit(code)`. */
  datatype Status = Completed | Exited(code: int)

  /** One run: the per-file results, everything alerted, the process status. */
  datatype Run = Run(results: seq<bool>, alerts: seq<Alert>, status: Status)

  const NoFilesFound := "No files found."
  const FailureExitCode := 1

  /** JavaScript truthiness of the generated declaration: both "no text" and
      the empty text mean that no declaration file is needed. */
  predicate NeedsDeclaration(d: Option<string>)
    ensures !NeedsDeclaration(d) <==> d == None || d == Some("")
  {
    d.Some? && d.value != ""
  }

  /** The declaration a stylesheet should have: extraction, then generation.
      A rejection of either call propagates with its value. */
  function Expected<O>(file: Path, options: O, env: Env<O>): (r: Attempt<Option<string>>)
    ensures env.classNames(file, options).Threw? ==>
              r == Threw(env.classNames(file, options).serialisable)
    ensures env.classNames(file, options).Done? ==>
              r == env.typeDefinition(env.classNames(file, options).value, options)
  {
    match env.classNames(file, options)
    case Threw(serialisable) => Threw(serialisable)
    case Done(names) => env.typeDefinition(names, options)
  }

  /** Reference definition of a passing stylesheet: its declaration can be
      computed and, if one is needed, a file holding exactly that text exists
      where the declaration belongs. */
  predicate UpToDate<O>(file: Path, options: O, env: Env<O>) {
    var expected := Expected(file, options, env);
    var path := env.typeDefinitionPath(file, options);
    && expected.Done?
    && (NeedsDeclaration(expected.value) ==>
          env.pathExists(path) && env.contents(path) == Done(expected.value.value))
  }

  function Failed(file: Path, problem: Problem, steps: seq<Step>): Check {
    Check(Fail(problem), [Error(file, problem)], steps)
  }

  /** The check of one stylesheet, with the catch handler reporting every
      rejection: each one becomes a failing outcome with one error alert.
      `CheckFileAsWritten` adds the case where reporting itself throws. */
  function CheckFile<O>(file: Path, options: O, env: Env<O>): (r: Check)
    ensures r.Passed() <==> UpToDate(file, options, env)
    ensures r.Passed() ==> r.alerts == []
    ensures !r.Passed() ==> r.alerts == [Error(file, r.outcome.problem)]
    ensures forall s | s in r.steps :: s.path == env.typeDefinitionPath(file, options)
    ensures ContentRead(env.typeDefinitionPath(file, options)) in r.steps ==>
              env.pathExists(env.typeDefinitionPath(file, options))
    ensures var path := env.typeDefinitionPath(file, options);
            ContentRead(path) in r.steps ==> r.steps == [Located(path), ExistsChecked(path), ContentRead(path)]
  {
    match Expected(file, options, env)
    case Threw(_) => Failed(file, CheckFailed, [])
    case Done(declaration) =>
      if !NeedsDeclaration(declaration) then
        Check(Pass, [], [])
      else
        var path := env.typeDefinitionPath(file, options);
        if !env.pathExists(path) then
          Failed(file, MissingTypes, [Located(path), ExistsChecked(path)])
        else
          var read := [Located(path), ExistsChecked(path), ContentRead(path)];
          match env.contents(path)
          case Threw(_) => Failed(file, CheckFailed, read)
          case Done(content) =>
            if content != declaration.value then Failed(file, StaleTypes, read)
            else Check(Pass, [], read)
  }

  /** The results of checking every file with the same options. */
  function Results<O>(files: seq<Path>, options: O, env: Env<O>): (r: seq<bool>)
    ensures |r| == |files|
    ensures forall i | 0 <= i < |files| :: r[i] == CheckFile(files[i], options, env).Passed()
  {
    if files == [] then []
    else [CheckFile(files[0], options, env).Passed()] + Results(files[1..], options, env)
  }

  /** Every alert the checks of `files` emit, file by file. */
  function CheckAlerts<O>(files: seq<Path>, options: O, env: Env<O>): (r: seq<Alert>)
    ensures forall a | a in r :: a.Error? && a.file in files &&
                                 !CheckFile(a.file, options, env).Passed()
  {
    if files == [] then []
    else CheckFile(files[0], options, env).alerts + CheckAlerts(files[1..], options, env)
  }

  /** A whole run over the files the pattern matched. */
  function RunListDifferent<O>(files: seq<Path>, options: O, env: Env<O>): (r: Run)
    ensures files == [] ==> r == Run([], [Notice(NoFilesFound)], Completed)
    ensures |r.results| == |files|
    ensures forall i | 0 <= i < |files| :: r.results[i] == CheckFile(files[i], options, env).Passed()
    ensures forall a | a in r.alerts :: a.Notice? <==> files == []
    ensures files != [] ==> r.alerts == CheckAlerts(files, options, env)
    ensures r.status == Completed || r.status == Exited(FailureExitCode)
    ensures r.status.Exited? <==>
              exists i | 0 <= i < |files| :: !CheckFile(files[i], options, env).Passed()
  {
    if files == [] then
      Run([], [Notice(NoFilesFound)], Completed)
    else
      var results := Results(files, options, env);
      Run(results, CheckAlerts(files, options, env),
          if false in results then Exited(FailureExitCode) else Completed)
  }

  // ---------------------------------------------------------------------------
  // The catch handler as written

  /** The rejection that reaches the catch handler, if any: whether its value
      can be serialised for the error message. */
  function Caught<O>(file: Path, options: O, env: Env<O>): (r: Option<bool>)
    ensures r.Some? <==> CheckFile(file, options, env).outcome == Fail(CheckFailed)
  {
    match Expected(file, options, env)
    case Threw(serialisable) => Some(serialisable)
    case Done(declaration) =>
      var path := env.typeDefinitionPath(file, options);
      if NeedsDeclaration(declaration) && env.pathExists(path) && env.contents(path).Threw? then
        Some(env.contents(path).serialisable)
      else
        None
  }

  /** How a check as written ends: resolved, or never, because the catch
      handler threw while formatting the rejection and so neither alerted nor
      resolved. */
  datatype Settlement = Resolved(check: Check) | Unsettled

  /** The check as written: a rejection whose value `JSON.stringify` cannot
      render leaves it unsettled with no alert; otherwise it is `CheckFile`. */
  function CheckFileAsWritten<O>(file: Path, options: O, env: Env<O>): (r: Settlement)
    ensures r.Unsettled? <==> Caught(file, options, env) == Some(false)
    ensures r.Unsettled? ==> CheckFile(file, options, env).outcome == Fail(CheckFailed)
    ensures CheckFile(file, options, env).Passed() ==> r == Resolved(CheckFile(file, options, env))
    ensures r.Resolved? ==> r.check == CheckFile(file, options, env)
  {
    if Caught(file, options, env) == Some(false) then Unsettled
    else Resolved(CheckFile(file, options, env))
  }

  /** A run as written: when some check never settles, `Promise.all` never
      settles either and the verdict is never reached (`None`). */
  function RunAsWritten<O>(files: seq<Path>, options: O, env: Env<O>): (r: Option<Run>)
    ensures r.None? <==>
              exists i | 0 <= i < |files| :: CheckFileAsWritten(files[i], options, env).Unsettled?
    ensures r.Some? ==> r.value == RunListDifferent(files, options, env)
    ensures r.None? ==> files != [] && RunListDifferent(files, options, env).status == Exited(FailureExitCode)
  {
    if exists i | 0 <= i < |files| :: CheckFileAsWritten(files[i], options, env).Unsettled? then None
    else Some(RunListDifferent(files, options, env))
  }
}
