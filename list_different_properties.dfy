/** What the list-different mode promises, stated over the model: the
    per-file decision table, one alert per failing file, an order-independent
    verdict, and the independence of each file's outcome from its siblings. */
module ListDifferentProperties {
  import opened Collaborators
  import opened ListDifferent

  // ---------------------------------------------------------------------------
  // The decision table of one check

  /** When no declaration is needed the check passes without locating the
      declaration path or looking at the disk, whatever the disk holds. */
  lemma NoDeclarationPassesWhateverIsOnDisk<O>(
    file: Path, options: O, env: Env<O>,
    locate: (Path, O) -> Path, pathExists: Path -> bool, contents: Path -> Attempt<string>)
    requires Expected(file, options, env).Done?
    requires !NeedsDeclaration(Expected(file, options, env).value)
    ensures CheckFile(file, options, env) == Check(Pass, [], [])
    ensures CheckFile(file, options, Env(env.classNames, env.typeDefinition, locate, pathExists, contents))
            == Check(Pass, [], [])
  {
  }

  /** A needed declaration whose file is absent fails with one error naming
      the stylesheet, and its content is never read. */
  lemma MissingDeclarationFails<O>(file: Path, options: O, env: Env<O>)
    requires Expected(file, options, env).Done?
    requires NeedsDeclaration(Expected(file, options, env).value)
    requires !env.pathExists(env.typeDefinitionPath(file, options))
    ensures var path := env.typeDefinitionPath(file, options);
            CheckFile(file, options, env)
            == Check(Fail(MissingTypes), [Error(file, MissingTypes)], [Located(path), ExistsChecked(path)])
  {
  }

  /** A declaration file whose text differs from the declaration in any way
      fails with one error naming the stylesheet. */
  lemma StaleDeclarationFails<O>(file: Path, options: O, env: Env<O>, content: string)
    requires Expected(file, options, env).Done?
    requires NeedsDeclaration(Expected(file, options, env).value)
    requires env.pathExists(env.typeDefinitionPath(file, options))
    requires env.contents(env.typeDefinitionPath(file, options)) == Done(content)
    requires content != Expected(file, options, env).value.value
    ensures var path := env.typeDefinitionPath(file, options);
            CheckFile(file, options, env)
            == Check(Fail(StaleTypes), [Error(file, StaleTypes)],
                     [Located(path), ExistsChecked(path), ContentRead(path)])
  {
  }

  /** Equality is exact: a declaration file that only adds one trailing
      character (a newline, say) to the declaration is stale. */
  lemma TrailingCharacterIsStale<O>(file: Path, options: O, env: Env<O>, extra: char)
    requires Expected(file, options, env).Done?
    requires NeedsDeclaration(Expected(file, options, env).value)
    requires env.pathExists(env.typeDefinitionPath(file, options))
    requires env.contents(env.typeDefinitionPath(file, options))
             == Done(Expected(file, options, env).value.value + [extra])
    ensures CheckFile(file, options, env).outcome == Fail(StaleTypes)
  {
  }

  /** A declaration file holding exactly the declaration passes silently. */
  lemma MatchingDeclarationPasses<O>(file: Path, options: O, env: Env<O>)
    requires Expected(file, options, env).Done?
    requires NeedsDeclaration(Expected(file, options, env).value)
    requires env.pathExists(env.typeDefinitionPath(file, options))
    requires env.contents(env.typeDefinitionPath(file, options))
             == Done(Expected(file, options, env).value.value)
    ensures CheckFile(file, options, env).outcome == Pass
    ensures CheckFile(file, options, env).alerts == []
  {
  }

  /** Extraction, generation or the read throwing fails the check with one
      error naming the stylesheet; the check itself still settles. */
  lemma ThrowingCollaboratorFails<O>(file: Path, options: O, env: Env<O>)
    requires || Expected(file, options, env).Threw?
             || (&& NeedsDeclaration(Expected(file, options, env).value)
                 && env.pathExists(env.typeDefinitionPath(file, options))
                 && env.contents(env.typeDefinitionPath(file, options)).Threw?)
    ensures CheckFile(file, options, env).outcome == Fail(CheckFailed)
    ensures CheckFile(file, options, env).alerts == [Error(file, CheckFailed)]
  {
  }

  /** Extraction succeeding and generation rejecting fails the check with one
      error, before any call on the declaration path. */
  lemma RejectingGenerationFails<O>(file: Path, options: O, env: Env<O>)
    requires env.classNames(file, options).Done?
    requires env.typeDefinition(env.classNames(file, options).value, options).Threw?
    ensures CheckFile(file, options, env) == Check(Fail(CheckFailed), [Error(file, CheckFailed)], [])
  {
  }

  /** A read of an existing declaration file that throws fails the check with
      one error, after locating, testing and reading the path. */
  lemma ThrowingReadFails<O>(file: Path, options: O, env: Env<O>)
    requires Expected(file, options, env).Done?
    requires NeedsDeclaration(Expected(file, options, env).value)
    requires env.pathExists(env.typeDefinitionPath(file, options))
    requires env.contents(env.typeDefinitionPath(file, options)).Threw?
    ensures var path := env.typeDefinitionPath(file, options);
            CheckFile(file, options, env)
            == Check(Fail(CheckFailed), [Error(file, CheckFailed)],
                     [Located(path), ExistsChecked(path), ContentRead(path)])
  {
  }

  // ---------------------------------------------------------------------------
  // Alerts of a whole run

  lemma {:induction false} CheckAlertsAppend<O>(a: seq<Path>, b: seq<Path>, options: O, env: Env<O>)
    ensures CheckAlerts(a + b, options, env) == CheckAlerts(a, options, env) + CheckAlerts(b, options, env)
  {
    if a == [] {
      assert a + b == b;
    } else {
      assert (a + b)[1..] == a[1..] + b;
      CheckAlertsAppend(a[1..], b, options, env);
    }
  }

  /** The checks emit exactly one alert per failing file, naming that file,
      and none for passing files. */
  lemma {:induction false} OneAlertPerFailure<O>(files: seq<Path>, options: O, env: Env<O>)
    ensures |CheckAlerts(files, options, env)| == multiset(Results(files, options, env))[false]
    ensures forall i | 0 <= i < |files| && !CheckFile(files[i], options, env).Passed() ::
              Error(files[i], CheckFile(files[i], options, env).outcome.problem)
              in CheckAlerts(files, options, env)
  {
    if files != [] {
      OneAlertPerFailure(files[1..], options, env);
      var results := Results(files, options, env);
      assert results == [results[0]] + Results(files[1..], options, env);
      forall i | 0 < i < |files| ensures files[1..][i - 1] == files[i] { }
    }
  }

  /** A non-empty run alerts once per `false` result and names every failing
      file; an empty one alerts the single notice and nothing else. */
  lemma RunAlertsOncePerFailure<O>(files: seq<Path>, options: O, env: Env<O>)
    ensures var r := RunListDifferent(files, options, env);
            && (files == [] ==> r.alerts == [Notice(NoFilesFound)])
            && (files != [] ==> |r.alerts| == multiset(r.results)[false])
            && forall i | 0 <= i < |files| && !r.results[i] ::
                 Error(files[i], CheckFile(files[i], options, env).outcome.problem) in r.alerts
  {
    OneAlertPerFailure(files, options, env);
  }

  // ---------------------------------------------------------------------------
  // The order of the files does not matter

  lemma {:induction false} ResultsAppend<O>(a: seq<Path>, b: seq<Path>, options: O, env: Env<O>)
    ensures Results(a + b, options, env) == Results(a, options, env) + Results(b, options, env)
  {
    if a == [] {
      assert a + b == b;
    } else {
      assert (a + b)[0] == a[0];
      assert (a + b)[1..] == a[1..] + b;
      ResultsAppend(a[1..], b, options, env);
    }
  }

  /** Removing one file from a list removes exactly that file's alerts. */
  lemma RemoveOneAlerts<O>(files: seq<Path>, j: nat, options: O, env: Env<O>)
    requires j < |files|
    ensures multiset(CheckAlerts(files, options, env))
            == multiset(CheckFile(files[j], options, env).alerts)
               + multiset(CheckAlerts(files[..j] + files[j + 1..], options, env))
  {
    var before, file, after := files[..j], files[j], files[j + 1..];
    assert files == before + ([file] + after);
    assert [file][1..] == [];
    CheckAlertsAppend(before, [file] + after, options, env);
    CheckAlertsAppend([file], after, options, env);
    CheckAlertsAppend(before, after, options, env);
  }

  /** Removing one file from a list removes exactly that file's result. */
  lemma RemoveOneResult<O>(files: seq<Path>, j: nat, options: O, env: Env<O>)
    requires j < |files|
    ensures multiset(Results(files, options, env))
            == multiset{CheckFile(files[j], options, env).Passed()}
               + multiset(Results(files[..j] + files[j + 1..], options, env))
  {
    var before, file, after := files[..j], files[j], files[j + 1..];
    assert files == before + ([file] + after);
    ResultsAppend(before, [file] + after, options, env);
    ResultsAppend([file], after, options, env);
    ResultsAppend(before, after, options, env);
  }

  /** Taking the first file off one list and the same file off a permutation
      of it leaves two lists that are still permutations of each other. */
  lemma RestIsPermutation(files: seq<Path>, files': seq<Path>, j: nat)
    requires files != [] && j < |files'| && files'[j] == files[0]
    requires multiset(files) == multiset(files')
    ensures multiset(files[1..]) == multiset(files'[..j] + files'[j + 1..])
  {
    var rest := files'[..j] + files'[j + 1..];
    assert files' == files'[..j] + [files[0]] + files'[j + 1..];
    assert files == [files[0]] + files[1..];
    forall y ensures multiset(files[1..])[y] == multiset(rest)[y] {
      assert multiset(files)[y] == multiset(files')[y];
    }
  }

  /** A permutation of the files emits the same alerts, counted with
      multiplicity. */
  lemma {:induction false} AlertsIgnoreOrder<O>(files: seq<Path>, files': seq<Path>, options: O, env: Env<O>)
    requires multiset(files) == multiset(files')
    ensures multiset(CheckAlerts(files, options, env)) == multiset(CheckAlerts(files', options, env))
  {
    if files == [] {
      assert files' == [];
    } else {
      assert files[0] in multiset(files');
      var j :| 0 <= j < |files'| && files'[j] == files[0];
      RestIsPermutation(files, files', j);
      AlertsIgnoreOrder(files[1..], files'[..j] + files'[j + 1..], options, env);
      RemoveOneAlerts(files', j, options, env);
      RemoveOneAlerts(files, 0, options, env);
      assert files[..0] + files[1..] == files[1..];
    }
  }

  /** A permutation of the files gives the same results, counted with
      multiplicity. */
  lemma {:induction false} ResultsIgnoreOrder<O>(files: seq<Path>, files': seq<Path>, options: O, env: Env<O>)
    requires multiset(files) == multiset(files')
    ensures multiset(Results(files, options, env)) == multiset(Results(files', options, env))
  {
    if files == [] {
      assert files' == [];
    } else {
      assert files[0] in multiset(files');
      var j :| 0 <= j < |files'| && files'[j] == files[0];
      RestIsPermutation(files, files', j);
      ResultsIgnoreOrder(files[1..], files'[..j] + files'[j + 1..], options, env);
      RemoveOneResult(files', j, options, env);
      RemoveOneResult(files, 0, options, env);
      assert files[..0] + files[1..] == files[1..];
    }
  }

  /** Checking the same files in another order gives the same exit status,
      the same results counted with multiplicity and the same alerts. */
  lemma VerdictIgnoresOrder<O>(files: seq<Path>, files': seq<Path>, options: O, env: Env<O>)
    requires multiset(files) == multiset(files')
    ensures var r, r' := RunListDifferent(files, options, env), RunListDifferent(files', options, env);
            && r.status == r'.status
            && multiset(r.results) == multiset(r'.results)
            && multiset(r.alerts) == multiset(r'.alerts)
  {
    AlertsIgnoreOrder(files, files', options, env);
    ResultsIgnoreOrder(files, files', options, env);
    if files == [] {
      assert files' == [];
    } else {
      assert files' != [];
      var r, r' := RunListDifferent(files, options, env), RunListDifferent(files', options, env);
      assert (false in r.results) == (false in multiset(r.results));
      assert (false in r'.results) == (false in multiset(r'.results));
    }
  }

  // ---------------------------------------------------------------------------
  // Isolation

  /** The two environments agree on everything the check of `file` can
      observe: its class names, its declaration, its declaration path and the
      disk at that path. */
  predicate SameFacts<O>(file: Path, options: O, env: Env<O>, env': Env<O>) {
    var path := env.typeDefinitionPath(file, options);
    && env.classNames(file, options) == env'.classNames(file, options)
    && (env.classNames(file, options).Done? ==>
          var names := env.classNames(file, options).value;
          env.typeDefinition(names, options) == env'.typeDefinition(names, options))
    && path == env'.typeDefinitionPath(file, options)
    && env.pathExists(path) == env'.pathExists(path)
    && env.contents(path) == env'.contents(path)
  }

  /** A file's result depends only on what its own check observes: not on the
      other files of the run, their order, or what their collaborators do
      (a sibling whose generation throws changes nothing here). */
  lemma OutcomeIsolated<O>(
    files: seq<Path>, i: nat, files': seq<Path>, j: nat, options: O, env: Env<O>, env': Env<O>)
    requires i < |files| && j < |files'| && files[i] == files'[j]
    requires SameFacts(files[i], options, env, env')
    ensures RunListDifferent(files, options, env).results[i]
            == RunListDifferent(files', options, env').results[j]
  {
  }

  // ---------------------------------------------------------------------------
  // Two concrete runs

  const DeclarationA := "export type X = 'a';"

  /** Collaborators for `a.css` (declaration needed) and `b.css` (none needed),
      where `a.css`'s declaration file holds `onDisk` and `b.css` has none. */
  function SampleEnv(onDisk: string): Env<()> {
    Env(
      (file, _) => Done([file]),
      (names, _) => if names == ["a.css"] then Done(Some(DeclarationA)) else Done(None),
      (file, _) => file + ".d.ts",
      path => path == "a.css.d.ts",
      path => if path == "a.css.d.ts" then Done(onDisk) else Threw(true))
  }

  lemma SampleRunPasses()
    ensures RunListDifferent(["a.css", "b.css"], (), SampleEnv(DeclarationA))
            == Run([true, true], [], Completed)
  {
  }

  lemma SampleRunFailsOnStaleDeclaration()
    ensures RunListDifferent(["a.css", "b.css"], (), SampleEnv("export type X = 'b';"))
            == Run([false, true], [Error("a.css", StaleTypes)], Exited(1))
  {
  }

  // ---------------------------------------------------------------------------
  // A rejection that cannot be serialised

  /** Collaborators under which extraction of every stylesheet rejects with a
      value that `JSON.stringify` cannot render. */
  function UnserialisableEnv(): Env<()> {
    Env(
      (file, _) => Threw(false),
      (names, _) => Done(None),
      (file, _) => file + ".d.ts",
      path => false,
      path => Threw(true))
  }

  /** As written, such a check never settles and alerts nothing; the intended
      check fails it with one error alert. */
  lemma UnserialisableRejectionLeavesCheckUnsettled()
    ensures CheckFileAsWritten("a.css", (), UnserialisableEnv()) == Unsettled
    ensures CheckFile("a.css", (), UnserialisableEnv())
            == Check(Fail(CheckFailed), [Error("a.css", CheckFailed)], [])
  {
  }

  /** As written, a run over such a stylesheet never reaches its verdict; the
      intended run alerts once and exits with status 1. */
  lemma UnserialisableRejectionLeavesRunWithoutVerdict()
    ensures RunAsWritten(["a.css"], (), UnserialisableEnv()) == None
    ensures RunListDifferent(["a.css"], (), UnserialisableEnv())
            == Run([false], [Error("a.css", CheckFailed)], Exited(FailureExitCode))
  {
    assert CheckFileAsWritten(["a.css"][0], (), UnserialisableEnv()).Unsettled?;
  }

  /** The two differ only there: when every rejection of a run can be
      serialised, the run as written reaches the intended verdict. */
  lemma AsWrittenAgreesWhenRejectionsSerialise<O>(files: seq<Path>, options: O, env: Env<O>)
    requires forall i | 0 <= i < |files| :: Caught(files[i], options, env) != Some(false)
    ensures RunAsWritten(files, options, env) == Some(RunListDifferent(files, options, env))
  {
  }
}
