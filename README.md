# typed-scss-modules: the list-different check

This project models the `listDifferent` mode of typed-scss-modules in Dafny.
The mode takes every stylesheet a pattern matches and regenerates the
TypeScript declaration that belongs to it. It then compares that declaration
with the declaration file on disk. A stylesheet fails when its declaration
file is missing, when the file's text differs from the declaration, or when
computing the declaration or reading the file throws. The run exits with
status 1 when any stylesheet fails. A pattern matching nothing prints one
notice and ends normally.

Files:

- `collaborators.dfy` (module `Collaborators`): the calls the check makes into
  code outside the model. These are class-name extraction, declaration
  generation, declaration path derivation, `existsSync` and `readFileSync`. They are
  fields of an `Env` value, each a total function of its arguments. A call
  that may throw returns `Attempt`, which is `Done(value)` or `Threw`.
- `list_different.dfy` (module `ListDifferent`): `CheckFile` is the check of
  one stylesheet and `RunListDifferent` is the whole run. `CheckFile` returns
  the outcome, the alerts it emitted and the collaborator calls it made after
  generation. `RunListDifferent` returns the per-file results, all alerts and
  the process status. `UpToDate` is an independent, declarative definition of
  a passing stylesheet.
- `list_different_properties.dfy` (module `ListDifferentProperties`): these
  lemmas state the decision table of one check, one alert per failing file,
  that the verdict does not depend on the order of the files, and that each
  file's outcome depends only on that file's own collaborators. Two concrete
  runs are proved as well.

Two behaviours of the code that are easy to miss, both modelled as written:

- The check skips the disk when `!typeDefinition` holds (line 44). That is
  JavaScript falsiness, so an empty declaration text behaves like "no
  declaration needed": the check passes and never looks at the disk. The
  predicate `NeedsDeclaration` captures this.
- `readFileSync` (line 60) runs inside the `then` callback, so a throwing read is
  caught at line 70. The check then fails with the same error alert as a
  failing generation.

The check runs the same function on equal inputs, so running it twice with
no change on disk gives the same outcomes.

## Model

| member | source | states |
|---|---|---|
| ListDifferent.NeedsDeclaration | lib/core/list-different.ts:44 | the generated declaration counts as "none needed" exactly for the two falsy values a string-or-null result can take: no text and the empty text |
| ListDifferent.Expected | lib/core/list-different.ts:37-42 | a rejection of class-name extraction propagates with its value; otherwise the result is generation's answer for the extracted class names under the run's options |
| ListDifferent.CheckFile | lib/core/list-different.ts:32-77 | with the catch handler reporting every rejection, a check passes iff the stylesheet is up to date: its declaration can be computed and, if one is needed, a file holding exactly that text exists at the declaration path. A passing check emits no alert; a failing one emits exactly one error, which names the stylesheet and its problem. Every call after generation is about the declaration path. The content is read only if `existsSync` said the path exists, and a read always comes after locating and testing it, in that order |
| ListDifferent.Results | lib/core/list-different.ts:25 | one result per matched file, in order; result i is the check of file i under the run's one set of options |
| ListDifferent.CheckAlerts | lib/core/list-different.ts:25 | every alert of a non-empty run is an error that names a matched file whose check failed |
| ListDifferent.RunListDifferent | lib/core/list-different.ts:12-30 | an empty match set gives no results, exactly the notice "No files found." and a normal end. Otherwise there is one result per file, no notice, and the alerts are exactly those of the per-file checks. The status is a normal end or exit 1, and it is exit 1 iff some file's check fails |
| ListDifferentProperties.NoDeclarationPassesWhateverIsOnDisk | lib/core/list-different.ts:44-48 | when generation yields no declaration (or the empty text), the check passes with no alert and no call after generation, for every choice of path derivation and disk contents |
| ListDifferentProperties.MissingDeclarationFails | lib/core/list-different.ts:50-58 | a needed declaration with no file at its path fails as missing, with one error naming the stylesheet; the path is located and tested but never read |
| ListDifferentProperties.StaleDeclarationFails | lib/core/list-different.ts:60-66 | an existing declaration file whose text differs from the declaration fails as stale, with one error naming the stylesheet, after locating, testing and reading the path |
| ListDifferentProperties.TrailingCharacterIsStale | lib/core/list-different.ts:62 | equality is exact string equality: a file that holds the declaration plus one trailing character fails as stale |
| ListDifferentProperties.MatchingDeclarationPasses | lib/core/list-different.ts:60-68 | an existing declaration file holding exactly the declaration passes with no alert |
| ListDifferentProperties.ThrowingCollaboratorFails | lib/core/list-different.ts:70-75 | when extraction or generation throws, or the read of an existing declaration file throws, the check settles as failed, with exactly one error naming the stylesheet |
| ListDifferentProperties.RejectingGenerationFails | lib/core/list-different.ts:38-42 | extraction succeeding and generation rejecting fails the check with one error naming the stylesheet, and nothing is located, tested or read |
| ListDifferentProperties.ThrowingReadFails | lib/core/list-different.ts:60 | a needed declaration whose existing file cannot be read fails the check with one error naming the stylesheet, after locating, testing and reading the path |
| ListDifferentProperties.OneAlertPerFailure | lib/core/list-different.ts:53-75 | the checks of a file list emit as many alerts as there are `false` results, and each failing file's error is among them |
| ListDifferentProperties.RunAlertsOncePerFailure | lib/core/list-different.ts:19-29 | an empty run alerts only the notice; a non-empty run alerts once per `false` result and names every failing file |
| ListDifferentProperties.AlertsIgnoreOrder | lib/core/list-different.ts:25 | two file lists that are permutations of each other emit the same alerts, counted with multiplicity |
| ListDifferentProperties.ResultsIgnoreOrder | lib/core/list-different.ts:25 | two file lists that are permutations of each other give the same results, counted with multiplicity |
| ListDifferentProperties.VerdictIgnoresOrder | lib/core/list-different.ts:25-28 | reordering the matched files does not change the exit status, the multiset of results or the multiset of alerts |
| ListDifferentProperties.OutcomeIsolated | lib/core/list-different.ts:25-41 | a file's result is the same in any run that contains it, in any position, whatever the other files are and whatever their collaborators do, as long as this file's own collaborators answer the same |
| ListDifferentProperties.SampleRunPasses | lib/core/list-different.ts:12-77 | `a.css` has a declaration whose file holds exactly that text and `b.css` has none and no file: both pass, nothing is alerted and the run ends normally |
| ListDifferent.Caught | lib/core/list-different.ts:70 | a rejection reaches the catch handler exactly when the check fails with `CheckFailed`; the result says whether its value can be serialised |
| ListDifferent.CheckFileAsWritten | lib/core/list-different.ts:70-75 | as written, a check stays unsettled exactly when the caught rejection cannot be serialised by `JSON.stringify`; in every other case it resolves to `CheckFile`'s result. Only a check that the intended model fails with `CheckFailed` can stay unsettled, so a check that should pass always resolves, and resolves as passing |
| ListDifferent.RunAsWritten | lib/core/list-different.ts:25-29 | as written, a run reaches no verdict exactly when some file's check stays unsettled; otherwise it is `RunListDifferent`'s run. A run that stalls before line 27 is never empty, and its intended status is always exit 1 |
| ListDifferentProperties.UnserialisableRejectionLeavesCheckUnsettled | lib/core/list-different.ts:70-75 | an extraction rejecting with an unserialisable value leaves the check as written unsettled with no alert, while the intended check fails it with one error |
| ListDifferentProperties.UnserialisableRejectionLeavesRunWithoutVerdict | lib/core/list-different.ts:25-29 | a run over one such stylesheet never reaches line 27 as written, while the intended run alerts once and exits with status 1 |
| ListDifferentProperties.AsWrittenAgreesWhenRejectionsSerialise | lib/core/list-different.ts:70-75 | when every caught rejection of a run can be serialised, the run as written reaches exactly the intended verdict |
| ListDifferentProperties.SampleRunFailsOnStaleDeclaration | lib/core/list-different.ts:12-77 | the same run with `a.css`'s file holding other text: `a.css` fails, one stale-types error names it, `b.css` passes and the run exits with status 1 |

## Findings

| source | as written | input that shows it | evidently intended | confidence | as-written member | corrected member |
|---|---|---|---|---|---|---|
| lib/core/list-different.ts:70-75 | the catch handler builds its message with `JSON.stringify(error)` before it alerts and resolves. If that call throws, the handler throws: no alert is emitted, `resolve(false)` never runs, and the check's promise never settles. `Promise.all` at line 25 then never settles and line 27 is never reached. The handler's own rejection is unhandled, so Node's unhandled-rejection mode decides how the process ends; that is runtime behaviour outside this source. In the default mode (`throw`, since Node 15) the process ends with status 1 and a stack trace instead of the "An error occurred checking" alert, and stylesheets whose checks are still running may never alert. In `warn` mode the event loop drains and the process exits with status 0, so a stylesheet that should fail passes | extraction of a stylesheet rejects with a circular object or a BigInt | every rejection gives one error alert and the result `false`, so the run exits with status 1 | not executed; medium | ListDifferentProperties.UnserialisableRejectionLeavesRunWithoutVerdict | ListDifferent.CheckFile |

The rest of the model uses the corrected check, `CheckFile`. `CheckFileAsWritten` and `RunAsWritten` keep the behaviour as written.

## Left out

- Pattern expansion by `fast-glob` (line 17) is a foreign library. The run takes the matched file list as input. The `!files` test (line 19) is modelled only for the empty list, because `glob.sync` returns an array.
- Class-name extraction, declaration generation and declaration path derivation (lines 6-10, 37-42, 50) live in modules that are not part of this model. Each is an arbitrary function in `Env`. Path derivation is modelled as never throwing.
- `existsSync` and `readFileSync` (lines 52, 60) are filesystem I/O. They are functions from a path to a boolean and to the text or a throw, fixed for the whole run. A file changing on disk during a run is not modelled.
- The alert text (lines 54, 63, 72) is left out, and so is what `JSON.stringify(error)` renders; the model keeps only whether it throws. An error alert records only the stylesheet and which of the three problems it reports; the notice keeps its text.
- Concurrency (`Promise.all`, lines 25 and 36) is modelled as checking the files one after the other. The source emits error alerts as checks settle, in an order that scheduling decides. The model emits them in file order. `VerdictIgnoresOrder` shows that the status, the results and the alerts, counted with multiplicity, are the same for every order.
- A synchronous throw from `fileToClassNames` inside the promise executor would reject the promise rather than reach the `catch`. The model treats every extraction failure as a rejection, which the `catch` handles.
- `process.exit(1)` (line 27) is the returned status `Exited(1)`. The model does not cover the process stopping.
