/** The collaborators that the consistency check calls but that are not part of
    this model: stylesheet class-name extraction, declaration generation,
    declaration path derivation and the two filesystem calls. Each is given as
    a total function of its arguments, so that a whole run is a function of the
    file list, the options and one `Env`. */
module Collaborators {

  type Path = string

  /** The class names extracted from one stylesheet. */
  type ClassNames = seq<string>

  datatype Option<+T> = None | Some(value: T)

  /** The settled value of a call that may throw or reject. Of the thrown
      value only one thing matters here: whether `JSON.stringify` can render
      it (it throws on a circular object or a BigInt). */
  datatype Attempt<+T> = Done(value: T) | Threw(serialisable: bool)

  /** The collaborators, as seen from one run under options of type `O`:
      - `classNames`: stylesheet to class names (may reject);
      - `typeDefinition`: class names to declaration text, or no text when
        nothing needs declaring (may reject);
      - `typeDefinitionPath`: where the declaration of a stylesheet lives;
      - `pathExists`: whether a path exists on disk;
      - `contents`: the UTF-8 text at a path (may throw). */
  datatype Env<!O> = Env(
    classNames: (Path, O) -> Attempt<ClassNames>,
    typeDefinition: (ClassNames, O) -> Attempt<Option<string>>,
    typeDefinitionPath: (Path, O) -> Path,
    pathExists: Path -> bool,
    contents: Path -> Attempt<string>)
}
