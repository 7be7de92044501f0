/**
 * What calling a registered action function does, as the dispatch loop
 * sees it: `action.function(ctx=ctx, **action_args)` either returns a value
 * or raises.
 *
 * The Django scaffold runs a temporary directory, subprocesses and file
 * moves; their success or failure is not computed here but given as a
 * `Toolchain` outcome. Everything else is decided by the code: the
 * keyword arguments Python accepts, the default project name, the path
 * the archive ends up at, and which exceptions the function catches.
 */
module Tools {

  import opened Wrappers
  import opened Json
  import opened Registry

  /** The values an action function can return. */
  datatype PyValue = PyNone | PyStr(s: string)

  /** Python truthiness of a returned value. */
  predicate Truthy(v: PyValue) {
    v.PyStr? && |v.s| > 0
  }

  /** The exceptions that can leave an action call. */
  datatype PyError =
    | TypeError       // the call does not match the function's parameters
    | CleanupError    // raised by the `finally` clause of `scaffold_django`

  datatype Outcome = Returned(value: PyValue) | Raised(error: PyError)

  /** How the filesystem and subprocess steps of `scaffold_django` go:
      - `Completes`: every step succeeds;
      - `StepFails`: a step inside the `try` raises (a command exits with
        an error, a file operation fails);
      - `CleanupFails`: the `finally` clause raises (the temporary
        directory was never created, so `temp_dir` is unbound, or removing
        it fails). */
  datatype Toolchain = Completes | StepFails | CleanupFails

  /** The parameter `scaffold_django` takes besides `ctx`. */
  const ProjectNameParameter := "project_name"

  /** The default of `project_name`. */
  const DefaultProjectName := "myproject"

  /** `os.path.join("/tmp", f"{name}.zip")`: the file name is appended to
      `/tmp` with a separator, unless it is itself an absolute path, which
      then replaces `/tmp`. */
  function ArchivePath(name: string): (p: string)
    ensures |p| >= 4 && p[|p| - 4..] == ".zip"
    ensures p[..|p| - 4] == name || p[..|p| - 4] == "/tmp/" + name
    ensures p[..|p| - 4] == name <==> |name| > 0 && name[0] == '/'
  {
    var file := name + ".zip";
    if |file| > 0 && file[0] == '/' then file else "/tmp/" + file
  }

  /** The keyword arguments `**args` adds to a call: `None` when `args` is
      not a mapping, and `**` then raises `TypeError`. */
  function Kwargs(args: Json): Option<map<string, Json>> {
    if args.JObject? then Some(args.members) else None
  }

  /** `scaffold_django(ctx=ctx, **args)`. */
  function InvokeDjango(args: Json, toolchain: Toolchain): Outcome {
    match Kwargs(args)
    case None => Raised(TypeError)
    case Some(kwargs) =>
      if exists key :: key in kwargs && key != ProjectNameParameter then
        // an unexpected keyword, or `ctx` given a second time
        Raised(TypeError)
      else
        var name := if ProjectNameParameter in kwargs then kwargs[ProjectNameParameter] else JString(DefaultProjectName);
        match toolchain
        case CleanupFails => Raised(CleanupError)
        case StepFails => Returned(PyNone)
        case Completes =>
          // a project name that is not a string is passed on to the
          // `startproject` subprocess, which rejects it with an exception
          // the function catches
          if name.JString? then Returned(PyStr(ArchivePath(name.s))) else Returned(PyNone)
  }

  /** `action.function(ctx=ctx, **args)`. `scaffold_react` and
      `scaffold_vue` take no parameters, so the call with `ctx=` raises
      `TypeError` whatever the arguments. */
  function Invoke(f: ActionFunction, args: Json, toolchain: Toolchain): Outcome {
    match f
    case ScaffoldDjango => InvokeDjango(args, toolchain)
    case ScaffoldReact => Raised(TypeError)
    case ScaffoldVue => Raised(TypeError)
  }

  /** A call returns a truthy value exactly when it is `scaffold_django`
      called with at most a string `project_name` and every step succeeds;
      the value is then the archive path under `/tmp`. */
  lemma TruthyOnlyFromDjango(f: ActionFunction, args: Json, toolchain: Toolchain)
    ensures var o := Invoke(f, args, toolchain);
      o.Returned? && Truthy(o.value) <==>
        f == ScaffoldDjango && toolchain == Completes && args.JObject?
        && (forall key :: key in args.members ==> key == ProjectNameParameter)
        && (ProjectNameParameter in args.members ==> args.members[ProjectNameParameter].JString?)
    ensures var o := Invoke(f, args, toolchain);
      o.Returned? && Truthy(o.value) ==>
        o.value.s == ArchivePath(if ProjectNameParameter in args.members then args.members[ProjectNameParameter].s else DefaultProjectName)
  {
  }

  /** Called with no arguments, the Django scaffold either returns the
      default archive `/tmp/myproject.zip`, returns `None` after a failed
      step, or raises from its clean-up. */
  lemma DjangoWithoutArguments(toolchain: Toolchain)
    ensures toolchain == Completes ==> Invoke(ScaffoldDjango, EmptyObject, toolchain) == Returned(PyStr("/tmp/myproject.zip"))
    ensures toolchain == StepFails ==> Invoke(ScaffoldDjango, EmptyObject, toolchain) == Returned(PyNone)
    ensures toolchain == CleanupFails ==> Invoke(ScaffoldDjango, EmptyObject, toolchain) == Raised(CleanupError)
  {
    assert ArchivePath(DefaultProjectName) == "/tmp/myproject.zip";
  }

  /** The only exception besides `TypeError` comes from the Django
      scaffold's clean-up: a failing step inside its `try` is caught. */
  lemma RaisesOnlyFromCleanup(f: ActionFunction, args: Json, toolchain: Toolchain)
    ensures Invoke(f, args, toolchain) == Raised(CleanupError) ==> f == ScaffoldDjango && toolchain == CleanupFails
    ensures toolchain != CleanupFails ==> Invoke(f, args, toolchain) != Raised(CleanupError)
  {
  }
}
