/**
 * runtime/runtime.go: building a component from a registered bootloader.
 * A bootloader is given by what each of its steps answers: the flag set's
 * verdict on the arguments, ValidateFlags, Boot and Instance.
 */
module RuntimeBuild {
  import opened Wrappers
  import opened Component

  /** Every option with a "--" prefix, in the same order. */
  function Dashed(opts: seq<string>): (r: seq<string>)
    ensures |r| == |opts|
    ensures forall i :: 0 <= i < |opts| ==> r[i] == "--" + opts[i]
  {
    if opts == [] then [] else ["--" + opts[0]] + Dashed(opts[1..])
  }

  /** addDash: builds the dashed options by appending one at a time. */
  method AddDash(opts: seq<string>) returns (r: seq<string>)
    ensures r == Dashed(opts)
  {
    r := [];
    var i := 0;
    while i < |opts|
      invariant 0 <= i <= |opts|
      invariant |r| == i
      invariant forall j :: 0 <= j < i ==> r[j] == "--" + opts[j]
    {
      r := r + ["--" + opts[i]];
      i := i + 1;
    }
  }

  /**
   * A bootloader: parseFlags is the flag set's answer to the arguments after
   * its flags were added (an error text or none); validate and boot are the
   * errors ValidateFlags and Boot return; instance is what Instance returns.
   */
  datatype Bootloader<T> = Bootloader(
    parseFlags: seq<string> -> Option<string>,
    validate: Option<string>,
    boot: Option<string>,
    instance: T)

  datatype BuildError =
    | LoaderError(loaderError: ContainerError)
    | FlagError(flagError: string)
    | ValidateError(validateError: string)
    | BootError(bootError: string)

  /** The steps Build went through, in order. */
  datatype Step = LoadStep | ParseStep(args: seq<string>) | ValidateStep | BootStep | InstanceStep

  /** What Build does with a bootloader once it is found. */
  function Expected<T>(bl: Bootloader<T>, args: seq<string>): (Result<T, BuildError>, seq<Step>) {
    if bl.parseFlags(args).Some? then (Err(FlagError(bl.parseFlags(args).value)), [LoadStep, ParseStep(args)])
    else if bl.validate.Some? then (Err(ValidateError(bl.validate.value)), [LoadStep, ParseStep(args), ValidateStep])
    else if bl.boot.Some? then (Err(BootError(bl.boot.value)), [LoadStep, ParseStep(args), ValidateStep, BootStep])
    else (Ok(bl.instance), [LoadStep, ParseStep(args), ValidateStep, BootStep, InstanceStep])
  }

  /** ApplyToComponent: parse the dashed options, then validate. */
  method ApplyToComponent<T>(bl: Bootloader<T>, options: seq<string>) returns (err: Option<BuildError>, steps: seq<Step>)
    ensures bl.parseFlags(Dashed(options)).Some? ==>
      err == Some(FlagError(bl.parseFlags(Dashed(options)).value)) && steps == [ParseStep(Dashed(options))]
    ensures bl.parseFlags(Dashed(options)).None? ==>
      steps == [ParseStep(Dashed(options)), ValidateStep] &&
      err == (if bl.validate.Some? then Some(ValidateError(bl.validate.value)) else None)
  {
    var args := AddDash(options);
    var pe := bl.parseFlags(args);
    if pe.Some? {
      return Some(FlagError(pe.value)), [ParseStep(args)];
    }
    if bl.validate.Some? {
      return Some(ValidateError(bl.validate.value)), [ParseStep(args), ValidateStep];
    }
    return None, [ParseStep(args), ValidateStep];
  }

  /**
   * Builder.Build: a loader lookup error is returned before anything else
   * runs; a flag or validation error returns before Boot; a Boot error
   * returns before Instance; otherwise Instance() is the result.
   */
  method Build<T>(reg: Container<Bootloader<T>>, typ: TypeName, name: string, options: seq<string>)
    returns (r: Result<T, BuildError>, steps: seq<Step>)
    ensures Get(reg.mm, typ, name).None? ==>
      steps == [LoadStep] &&
      r == Err(LoaderError(if typ in reg.mm then DriverNotFound(typ, name) else NoDriverRegistered(typ)))
    ensures Get(reg.mm, typ, name).Some? ==> (r, steps) == Expected(Get(reg.mm, typ, name).value, Dashed(options))
  {
    var loader := GetLoader(reg, typ, name);
    if loader.Err? {
      return Err(LoaderError(loader.error)), [LoadStep];
    }
    var bl := loader.value;
    var err, applied := ApplyToComponent(bl, options);
    steps := [LoadStep] + applied;
    if err.Some? {
      if bl.parseFlags(Dashed(options)).Some? {
        assert steps == [LoadStep, ParseStep(Dashed(options))];
      } else {
        assert steps == [LoadStep, ParseStep(Dashed(options)), ValidateStep];
      }
      return Err(err.value), steps;
    }
    assert steps == [LoadStep, ParseStep(Dashed(options)), ValidateStep];
    if bl.boot.Some? {
      assert steps + [BootStep] == [LoadStep, ParseStep(Dashed(options)), ValidateStep, BootStep];
      return Err(BootError(bl.boot.value)), steps + [BootStep];
    }
    assert steps + [BootStep, InstanceStep] == [LoadStep, ParseStep(Dashed(options)), ValidateStep, BootStep, InstanceStep];
    return Ok(bl.instance), steps + [BootStep, InstanceStep];
  }

  /** Boot is reached only when parsing and validation succeeded; Instance only after a successful Boot. */
  lemma StepsOrdered<T>(bl: Bootloader<T>, args: seq<string>)
    ensures BootStep in Expected(bl, args).1 <==> bl.parseFlags(args).None? && bl.validate.None?
    ensures InstanceStep in Expected(bl, args).1 <==> Expected(bl, args).0.Ok?
    ensures Expected(bl, args).0.Ok? <==> bl.parseFlags(args).None? && bl.validate.None? && bl.boot.None?
  {
  }
}
