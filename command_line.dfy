/**
 * The command-line front end of the Buckle compiler: decoding the argument list into a
 * compiler state, classifying input files by extension, and turning the worst diagnostic
 * severity into the process exit code.
 *
 * The file system is a parameter: which paths are directories (with the files they hold)
 * and which are plain files.
 */
module CommandLine {
  import opened Wrappers
  import opened Strings

  const SuccessExitCode := 0
  const ErrorExitCode := 1
  const FatalExitCode := 2

  /** Diagnostic severities, from least to most severe. */
  datatype Severity = Debug | Info | Warning | Error | Fatal
  {
    function Rank(): nat
    {
      match this
      case Debug => 0
      case Info => 1
      case Warning => 2
      case Error => 3
      case Fatal => 4
    }

    function Name(): string
    {
      match this
      case Debug => "Debug"
      case Info => "Info"
      case Warning => "Warning"
      case Error => "Error"
      case Fatal => "Fatal"
    }
  }

  datatype BuildMode = AutoRun | Repl | Independent | Interpret | Evaluate | Execute | CSharpTranspile | Dotnet

  /** How far an input file has already been compiled, or how far to compile. */
  datatype Stage = Raw | Compiled | Assembled | Finished

  datatype FileState = FileState(inputFileName: string, stage: Stage)

  /** The diagnostics the front end reports. */
  datatype Message =
    | UnrecognizedOption(option: string)
    | MissingFilenameO
    | MissingCodeExplain
    | MissingModuleName(option: string)
    | MissingReference(option: string)
    | MissingSeverity(option: string)
    | UnrecognizedSeverity(text: string)
    | NoSuchFileOrDirectory(path: string)
    | IgnoringUnknownFileType(path: string)
    | ReplInvokeIgnore
    | CannotSpecifyWithDotnet
    | CannotSpecifyWithMultipleFiles
    | CannotSpecifyWithInterpreter
    | CannotInterpretWithMultipleFiles
    | CannotInterpretFile
    | CannotSpecifyModuleNameWithoutDotnet
    | CannotSpecifyReferencesWithoutDotnet
    | NoInputFiles
  {
    /** The severity of the diagnostic class (`Info`, `Error` or `Fatal`) that creates it. */
    function Level(): Severity
    {
      match this
      case IgnoringUnknownFileType(_) => Info
      case ReplInvokeIgnore => Info
      case UnrecognizedOption(_) => Error
      case MissingFilenameO => Error
      case MissingCodeExplain => Error
      case MissingModuleName(_) => Error
      case MissingReference(_) => Error
      case MissingSeverity(_) => Error
      case UnrecognizedSeverity(_) => Error
      case NoSuchFileOrDirectory(_) => Error
      case _ => Fatal
    }
  }

  datatype FileSystem = FileSystem(directories: map<string, seq<string>>, files: set<string>)

  // ---------------------------------------------------------------------------------------
  // Input files

  /** The text after the last '.' of a file name (the whole name when it has no '.'). */
  function Extension(name: string): (r: string)
    ensures '.' !in r
    ensures EndsWith(name, r)
    ensures |r| < |name| ==> name[|name| - |r| - 1] == '.'
  {
    if |name| == 0 || name[|name| - 1] == '.' then ""
    else Extension(name[..|name| - 1]) + [name[|name| - 1]]
  }

  /** A name ending in "." followed by a dot-free extension has exactly that extension. */
  lemma {:induction false} ExtensionOfDotted(base: string, ext: string)
    requires '.' !in ext
    ensures Extension(base + "." + ext) == ext
    decreases |ext|
  {
    if ext == [] {
      assert (base + "." + ext)[|base + "." + ext| - 1] == '.';
    } else {
      var name := base + "." + ext;
      assert name[..|name| - 1] == base + "." + ext[..|ext| - 1];
      ExtensionOfDotted(base, ext[..|ext| - 1]);
    }
  }

  /** The stage a file extension stands for; `None` for an unknown extension. */
  function StageOf(ext: string): Option<Stage>
  {
    if ext == "belte" || ext == "blt" then Some(Raw)
    else if ext == "s" || ext == "asm" then Some(Compiled)
    else if ext == "o" || ext == "obj" then Some(Assembled)
    else if ext == "exe" then Some(Finished)
    else None
  }

  /**
   * Build tasks and diagnostics for a list of file names, in order: a known extension
   * becomes a task, an unknown one an informational diagnostic.
   */
  function Classify(names: seq<string>): (r: (seq<FileState>, seq<Message>))
    ensures |r.0| + |r.1| == |names|
  {
    if |names| == 0 then ([], [])
    else
      var p := Classify(names[..|names| - 1]);
      var n := names[|names| - 1];
      match StageOf(Extension(n))
      case Some(s) => (p.0 + [FileState(n, s)], p.1)
      case None => (p.0, p.1 + [IgnoringUnknownFileType(n)])
  }

  /** Build tasks and diagnostics for one non-option argument. */
  function Resolve(name: string, fs: FileSystem): (r: (seq<FileState>, seq<Message>))
    ensures name !in fs.directories && name !in fs.files ==> r == ([], [NoSuchFileOrDirectory(name)])
    ensures name !in fs.directories && name in fs.files ==>
      |r.0| + |r.1| == 1 && (|r.0| == 1 <==> StageOf(Extension(name)).Some?)
  {
    if name in fs.directories then Classify(fs.directories[name])
    else if name in fs.files then Classify([name])
    else ([], [NoSuchFileOrDirectory(name)])
  }

  /** Classifying one more file name adds its task or its diagnostic after the others. */
  lemma ClassifySnoc(names: seq<string>, k: nat, stage: Option<Stage>)
    requires k < |names| && stage == StageOf(Extension(names[k]))
    ensures var p := Classify(names[..k]);
      Classify(names[..k + 1]) ==
        if stage.Some? then (p.0 + [FileState(names[k], stage.value)], p.1)
        else (p.0, p.1 + [IgnoringUnknownFileType(names[k])])
  {
    assert names[..k + 1][..k] == names[..k];
  }

  /** A directory, a file or a missing path turned into tasks, file by file. */
  method ResolveInputFileOrDir(name: string, fs: FileSystem) returns (tasks: seq<FileState>, diagnostics: seq<Message>)
    ensures (tasks, diagnostics) == Resolve(name, fs)
  {
    var fileNames: seq<string>;
    if name in fs.directories {
      fileNames := fs.directories[name];
    } else if name in fs.files {
      fileNames := [name];
    } else {
      return [], [NoSuchFileOrDirectory(name)];
    }
    tasks, diagnostics := [], [];
    for k := 0 to |fileNames|
      invariant (tasks, diagnostics) == Classify(fileNames[..k])
    {
      var fileName := fileNames[k];
      var stage := StageOf(Extension(fileName));
      ClassifySnoc(fileNames, k, stage);
      if stage.None? {
        diagnostics := diagnostics + [IgnoringUnknownFileType(fileName)];
        continue;
      }
      tasks := tasks + [FileState(fileName, stage.value)];
    }
    assert fileNames[..|fileNames|] == fileNames;
  }

  // ---------------------------------------------------------------------------------------
  // Option decoding

  /** Two texts equal once both are folded to lower case. */
  predicate SameIgnoringCase(a: string, b: string)
  {
    |a| == |b| && forall k :: 0 <= k < |a| ==> ToLowerChar(a[k]) == ToLowerChar(b[k])
  }

  /** `Enum.TryParse` with case ignored: the first severity whose name matches `text`. */
  function ParseSeverity(text: string): (r: Option<Severity>)
    ensures r.Some? ==> SameIgnoringCase(text, r.value.Name())
  {
    if SameIgnoringCase(text, "Debug") then Some(Debug)
    else if SameIgnoringCase(text, "Info") then Some(Info)
    else if SameIgnoringCase(text, "Warning") then Some(Warning)
    else if SameIgnoringCase(text, "Error") then Some(Error)
    else if SameIgnoringCase(text, "Fatal") then Some(Fatal)
    else None
  }

  /** Every severity name, in any mix of cases, parses back to its severity. */
  lemma ParseSeverityName(s: Severity, text: string)
    requires SameIgnoringCase(text, s.Name())
    ensures ParseSeverity(text) == Some(s)
  {
    match s
    case Debug =>
    case Info =>
    case Warning =>
    case Error =>
      assert ToLowerChar(text[0]) == 'e';
    case Fatal =>
      assert ToLowerChar(text[0]) == 'f';
  }

  datatype Dialogs = Dialogs(help: bool, machine: bool, version: bool, explain: Option<string>)
  {
    predicate Any() { help || machine || version || explain.Some? }
  }

  /** Everything the decoding loop updates. */
  datatype Options = Options(
    buildMode: BuildMode,
    finishStage: Stage,
    outputFilename: string,
    moduleName: string,
    noOut: bool,
    specifyStage: bool,
    specifyOut: bool,
    specifyModule: bool,
    severity: Option<Severity>,
    dialogs: Dialogs,
    multipleExplains: bool,
    tasks: seq<FileState>,
    references: seq<string>,
    arguments: seq<string>,
    diagnostics: seq<Message>,
    optionDiagnostics: seq<Message>)

  /** The state before the first argument is read. */
  function Initial(): (r: Options)
    ensures r.buildMode == AutoRun && r.finishStage == Finished
    ensures r.outputFilename == "a.exe" && !r.noOut
    ensures r.tasks == [] && r.diagnostics == [] && r.optionDiagnostics == []
  {
    Options(AutoRun, Finished, "a.exe", "defaultModuleName", false, false, false, false, None,
            Dialogs(false, false, false, None), false, [], [], [], [], [])
  }

  /** An option that takes no value; an unknown one is reported separately from the rest. */
  function SimpleOption(arg: string, o: Options): (r: Options)
    ensures r.tasks == o.tasks && r.diagnostics == o.diagnostics && r.outputFilename == o.outputFilename
    ensures r.optionDiagnostics == o.optionDiagnostics || r.optionDiagnostics == o.optionDiagnostics + [UnrecognizedOption(arg)]
  {
    match arg
    case "-s" => o.(specifyStage := true, finishStage := Compiled)
    case "-c" => o.(specifyStage := true, finishStage := Assembled)
    case "-r" => o.(buildMode := Repl)
    case "--repl" => o.(buildMode := Repl)
    case "-n" => o.(buildMode := Independent)
    case "-i" => o.(buildMode := AutoRun)
    case "--script" => o.(buildMode := Interpret)
    case "--evaluate" => o.(buildMode := Evaluate)
    case "--execute" => o.(buildMode := Execute)
    case "-t" => o.(buildMode := CSharpTranspile)
    case "--transpile" => o.(buildMode := CSharpTranspile)
    case "-d" => o.(buildMode := Dotnet)
    case "--dotnet" => o.(buildMode := Dotnet)
    case "-h" => o.(dialogs := o.dialogs.(help := true))
    case "--help" => o.(dialogs := o.dialogs.(help := true))
    case "--dumpmachine" => o.(dialogs := o.dialogs.(machine := true))
    case "--version" => o.(dialogs := o.dialogs.(version := true))
    case "--noout" => o.(noOut := true)
    case _ => o.(optionDiagnostics := o.optionDiagnostics + [UnrecognizedOption(arg)])
  }

  /** "-o": the output file, attached ("-oNAME") or in the next argument. */
  function OutputOption(args: seq<string>, i: nat, o: Options): (r: (nat, Options))
    requires i < |args| && StartsWith(args[i], "-o")
    ensures i < r.0 <= |args|
  {
    var arg := args[i];
    var o1 := o.(specifyOut := true);
    if arg != "-o" then (i + 1, o1.(outputFilename := arg[2..]))
    else if i < |args| - 1 then (i + 2, o1.(outputFilename := args[i + 1]))
    else (i + 1, o1.(diagnostics := o1.diagnostics + [MissingFilenameO]))
  }

  /** "--explain": the error code to explain; a second request only sets a flag. */
  function ExplainOption(args: seq<string>, i: nat, o: Options): (r: (nat, Options))
    requires i < |args| && StartsWith(args[i], "--explain")
    ensures i < r.0 <= |args|
  {
    var arg := args[i];
    if o.dialogs.explain.Some? then (i + 1, o.(multipleExplains := true))
    else if arg != "--explain" then (i + 1, o.(dialogs := o.dialogs.(explain := Some(arg[9..]))))
    else if i < |args| - 1 then (i + 2, o.(dialogs := o.dialogs.(explain := Some(args[i + 1]))))
    else (i + 1, o.(diagnostics := o.diagnostics + [MissingCodeExplain]))
  }

  /** "--modulename=NAME"; the name starts one character after the option word. */
  function ModuleNameOption(arg: string, o: Options): Options
    requires StartsWith(arg, "--modulename")
  {
    if arg != "--modulename" && arg != "--modulename=" then o.(specifyModule := true, moduleName := arg[13..])
    else o.(diagnostics := o.diagnostics + [MissingModuleName(arg)])
  }

  /** "--ref=PATH" or "--reference=PATH". */
  function ReferenceOption(arg: string, o: Options): Options
    requires StartsWith(arg, "--ref")
  {
    if arg != "--ref" && arg != "--ref=" && StartsWith(arg, "--ref=") then o.(references := o.references + [arg[6..]])
    else if arg != "--reference" && arg != "--reference=" && StartsWith(arg, "--reference=") then
      o.(references := o.references + [arg[12..]])
    else o.(diagnostics := o.diagnostics + [MissingReference(arg)])
  }

  /** "--severity=LEVEL". */
  function SeverityOption(arg: string, o: Options): Options
    requires StartsWith(arg, "--severity")
  {
    if arg == "--severity" || arg == "--severity=" then o.(diagnostics := o.diagnostics + [MissingSeverity(arg)])
    else
      var text := arg[11..];
      match ParseSeverity(text)
      case Some(s) => o.(severity := Some(s))
      case None => o.(diagnostics := o.diagnostics + [UnrecognizedSeverity(text)])
  }

  /**
   * One pass of the decoding loop at index `i`: the index the loop continues from and the
   * new state. Options that take a value may consume the following argument, and "--"
   * ends the loop.
   */
  function Step(args: seq<string>, i: nat, o: Options, fs: FileSystem): (r: (nat, Options))
    requires i < |args|
    ensures i < r.0 <= |args|
  {
    var arg := args[i];
    if !StartsWith(arg, "-") then
      var found := Resolve(arg, fs);
      (i + 1, o.(tasks := o.tasks + found.0, diagnostics := o.diagnostics + found.1))
    else if StartsWith(arg, "-o") then OutputOption(args, i, o)
    else if StartsWith(arg, "--explain") then ExplainOption(args, i, o)
    else if StartsWith(arg, "--modulename") then (i + 1, ModuleNameOption(arg, o))
    else if StartsWith(arg, "--ref") then (i + 1, ReferenceOption(arg, o))
    else if StartsWith(arg, "--severity") then (i + 1, SeverityOption(arg, o))
    else if arg == "--" then
      (|args|, if |args| > i + 1 then o.(arguments := args[i + 1..]) else o)
    else (i + 1, SimpleOption(arg, o))
  }

  /** The decoding loop from index `i` to the end of the arguments. */
  function DecodeFrom(args: seq<string>, i: nat, o: Options, fs: FileSystem): Options
    requires i <= |args|
    decreases |args| - i
  {
    if i == |args| then o
    else
      var next := Step(args, i, o, fs);
      DecodeFrom(args, next.0, next.1, fs)
  }

  /** What the compiler runs with once every argument is decoded. */
  datatype Settings = Settings(tasks: seq<FileState>, references: seq<string>, arguments: seq<string>, severity: Severity)

  datatype CompilerState = CompilerState(
    buildMode: BuildMode,
    finishStage: Stage,
    outputFilename: string,
    moduleName: string,
    noOut: bool,
    settings: Option<Settings>)

  datatype Decoded = Decoded(state: CompilerState, diagnostics: seq<Message>, dialogs: Dialogs, multipleExplains: bool)

  /** The severity used when none is given: Error for independent builds, Warning otherwise. */
  function DefaultSeverity(mode: BuildMode): (r: Severity)
    ensures r == Error <==> mode == Independent
    ensures r == Warning <==> mode != Independent
  {
    if mode == Independent then Error else Warning
  }

  predicate Interprets(mode: BuildMode)
  {
    mode == AutoRun || mode == Interpret || mode == Evaluate || mode == Execute
  }

  /** The checks on conflicting options, in the order they are reported. */
  function ConflictDiagnostics(o: Options, argCount: nat): (r: seq<Message>)
    ensures NoInputFiles !in r
  {
    var mode := o.buildMode;
    (if argCount > 1 && mode == Repl then [ReplInvokeIgnore] else [])
    + (if o.specifyStage && mode == Dotnet then [CannotSpecifyWithDotnet] else [])
    + (if o.specifyOut && o.specifyStage && |o.tasks| > 1 && mode != Dotnet then [CannotSpecifyWithMultipleFiles] else [])
    + (if (o.specifyStage || o.specifyOut) && Interprets(mode) then [CannotSpecifyWithInterpreter] else [])
    + (if |o.tasks| > 1 && mode == Interpret then [CannotInterpretWithMultipleFiles]
       else if mode == Interpret && |o.tasks| == 1 && o.tasks[0].stage != Raw then [CannotInterpretFile]
       else [])
    + (if o.specifyModule && mode != Dotnet then [CannotSpecifyModuleNameWithoutDotnet] else [])
    + (if |o.references| != 0 && mode != Dotnet then [CannotSpecifyReferencesWithoutDotnet] else [])
  }

  /** The checks made once the loop is over: conflicts, then the missing input. */
  function LateDiagnostics(o: Options, argCount: nat): seq<Message>
  {
    ConflictDiagnostics(o, argCount) + (if |o.tasks| == 0 && o.buildMode != Repl then [NoInputFiles] else [])
  }

  /**
   * The state after the loop. A requested dialog returns at once, leaving tasks, references,
   * program arguments and severity unset; otherwise the defaults are filled in and the
   * consistency checks are reported.
   */
  function Finish(o: Options, argCount: nat): Decoded
  {
    var moved := o.diagnostics + o.optionDiagnostics;
    if o.dialogs.Any() then
      Decoded(CompilerState(o.buildMode, o.finishStage, o.outputFilename, o.moduleName, o.noOut, None),
              moved, o.dialogs, o.multipleExplains)
    else
      var severity := if o.severity.Some? then o.severity.value else DefaultSeverity(o.buildMode);
      var output := if !o.specifyOut && o.buildMode == CSharpTranspile then "a.cs" else o.outputFilename;
      Decoded(CompilerState(o.buildMode, o.finishStage, Trim(output), o.moduleName, o.noOut,
                            Some(Settings(o.tasks, o.references, o.arguments, severity))),
              moved + LateDiagnostics(o, argCount), o.dialogs, o.multipleExplains)
  }

  /** `DecodeOptions`: the whole argument list decoded. */
  function Decode(args: seq<string>, fs: FileSystem): Decoded
  {
    Finish(DecodeFrom(args, 0, Initial(), fs), |args|)
  }

  /** "-o": the loop's handling of the output option, moving past its value when it is separate. */
  method ReadOutputOption(args: seq<string>, i: nat, o: Options) returns (next: nat, r: Options)
    requires i < |args| && StartsWith(args[i], "-o")
    ensures (next, r) == OutputOption(args, i, o)
  {
    var arg := args[i];
    r := o.(specifyOut := true);
    next := i;
    if arg != "-o" {
      r := r.(outputFilename := arg[2..]);
    } else if i < |args| - 1 {
      next := i + 1;
      r := r.(outputFilename := args[next]);
    } else {
      r := r.(diagnostics := r.diagnostics + [MissingFilenameO]);
    }
    next := next + 1;
  }

  /** "--explain": the loop's handling of the explain option, moving past its value when it is separate. */
  method ReadExplainOption(args: seq<string>, i: nat, o: Options) returns (next: nat, r: Options)
    requires i < |args| && StartsWith(args[i], "--explain")
    ensures (next, r) == ExplainOption(args, i, o)
  {
    var arg := args[i];
    r := o;
    next := i;
    if o.dialogs.explain.Some? {
      r := r.(multipleExplains := true);
    } else if arg != "--explain" {
      r := r.(dialogs := r.dialogs.(explain := Some(arg[9..])));
    } else if i < |args| - 1 {
      next := i + 1;
      r := r.(dialogs := r.dialogs.(explain := Some(args[next])));
    } else {
      r := r.(diagnostics := r.diagnostics + [MissingCodeExplain]);
    }
    next := next + 1;
  }

  /** The decoding loop, walking the arguments with an index that options may advance. */
  method DecodeOptions(args: seq<string>, fs: FileSystem) returns (r: Decoded)
    ensures r == Decode(args, fs)
  {
    var o := Initial();
    var i := 0;
    while i < |args|
      invariant i <= |args|
      invariant DecodeFrom(args, i, o, fs) == DecodeFrom(args, 0, Initial(), fs)
      decreases |args| - i
    {
      ghost var next := Step(args, i, o, fs);
      ghost var i0, o0 := i, o;
      var arg := args[i];
      if !StartsWith(arg, "-") {
        var found, messages := ResolveInputFileOrDir(arg, fs);
        o := o.(tasks := o.tasks + found, diagnostics := o.diagnostics + messages);
        i := i + 1;
      } else if StartsWith(arg, "-o") {
        i, o := ReadOutputOption(args, i, o);
      } else if StartsWith(arg, "--explain") {
        i, o := ReadExplainOption(args, i, o);
      } else if arg == "--" {
        if |args| > i + 1 {
          o := o.(arguments := args[i + 1..]);
        }
        i := |args|;
      } else {
        o := Step(args, i, o, fs).1;
        i := i + 1;
      }
      assert (i, o) == next;
      assert DecodeFrom(args, i0, o0, fs) == DecodeFrom(args, i, o, fs);
    }
    r := Finish(o, |args|);
  }

  // ---------------------------------------------------------------------------------------
  // Properties of the decoder

  /** With no arguments the defaults stand, and the only diagnostic is the missing input. */
  lemma DecodeNothing(fs: FileSystem)
    ensures var r := Decode([], fs);
      r.state == CompilerState(AutoRun, Finished, "a.exe", "defaultModuleName", false, Some(Settings([], [], [], Warning)))
      && r.diagnostics == [NoInputFiles]
  {
    TrimUnchanged("a.exe");
  }

  /** "-s" asks for compiled output and "-c" for assembled output. */
  lemma StageOptions(args: seq<string>, i: nat, o: Options, fs: FileSystem)
    requires i < |args| && (args[i] == "-s" || args[i] == "-c")
    ensures Step(args, i, o, fs).0 == i + 1
    ensures var o1 := Step(args, i, o, fs).1;
      o1.specifyStage && o1.finishStage == (if args[i] == "-s" then Compiled else Assembled)
  {
    DiffersAt(args[i], "-o", 1);
    DiffersAt(args[i], "--explain", 1);
    DiffersAt(args[i], "--modulename", 1);
    DiffersAt(args[i], "--ref", 1);
    DiffersAt(args[i], "--severity", 1);
  }

  /** "-o" takes the text attached to it, else the next argument, else reports a diagnostic. */
  lemma OutputOptionForms(args: seq<string>, i: nat, o: Options, fs: FileSystem)
    requires i < |args| && StartsWith(args[i], "-o")
    ensures var (j, o1) := Step(args, i, o, fs);
      o1.specifyOut
      && (args[i] != "-o" ==> j == i + 1 && o1.outputFilename == args[i][2..])
      && (args[i] == "-o" && i + 1 < |args| ==> j == i + 2 && o1.outputFilename == args[i + 1])
      && (args[i] == "-o" && i + 1 == |args| ==>
            j == i + 1 && o1.outputFilename == o.outputFilename && o1.diagnostics == o.diagnostics + [MissingFilenameO])
  {
  }

  /** "--" hands every later argument to the program and decodes none of them. */
  lemma DoubleDashCapturesRest(args: seq<string>, i: nat, o: Options, fs: FileSystem)
    requires i < |args| && args[i] == "--"
    ensures DecodeFrom(args, i, o, fs) == o.(arguments := if |args| > i + 1 then args[i + 1..] else o.arguments)
  {
  }

  /** Arguments that are all file names leave every default in place. */
  lemma FileArgumentsOnly(args: seq<string>, fs: FileSystem)
    requires forall k :: 0 <= k < |args| ==> !StartsWith(args[k], "-")
    ensures var r := Decode(args, fs);
      r.state.buildMode == AutoRun && r.state.finishStage == Finished && r.state.outputFilename == "a.exe"
      && r.state.settings.Some? && r.state.settings.value.references == [] && r.state.settings.value.arguments == []
      && r.state.settings.value.severity == Warning
  {
    NoOptionsKeepDefaults(args, 0, Initial(), fs);
    TrimUnchanged("a.exe");
  }

  /** Arguments that are all file names only add tasks and file diagnostics. */
  lemma {:induction false} NoOptionsKeepDefaults(args: seq<string>, i: nat, o: Options, fs: FileSystem)
    requires i <= |args|
    requires forall k :: i <= k < |args| ==> !StartsWith(args[k], "-")
    ensures var r := DecodeFrom(args, i, o, fs);
      r == o.(tasks := r.tasks, diagnostics := r.diagnostics)
    decreases |args| - i
  {
    if i < |args| {
      NoOptionsKeepDefaults(args, i + 1, Step(args, i, o, fs).1, fs);
    }
  }

  /** A C# transpile without "-o" writes "a.cs". */
  lemma TranspileOutput(o: Options, argCount: nat)
    requires !o.dialogs.Any() && !o.specifyOut && o.buildMode == CSharpTranspile
    ensures Finish(o, argCount).state.outputFilename == "a.cs"
  {
    TrimUnchanged("a.cs");
  }

  /** Without "--severity", independent builds stop at errors and all others at warnings. */
  lemma SeverityDefault(o: Options, argCount: nat)
    requires !o.dialogs.Any() && o.severity.None?
    ensures var settings := Finish(o, argCount).state.settings;
      settings.Some? && (settings.value.severity == Error <==> o.buildMode == Independent)
      && (settings.value.severity == Warning <==> o.buildMode != Independent)
  {
  }

  /** A requested dialog skips the defaults and the consistency checks. */
  lemma DialogSkipsChecks(o: Options, argCount: nat)
    requires o.dialogs.Any()
    ensures var r := Finish(o, argCount);
      r.state.settings.None? && r.state.outputFilename == o.outputFilename
      && r.diagnostics == o.diagnostics + o.optionDiagnostics
  {
  }

  /**
   * Otherwise the diagnostics are those of the loop, then the unknown options, then the
   * consistency checks; a build that is not a REPL without input files reports it.
   */
  lemma MissingInputReported(o: Options, argCount: nat)
    requires !o.dialogs.Any()
    ensures var r := Finish(o, argCount);
      var n := |o.diagnostics| + |o.optionDiagnostics|;
      n <= |r.diagnostics| && r.diagnostics[..n] == o.diagnostics + o.optionDiagnostics
      && (NoInputFiles in r.diagnostics[n..] <==> |o.tasks| == 0 && o.buildMode != Repl)
  {
    var late := LateDiagnostics(o, argCount);
    var r := Finish(o, argCount);
    var moved := o.diagnostics + o.optionDiagnostics;
    assert r.diagnostics == moved + late;
    assert r.diagnostics[|moved|..] == late;
  }

  /** A file named "<base>.<ext>" is classified by `ext` alone. */
  lemma ClassifyByExtension(base: string, ext: string)
    requires '.' !in ext
    ensures var name := base + "." + ext;
      Classify([name]) == if StageOf(ext).Some? then ([FileState(name, StageOf(ext).value)], [])
                          else ([], [IgnoringUnknownFileType(name)])
  {
    var name := base + "." + ext;
    ExtensionOfDotted(base, ext);
    var names := [name];
    assert names[..|names| - 1] == [];
    assert names[|names| - 1] == name;
    assert Classify(names[..|names| - 1]) == ([], []);
    assert Extension(names[|names| - 1]) == ext;
    match StageOf(ext)
    case Some(st) =>
      var none: seq<FileState> := [];
      assert none + [FileState(name, st)] == [FileState(name, st)];
      assert Classify(names) == (none + [FileState(name, st)], []);
    case None =>
      var none: seq<Message> := [];
      assert none + [IgnoringUnknownFileType(name)] == [IgnoringUnknownFileType(name)];
      assert Classify(names) == ([], none + [IgnoringUnknownFileType(name)]);
  }

  // ---------------------------------------------------------------------------------------
  // The interpreter check as written

  /**
   * The consistency checks as the source writes them: the interpreter check reads the
   * first task with `tasks?[0]`, which guards against a null array but not an empty one.
   */
  function FinishAsWritten(o: Options, argCount: nat): (r: Result<Decoded>)
    ensures r.Ok? ==> r.value == Finish(o, argCount)
    ensures r.Fail? <==> !o.dialogs.Any() && o.buildMode == Interpret && |o.tasks| == 0
  {
    if !o.dialogs.Any() && o.buildMode == Interpret && |o.tasks| == 0 then Fail("IndexOutOfRangeException")
    else Ok(Finish(o, argCount))
  }

  function DecodeAsWritten(args: seq<string>, fs: FileSystem): Result<Decoded>
  {
    FinishAsWritten(DecodeFrom(args, 0, Initial(), fs), |args|)
  }

  /** "--script" with no input file throws instead of reporting the missing input. */
  lemma ScriptWithoutInputThrows(fs: FileSystem)
    ensures DecodeAsWritten(["--script"], fs).Fail?
    ensures Decode(["--script"], fs).diagnostics == [NoInputFiles]
  {
    var o := Initial().(buildMode := Interpret);
    DiffersAt("--script", "-o", 1);
    DiffersAt("--script", "--explain", 2);
    DiffersAt("--script", "--modulename", 2);
    DiffersAt("--script", "--ref", 2);
    DiffersAt("--script", "--severity", 3);
    assert SimpleOption("--script", Initial()) == o;
    assert Step(["--script"], 0, Initial(), fs) == (1, o);
    assert DecodeFrom(["--script"], 0, Initial(), fs) == o;
  }

  // ---------------------------------------------------------------------------------------
  // Exit code

  /** The most severe of a non-empty list of severities. */
  function Worst(severities: seq<Severity>): (r: Severity)
    requires |severities| > 0
    ensures r in severities
    ensures forall s :: s in severities ==> s.Rank() <= r.Rank()
  {
    if |severities| == 1 then severities[0]
    else
      var w := Worst(severities[1..]);
      assert forall s :: s in severities[1..] ==> s.Rank() <= w.Rank();
      assert forall s :: s in severities ==> s == severities[0] || s in severities[1..];
      if severities[0].Rank() >= w.Rank() then severities[0] else w
  }

  /** `ResolveDiagnostics`: the exit code chosen by the worst severity reported. */
  function ExitCode(severities: seq<Severity>): (r: int)
    ensures r == FatalExitCode <==> Fatal in severities
    ensures r == ErrorExitCode <==> Fatal !in severities && Error in severities
    ensures r == SuccessExitCode <==> Fatal !in severities && Error !in severities
  {
    if |severities| == 0 then SuccessExitCode
    else
      match Worst(severities)
      case Fatal => FatalExitCode
      case Error => ErrorExitCode
      case _ => SuccessExitCode
  }

  /** The severity of each diagnostic, in order. */
  function Levels(messages: seq<Message>): (r: seq<Severity>)
    ensures |r| == |messages|
    ensures forall k :: 0 <= k < |messages| ==> r[k] == messages[k].Level()
  {
    if |messages| == 0 then [] else [messages[0].Level()] + Levels(messages[1..])
  }

  /** Any fatal diagnostic among those reported makes the exit code 2. */
  lemma FatalMessageExits(messages: seq<Message>, k: nat)
    requires k < |messages| && messages[k].Level() == Fatal
    ensures ExitCode(Levels(messages)) == FatalExitCode
  {
    assert Levels(messages)[k] == Fatal;
  }
}
