/**
 * The command-line front end: processArgs, which turns the argument list
 * into settings or ends the program, and the output format taken from the
 * output file name.
 */
module Cli {
  import opened Wrappers
  import opened JavaLang
  import opened Classifications

  const NO_INPUT := "Specify input image"
  const NO_CLASS := "Specify classification"
  const BAD_CLASS := "Invalid classification, use --help for list of available classifications"
  const NO_EXPANSION := "Specify expansion factor"
  const BAD_EXPANSION := "Invalid expansion factor"
  const NO_OUTPUT := "Specify output file"

  /** Settings.expandBy: the default 0.7f, or a factor Float.parseFloat accepted, kept as its text. */
  datatype Expansion = DefaultExpansion | ParsedExpansion(text: string)

  /** The Settings record; None stands for a field still null. */
  datatype Settings = Settings(inFile: Option<string>, outFile: Option<string>, clazz: ClassId, expandBy: Expansion)

  const INITIAL := Settings(None, None, Irrelevant, DefaultExpansion)

  /** How argument processing ends: with settings, in stop(message) (exit status 1), or in displayHelp (exit status 0). */
  datatype ArgsResult = Run(settings: Settings) | Stop(message: string) | Help

  /**
   * What processArgs consults: the classification registry, the order its
   * HashMap iterates in, and which texts Float.parseFloat accepts.
   */
  datatype Env = Env(classMap: map<string, ClassId>, order: seq<string>, parsesAsFloat: string -> bool)
  {
    /** `order` lists every key of the registry exactly once. */
    ghost predicate WellFormed()
    {
      IsIterationOrder(order, classMap)
    }
  }

  predicate IsHelpSwitch(a: string) { a == "-h" || a == "--help" }
  predicate IsClassSwitch(a: string) { a == "-c" || a == "--class" }
  predicate IsExpansionSwitch(a: string) { a == "-e" || a == "--expansion" }
  predicate IsOutputSwitch(a: string) { a == "-o" || a == "--output" }

  /** An argument the switch statement treats as the input file. */
  predicate IsPlain(a: string)
  {
    !IsHelpSwitch(a) && !IsClassSwitch(a) && !IsExpansionSwitch(a) && !IsOutputSwitch(a)
  }

  /** The loop of processArgs from position i on, with settings `st` so far. */
  function ScanFrom(args: seq<string>, i: nat, st: Settings, env: Env): ArgsResult
    requires i <= |args| && env.WellFormed()
    decreases |args| - i
  {
    if i == |args| then Run(st)
    else
      var a := args[i];
      if IsHelpSwitch(a) then Help
      else if IsClassSwitch(a) then
        if i + 1 == |args| then Stop(NO_CLASS)
        else match Classify(env.classMap, env.order, args[i + 1], true)
          case None => Stop(BAD_CLASS)
          case Some(c) => ScanFrom(args, i + 2, st.(clazz := c), env)
      else if IsExpansionSwitch(a) then
        if i + 1 == |args| then Stop(NO_EXPANSION)
        else if !env.parsesAsFloat(args[i + 1]) then Stop(BAD_EXPANSION)
        else ScanFrom(args, i + 2, st.(expandBy := ParsedExpansion(args[i + 1])), env)
      else if IsOutputSwitch(a) then
        if i + 1 == |args| then Stop(NO_OUTPUT)
        else ScanFrom(args, i + 2, st.(outFile := Some(args[i + 1])), env)
      else ScanFrom(args, i + 1, st.(inFile := Some(a)), env)
  }

  /** The default output name, `clazz + "_" + inFile`, where a null inFile prints as "null". */
  function DefaultOutFile(st: Settings): string
  {
    Name(st.clazz) + "_" + st.inFile.GetOr("null")
  }

  /** The step after the loop: an output file still null gets the default name. */
  function WithOutFile(st: Settings): (r: Settings)
    ensures r.outFile.Some?
  {
    if st.outFile.None? then st.(outFile := Some(DefaultOutFile(st))) else st
  }

  /** processArgs as a whole. */
  function ProcessArgsSpec(args: seq<string>, env: Env): ArgsResult
    requires env.WellFormed()
  {
    if |args| == 0 then Stop(NO_INPUT)
    else match ScanFrom(args, 0, INITIAL, env)
      case Run(st) => Run(WithOutFile(st))
      case other => other
  }

  /** processArgs: the loop whose index the switch cases advance past an option's value. */
  method ProcessArgs(args: seq<string>, registry: Registry, order: seq<string>, parsesAsFloat: string -> bool)
    returns (r: ArgsResult)
    requires IsIterationOrder(order, registry.classMap)
    ensures r == ProcessArgsSpec(args, Env(registry.classMap, order, parsesAsFloat))
  {
    var env := Env(registry.classMap, order, parsesAsFloat);
    if |args| == 0 {
      return Stop(NO_INPUT);
    }
    var inFile, outFile, clazz, expandBy := None, None, Irrelevant, DefaultExpansion;
    var i := 0;
    while i < |args|
      invariant 0 <= i <= |args|
      invariant ScanFrom(args, 0, INITIAL, env) == ScanFrom(args, i, Settings(inFile, outFile, clazz, expandBy), env)
    {
      var a := args[i];
      if IsHelpSwitch(a) {
        return Help;
      } else if IsClassSwitch(a) {
        i := i + 1;
        if i == |args| {
          return Stop(NO_CLASS);
        }
        var c := registry.GetClassification(args[i], true, order);
        if c.None? {
          return Stop(BAD_CLASS);
        }
        clazz := c.value;
      } else if IsExpansionSwitch(a) {
        i := i + 1;
        if i == |args| {
          return Stop(NO_EXPANSION);
        }
        if !parsesAsFloat(args[i]) {
          return Stop(BAD_EXPANSION);
        }
        expandBy := ParsedExpansion(args[i]);
      } else if IsOutputSwitch(a) {
        i := i + 1;
        if i == |args| {
          return Stop(NO_OUTPUT);
        }
        outFile := Some(args[i]);
      } else {
        inFile := Some(a);
      }
      i := i + 1;
    }
    if outFile.None? {
      outFile := Some(Name(clazz) + "_" + inFile.GetOr("null"));
    }
    r := Run(Settings(inFile, outFile, clazz, expandBy));
  }

  /** With no arguments at all the program stops asking for an input image. */
  lemma NoArgumentsStops(env: Env)
    requires env.WellFormed()
    ensures ProcessArgsSpec([], env) == Stop(NO_INPUT)
  {
  }

  /**
   * Once the loop has consumed `args` completely (no option left waiting for
   * its value), appending more arguments just carries on from the settings
   * reached.
   */
  lemma {:induction false} ScanExtend(args: seq<string>, tail: seq<string>, i: nat, st: Settings, env: Env)
    requires env.WellFormed() && i <= |args|
    requires ScanFrom(args, i, st, env).Run?
    ensures ScanFrom(args + tail, i, st, env) == ScanFrom(args + tail, |args|, ScanFrom(args, i, st, env).settings, env)
    decreases |args| - i
  {
    var all := args + tail;
    if i < |args| {
      assert all[i] == args[i];
      var a := args[i];
      if IsClassSwitch(a) {
        assert all[i + 1] == args[i + 1];
        var c := Classify(env.classMap, env.order, args[i + 1], true);
        ScanExtend(args, tail, i + 2, st.(clazz := c.value), env);
      } else if IsExpansionSwitch(a) {
        assert all[i + 1] == args[i + 1];
        ScanExtend(args, tail, i + 2, st.(expandBy := ParsedExpansion(args[i + 1])), env);
      } else if IsOutputSwitch(a) {
        assert all[i + 1] == args[i + 1];
        ScanExtend(args, tail, i + 2, st.(outFile := Some(args[i + 1])), env);
      } else {
        ScanExtend(args, tail, i + 1, st.(inFile := Some(a)), env);
      }
    }
  }

  /** A plain argument after a completely processed prefix becomes the input file, replacing any earlier one. */
  lemma LaterInputWins(args: seq<string>, a: string, env: Env)
    requires env.WellFormed() && ScanFrom(args, 0, INITIAL, env).Run?
    requires IsPlain(a)
    ensures ProcessArgsSpec(args + [a], env) == Run(WithOutFile(ScanFrom(args, 0, INITIAL, env).settings.(inFile := Some(a))))
  {
    ScanExtend(args, [a], 0, INITIAL, env);
    assert (args + [a])[|args|] == a;
  }

  /** `-o out` after a completely processed prefix sets the output file, so no default name is made. */
  lemma OutputOptionWins(args: seq<string>, opt: string, out: string, env: Env)
    requires env.WellFormed() && ScanFrom(args, 0, INITIAL, env).Run?
    requires IsOutputSwitch(opt)
    ensures ProcessArgsSpec(args + [opt, out], env) == Run(ScanFrom(args, 0, INITIAL, env).settings.(outFile := Some(out)))
  {
    ScanExtend(args, [opt, out], 0, INITIAL, env);
    assert (args + [opt, out])[|args|] == opt;
    assert (args + [opt, out])[|args| + 1] == out;
  }

  /** The message stop prints when an option is the last argument. */
  function MissingValueMessage(opt: string): string
  {
    if IsClassSwitch(opt) then NO_CLASS
    else if IsExpansionSwitch(opt) then NO_EXPANSION
    else NO_OUTPUT
  }

  /** `-c`, `-e` or `-o` (or a long form) as the last argument stops with its "Specify …" message. */
  lemma TrailingOptionStops(args: seq<string>, opt: string, env: Env)
    requires env.WellFormed() && ScanFrom(args, 0, INITIAL, env).Run?
    requires IsClassSwitch(opt) || IsExpansionSwitch(opt) || IsOutputSwitch(opt)
    ensures ProcessArgsSpec(args + [opt], env) == Stop(MissingValueMessage(opt))
  {
    ScanExtend(args, [opt], 0, INITIAL, env);
    assert (args + [opt])[|args|] == opt;
  }

  /** `-h` or `--help` reached by the loop ends the program in displayHelp, whatever follows. */
  lemma HelpEndsProcessing(args: seq<string>, h: string, rest: seq<string>, env: Env)
    requires env.WellFormed() && ScanFrom(args, 0, INITIAL, env).Run?
    requires IsHelpSwitch(h)
    ensures ProcessArgsSpec(args + [h] + rest, env) == Help
  {
    ScanExtend(args, [h] + rest, 0, INITIAL, env);
    assert args + [h] + rest == args + ([h] + rest);
    assert (args + ([h] + rest))[|args|] == h;
  }

  /** `-c name` with a name the strict lookup rejects stops the program, whatever follows. */
  lemma UnknownClassStops(args: seq<string>, opt: string, name: string, rest: seq<string>, env: Env)
    requires env.WellFormed() && ScanFrom(args, 0, INITIAL, env).Run?
    requires IsClassSwitch(opt)
    requires Classify(env.classMap, env.order, name, true).None?
    ensures ProcessArgsSpec(args + [opt, name] + rest, env) == Stop(BAD_CLASS)
  {
    ScanExtend(args, [opt, name] + rest, 0, INITIAL, env);
    assert args + [opt, name] + rest == args + ([opt, name] + rest);
    assert (args + ([opt, name] + rest))[|args|] == opt;
    assert (args + ([opt, name] + rest))[|args| + 1] == name;
  }

  /** `-c name` with a name the strict lookup accepts sets the classification and carries on. */
  lemma KnownClassSets(args: seq<string>, opt: string, name: string, c: ClassId, env: Env)
    requires env.WellFormed() && ScanFrom(args, 0, INITIAL, env).Run?
    requires IsClassSwitch(opt)
    requires Classify(env.classMap, env.order, name, true) == Some(c)
    ensures ProcessArgsSpec(args + [opt, name], env) == Run(WithOutFile(ScanFrom(args, 0, INITIAL, env).settings.(clazz := c)))
  {
    ScanExtend(args, [opt, name], 0, INITIAL, env);
    assert (args + [opt, name])[|args|] == opt;
    assert (args + [opt, name])[|args| + 1] == name;
  }

  /**
   * Where each field of the settings came from: the input file is one of the
   * arguments, the output file is the argument after an output switch, and
   * the classification is IRRELEVANT or what the strict lookup made of the
   * argument after a class switch.
   */
  ghost predicate Traced(args: seq<string>, st: Settings, env: Env)
    requires env.WellFormed()
  {
    && (st.inFile.None? || exists j :: 0 <= j < |args| && st.inFile == Some(args[j]))
    && (st.outFile.None? ||
        exists j :: 0 <= j && j + 1 < |args| && IsOutputSwitch(args[j]) && st.outFile == Some(args[j + 1]))
    && (st.clazz == Irrelevant ||
        exists j :: 0 <= j && j + 1 < |args| && IsClassSwitch(args[j]) &&
                    Classify(env.classMap, env.order, args[j + 1], true) == Some(st.clazz))
  }

  lemma {:induction false} ScanTraced(args: seq<string>, i: nat, st: Settings, env: Env)
    requires env.WellFormed() && i <= |args|
    requires Traced(args, st, env)
    requires ScanFrom(args, i, st, env).Run?
    ensures Traced(args, ScanFrom(args, i, st, env).settings, env)
    decreases |args| - i
  {
    if i < |args| {
      var a := args[i];
      if IsClassSwitch(a) {
        var c := Classify(env.classMap, env.order, args[i + 1], true);
        ScanTraced(args, i + 2, st.(clazz := c.value), env);
      } else if IsExpansionSwitch(a) {
        ScanTraced(args, i + 2, st.(expandBy := ParsedExpansion(args[i + 1])), env);
      } else if IsOutputSwitch(a) {
        ScanTraced(args, i + 2, st.(outFile := Some(args[i + 1])), env);
      } else {
        ScanTraced(args, i + 1, st.(inFile := Some(a)), env);
      }
    }
  }

  /**
   * Settings that processArgs returns: an input file that was an argument
   * (or null), a classification that defaults to IRRELEVANT, and an output
   * file that follows an output switch or else is the default name.
   */
  lemma ProcessedSettings(args: seq<string>, env: Env)
    requires env.WellFormed() && ProcessArgsSpec(args, env).Run?
    ensures var s := ProcessArgsSpec(args, env).settings;
            && (s.inFile.None? || exists j :: 0 <= j < |args| && s.inFile == Some(args[j]))
            && (s.clazz == Irrelevant ||
                exists j :: 0 <= j && j + 1 < |args| && IsClassSwitch(args[j]) &&
                            Classify(env.classMap, env.order, args[j + 1], true) == Some(s.clazz))
            && ((exists j :: 0 <= j && j + 1 < |args| && IsOutputSwitch(args[j]) && s.outFile == Some(args[j + 1]))
                || s.outFile == Some(DefaultOutFile(s)))
  {
    ScanTraced(args, 0, INITIAL, env);
  }

  /** The image format written: the text after the last '.' of the output name, or the whole name if it has none. */
  function OutputFormat(outFile: string): (r: string)
    ensures '.' !in outFile ==> r == outFile
    ensures '.' in outFile ==> '.' !in r && |r| < |outFile| && outFile == outFile[..|outFile| - |r| - 1] + "." + r
  {
    var k := LastIndexOf(outFile, '.');
    if k >= 0 then
      assert outFile == outFile[..k] + "." + outFile[k + 1..];
      outFile[k + 1..]
    else outFile[k + 1..]
  }
}
