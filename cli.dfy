/**
 * The command-line and input shell of the watcher (src/index.js): reading `--flag=value` and
 * `--flag value` arguments, letting them take precedence over the `INPUT_*` environment
 * variables, the local stand-in for the Actions input lookup, and the input defaults and
 * `owner/repo` validation at the start of `main`.
 */
module Cli {
  import opened Wrappers
  import opened Text

  // ---------------------------------------------------------------------------
  // Command-line arguments
  // ---------------------------------------------------------------------------

  /** `args.find(arg => arg.startsWith(p))`, as the index of the argument found. */
  function FirstWithPrefix(args: seq<string>, p: string): (r: Option<nat>)
    ensures r.Some? ==> r.value < |args| && p <= args[r.value]
    ensures r.Some? ==> forall j :: 0 <= j < r.value ==> !(p <= args[j])
    ensures r.None? ==> forall j :: 0 <= j < |args| ==> !(p <= args[j])
    decreases |args|
  {
    if args == [] then None
    else if p <= args[0] then Some(0)
    else match FirstWithPrefix(args[1..], p)
      case None => None
      case Some(k) => Some(k + 1)
  }

  /** `args.indexOf(x)`: the first index holding `x`, or -1. */
  function IndexOf(args: seq<string>, x: string): (r: int)
    ensures -1 <= r < |args|
    ensures r == -1 <==> x !in args
    ensures r >= 0 ==> args[r] == x && x !in args[..r]
    decreases |args|
  {
    if args == [] then -1
    else if args[0] == x then 0
    else
      var k := IndexOf(args[1..], x);
      assert args[1..] == args[1..][..|args| - 1];
      if k == -1 then -1
      else
        assert args[..k + 1] == [args[0]] + args[1..][..k];
        k + 1
  }

  /**
   * `getArg(flag)`: the value of the first argument that starts with `flag=` (its second
   * `=`-separated field), else the argument right after the first one equal to `flag`,
   * else nothing (`null`). There is no value exactly when no argument starts with `flag=`
   * and `flag` is absent or its first occurrence is the last argument; a value taken from a
   * `flag=` argument never contains `=`.
   */
  function GetArg(args: seq<string>, flag: string): (r: Option<string>)
    ensures r.None? <==> (forall j :: 0 <= j < |args| ==> !(flag + "=" <= args[j]))
                         && (flag in args ==> IndexOf(args, flag) == |args| - 1)
    ensures FirstWithPrefix(args, flag + "=").Some? ==> r.Some? && '=' !in r.value
  {
    match FirstWithPrefix(args, flag + "=")
    case Some(k) =>
      var fields := Split(args[k], '=');
      assert '=' in args[k] by { assert args[k][|flag|] == '='; }
      SplitHasSecondField(args[k], '=');
      Some(fields[1])
    case None =>
      var i := IndexOf(args, flag);
      if i != -1 && i + 1 < |args| then Some(args[i + 1]) else None
  }

  /**
   * The `flag=value` form decides whenever some argument has it, even if a bare `flag`
   * comes earlier. For a flag without `=` the value is the text after `flag=` up to the
   * next `=`, so anything after a second `=` is lost.
   */
  lemma GetArgKeyValue(args: seq<string>, flag: string, k: nat)
    requires k < |args| && flag + "=" <= args[k]
    requires forall j :: 0 <= j < k ==> !(flag + "=" <= args[j])
    requires '=' !in flag
    ensures var rest := args[k][|flag| + 1..];
      GetArg(args, flag) == Some(Before(rest, '='))
      && '=' !in Before(rest, '=') && Before(rest, '=') <= rest
      && (Before(rest, '=') == rest || rest[|Before(rest, '=')|] == '=')
  {
    var a := args[k];
    var rest := a[|flag| + 1..];
    assert FirstWithPrefix(args, flag + "=") == Some(k);
    assert a == flag + "=" + rest;
    SplitAfterField(flag, '=', rest);
    SplitHead(rest, '=');
  }

  /**
   * Without any `flag=...` argument, the value is the element right after the first `flag`,
   * and there is none when `flag` is absent or its first occurrence is the last argument.
   */
  lemma GetArgSeparate(args: seq<string>, flag: string)
    requires forall j :: 0 <= j < |args| ==> !(flag + "=" <= args[j])
    ensures flag !in args ==> GetArg(args, flag) == None
    ensures flag in args ==> var i := IndexOf(args, flag);
      GetArg(args, flag) == (if i + 1 < |args| then Some(args[i + 1]) else None)
    ensures GetArg(args, flag).Some? ==>
      exists i :: (0 <= i < |args| - 1 && args[i] == flag
                   && flag !in args[..i] && GetArg(args, flag) == Some(args[i + 1]))
  {
    assert FirstWithPrefix(args, flag + "=") == None;
    if GetArg(args, flag).Some? {
      var i := IndexOf(args, flag);
      assert 0 <= i < |args| - 1 && args[i] == flag && flag !in args[..i];
    }
  }

  /** The four command-line options read in local runs; `None` is `null`. */
  datatype CliArgs = CliArgs(
    targetRepository: Option<string>,
    daysToCheck: Option<string>,
    outputFile: Option<string>,
    outputFormat: Option<string>)

  const TargetRepositoryFlag := "--target-repository"
  const DaysToCheckFlag := "--days-to-check"
  const OutputFileFlag := "--output-file"
  const OutputFormatFlag := "--output-format"

  /**
   * The `cliArgs` record: one `getArg` lookup per option. Arguments that do not start with
   * `--` set no option.
   */
  function ReadCliArgs(args: seq<string>): (r: CliArgs)
    ensures (forall j :: 0 <= j < |args| ==> !("--" <= args[j])) ==> r == CliArgs(None, None, None, None)
  {
    NoOptionNoValue(args, TargetRepositoryFlag);
    NoOptionNoValue(args, DaysToCheckFlag);
    NoOptionNoValue(args, OutputFileFlag);
    NoOptionNoValue(args, OutputFormatFlag);
    CliArgs(
      GetArg(args, TargetRepositoryFlag),
      GetArg(args, DaysToCheckFlag),
      GetArg(args, OutputFileFlag),
      GetArg(args, OutputFormatFlag))
  }

  /** A flag starting with `--` has no value when no argument starts with `--`. */
  lemma NoOptionNoValue(args: seq<string>, flag: string)
    requires |flag| >= 2 && flag[..2] == "--"
    ensures (forall j :: 0 <= j < |args| ==> !("--" <= args[j])) ==> GetArg(args, flag) == None
  {
  }

  // ---------------------------------------------------------------------------
  // Environment and the local input lookup
  // ---------------------------------------------------------------------------

  /** The process environment, variable name to value; a missing key is `undefined`. */
  type Env = map<string, string>

  /** JavaScript truthiness of an optional string: present and not empty. */
  predicate Truthy(v: Option<string>) { v.Some? && v.value != "" }

  /** `a || b` on strings: `b` when `a` is empty. */
  function OrDefault(a: string, b: string): string {
    if a == "" then b else a
  }

  /** The variable the local input lookup reads for `name`: `INPUT_` + name with `-` as `_`, upper-cased. */
  function InputKey(name: string): string {
    "INPUT_" + Upper(ReplaceChar(name, '-', '_'))
  }

  /** How the lookup normalises one character of an input name. */
  function KeyChar(c: char): char {
    UpperChar(if c == '-' then '_' else c)
  }

  /**
   * Two input names read the same variable exactly when they agree character by character
   * after dashes become underscores and letters are upper-cased.
   */
  lemma InputKeySame(a: string, b: string)
    ensures InputKey(a) == InputKey(b) <==>
      |a| == |b| && forall i :: 0 <= i < |a| ==> KeyChar(a[i]) == KeyChar(b[i])
  {
    if InputKey(a) == InputKey(b) {
      forall i | 0 <= i < |a| ensures KeyChar(a[i]) == KeyChar(b[i]) {
        assert InputKey(a)[6 + i] == InputKey(b)[6 + i];
      }
    }
    if |a| == |b| && forall i :: 0 <= i < |a| ==> KeyChar(a[i]) == KeyChar(b[i]) {
      assert Upper(ReplaceChar(a, '-', '_')) == Upper(ReplaceChar(b, '-', '_'));
    }
  }

  /** The environment value the lookup sees for `name`. */
  function InputValue(env: Env, name: string): Option<string> {
    var key := InputKey(name);
    if key in env then Some(env[key]) else None
  }

  /** The message of the error a missing required input throws. */
  function MissingInputMessage(name: string): string {
    "Input required and not supplied: " + name
  }

  /**
   * The local `core.getInput(name, { required })`: a required input that is missing or
   * empty throws `Input required and not supplied: <name>`; otherwise the value, or `''`.
   */
  function GetInput(env: Env, name: string, required: bool): (r: Result<string, string>)
    ensures r.Err? <==> required && !Truthy(InputValue(env, name))
    ensures r.Err? ==> r.error == MissingInputMessage(name)
    ensures r.Ok? ==> r.value == (if Truthy(InputValue(env, name)) then InputValue(env, name).value else "")
  {
    var v := InputValue(env, name);
    if required && !Truthy(v) then Err(MissingInputMessage(name))
    else Ok(if Truthy(v) then v.value else "")
  }

  // ---------------------------------------------------------------------------
  // Command-line values take precedence over the environment
  // ---------------------------------------------------------------------------

  const TargetRepositoryKey := "INPUT_TARGET_REPOSITORY"
  const DaysToCheckKey := "INPUT_DAYS_TO_CHECK"
  const OutputFileKey := "INPUT_OUTPUT_FILE"
  const OutputFormatKey := "INPUT_OUTPUT_FORMAT"

  /** `if (v) env[key] = v`: a truthy value replaces the variable; otherwise nothing changes. */
  function Override(env: Env, key: string, v: Option<string>): (r: Env)
    ensures Truthy(v) ==> key in r && r[key] == v.value
    ensures !Truthy(v) ==> r == env
    ensures forall k :: k != key ==> (k in r <==> k in env) && (k in env ==> r[k] == env[k])
  {
    if Truthy(v) then env[key := v.value] else env
  }

  /** After precedence, `key` holds the command-line value when that is truthy, else what `env` had there. */
  predicate Prevails(r: Env, env: Env, key: string, v: Option<string>) {
    if Truthy(v) then key in r && r[key] == v.value
    else (key in r <==> key in env) && (key in env ==> r[key] == env[key])
  }

  /**
   * The environment after the four precedence assignments, in source order: each of the four
   * variables holds its truthy command-line value or keeps its old state, and every other
   * variable is untouched.
   */
  function WithCliArgs(env: Env, cli: CliArgs): (r: Env)
    ensures Prevails(r, env, TargetRepositoryKey, cli.targetRepository)
    ensures Prevails(r, env, DaysToCheckKey, cli.daysToCheck)
    ensures Prevails(r, env, OutputFileKey, cli.outputFile)
    ensures Prevails(r, env, OutputFormatKey, cli.outputFormat)
    ensures forall k :: k !in {TargetRepositoryKey, DaysToCheckKey, OutputFileKey, OutputFormatKey} ==>
      (k in r <==> k in env) && (k in env ==> r[k] == env[k])
  {
    var e1 := Override(env, TargetRepositoryKey, cli.targetRepository);
    var e2 := Override(e1, DaysToCheckKey, cli.daysToCheck);
    var e3 := Override(e2, OutputFileKey, cli.outputFile);
    Override(e3, OutputFormatKey, cli.outputFormat)
  }

  /** The value the lookup sees after precedence: the command-line value when truthy, else the environment's. */
  function Prevailing(cli: Option<string>, env: Env, name: string): Option<string> {
    if Truthy(cli) then cli else InputValue(env, name)
  }

  /**
   * After the precedence assignments, each input `main` reads resolves to its command-line
   * value when that is non-null and non-empty, and to the untouched environment value
   * otherwise; variables other than the four are left alone.
   */
  lemma CliOverridesEnv(env: Env, cli: CliArgs)
    ensures var e := WithCliArgs(env, cli);
      && InputValue(e, TargetRepositoryInput) == Prevailing(cli.targetRepository, env, TargetRepositoryInput)
      && InputValue(e, DaysToCheckInput) == Prevailing(cli.daysToCheck, env, DaysToCheckInput)
      && InputValue(e, OutputFileInput) == Prevailing(cli.outputFile, env, OutputFileInput)
      && InputValue(e, OutputFormatInput) == Prevailing(cli.outputFormat, env, OutputFormatInput)
      && forall k :: k !in {TargetRepositoryKey, DaysToCheckKey, OutputFileKey, OutputFormatKey} ==>
           (k in e <==> k in env) && (k in env ==> e[k] == env[k])
  {
    MainInputKeys();
    var e1 := Override(env, TargetRepositoryKey, cli.targetRepository);
    var e2 := Override(e1, DaysToCheckKey, cli.daysToCheck);
    var e3 := Override(e2, OutputFileKey, cli.outputFile);
    var e := Override(e3, OutputFormatKey, cli.outputFormat);
    assert InputValue(e1, TargetRepositoryInput) == Prevailing(cli.targetRepository, env, TargetRepositoryInput);
    assert InputValue(e2, DaysToCheckInput) == Prevailing(cli.daysToCheck, env, DaysToCheckInput);
    assert InputValue(e3, OutputFileInput) == Prevailing(cli.outputFile, env, OutputFileInput);
  }

  /** The variables the precedence assignments write are exactly the ones `main`'s inputs read. */
  lemma MainInputKeys()
    ensures InputKey(TargetRepositoryInput) == TargetRepositoryKey
    ensures InputKey(DaysToCheckInput) == DaysToCheckKey
    ensures InputKey(OutputFileInput) == OutputFileKey
    ensures InputKey(OutputFormatInput) == OutputFormatKey
  {
    TargetRepositoryInputKey();
    DaysToCheckInputKey();
    OutputFileInputKey();
    OutputFormatInputKey();
  }

  lemma TargetRepositoryInputKey()
    ensures InputKey(TargetRepositoryInput) == TargetRepositoryKey
  {
    InputKeyOf(TargetRepositoryInput, TargetRepositoryKey);
  }

  lemma DaysToCheckInputKey()
    ensures InputKey(DaysToCheckInput) == DaysToCheckKey
  {
    InputKeyOf(DaysToCheckInput, DaysToCheckKey);
  }

  lemma OutputFileInputKey()
    ensures InputKey(OutputFileInput) == OutputFileKey
  {
    InputKeyOf(OutputFileInput, OutputFileKey);
  }

  lemma OutputFormatInputKey()
    ensures InputKey(OutputFormatInput) == OutputFormatKey
  {
    InputKeyOf(OutputFormatInput, OutputFormatKey);
  }

  /** A key is the input key of a name when it is `INPUT_` followed by the name's characters, normalised one by one. */
  lemma InputKeyOf(name: string, key: string)
    requires |key| == 6 + |name| && key[..6] == "INPUT_"
    requires forall i :: 0 <= i < |name| ==> key[6 + i] == KeyChar(name[i])
    ensures InputKey(name) == key
  {
    var k := InputKey(name);
    forall i | 0 <= i < |k| ensures k[i] == key[i] {
      if i >= 6 {
        assert k[i] == KeyChar(name[i - 6]);
      } else {
        assert k[i] == "INPUT_"[i] == key[..6][i];
      }
    }
  }

  /** `process.env`, which the startup code writes in place. */
  class ProcessEnv {
    var vars: Env

    constructor (initial: Env)
      ensures vars == initial
    {
      vars := initial;
    }

    /** One precedence assignment: `if (cli) process.env[key] = cli`. */
    method Prioritize(key: string, cli: Option<string>)
      modifies this
      ensures vars == Override(old(vars), key, cli)
    {
      if Truthy(cli) {
        vars := vars[key := cli.value];
      }
    }

    /** The four precedence assignments, in source order. */
    method ApplyCliArgs(cli: CliArgs)
      modifies this
      ensures vars == WithCliArgs(old(vars), cli)
    {
      Prioritize(TargetRepositoryKey, cli.targetRepository);
      Prioritize(DaysToCheckKey, cli.daysToCheck);
      Prioritize(OutputFileKey, cli.outputFile);
      Prioritize(OutputFormatKey, cli.outputFormat);
    }

    /**
     * A local run: read the options from the arguments, let them take precedence in the
     * environment, then resolve the inputs as `main` does.
     */
    method Launch(args: seq<string>) returns (r: Result<Config, string>)
      modifies this
      ensures vars == WithCliArgs(old(vars), ReadCliArgs(args))
      ensures r == ResolveInputs(vars)
    {
      ApplyCliArgs(ReadCliArgs(args));
      r := ResolveInputs(vars);
    }
  }

  // ---------------------------------------------------------------------------
  // Inputs of `main`
  // ---------------------------------------------------------------------------

  const TargetRepositoryInput := "target_repository"
  const DaysToCheckInput := "days_to_check"
  const OutputFileInput := "output_file"
  const OutputFormatInput := "output_format"

  const InvalidRepositoryMessage := "Invalid target_repository format. It should be \"owner/repo\""

  /** An `owner/repo` pair. */
  datatype Repository = Repository(owner: string, name: string)

  /**
   * The `owner/repo` check and destructuring split: text without `/` is rejected; otherwise
   * the owner and the repository are the first two `/`-separated fields.
   */
  function ParseRepository(s: string): (r: Result<Repository, string>)
    ensures r.Err? <==> '/' !in s
    ensures r.Err? ==> r.error == InvalidRepositoryMessage
  {
    if '/' !in s then Err(InvalidRepositoryMessage)
    else
      SplitHasSecondField(s, '/');
      var fields := Split(s, '/');
      Ok(Repository(fields[0], fields[1]))
  }

  /**
   * A valid repository string is `owner/name` followed by nothing or by further
   * `/`-separated segments, which are ignored; neither part contains `/`.
   */
  lemma ParseRepositoryParts(s: string)
    requires '/' in s
    ensures var p := ParseRepository(s).value;
      '/' !in p.owner && '/' !in p.name
      && p.owner + "/" + p.name <= s
      && (|p.owner| + 1 + |p.name| == |s| || s[|p.owner| + 1 + |p.name|] == '/')
  {
    ParseRepositoryFields(s);
    BeforeTwice(s, '/');
  }

  /** The owner is the text before the first `/`, the name the text between it and the next `/`. */
  lemma ParseRepositoryFields(s: string)
    requires '/' in s
    ensures |Before(s, '/')| < |s|
    ensures ParseRepository(s) == Ok(Repository(Before(s, '/'), Before(s[|Before(s, '/')| + 1..], '/')))
  {
    SplitHead(s, '/');
    SplitHead(s[|Before(s, '/')| + 1..], '/');
  }

  /** The inputs of a run, as `main` resolves them; `daysToCheck` is `None` when parsing gives `NaN`. */
  datatype Config = Config(
    targetRepository: string,
    daysToCheck: Option<int>,
    outputFile: string,
    outputFormat: string,
    owner: string,
    repo: string)

  /**
   * The opening of `main`: the required target repository, the day count (default `'1'`
   * before parsing), the required output file, the format (default `'markdown'`), then the
   * repository check. The first error thrown becomes the run's failure message. It succeeds
   * exactly when both required inputs are non-empty and the target contains `/`.
   */
  function ResolveInputs(env: Env): (r: Result<Config, string>)
    ensures r.Ok? <==> Truthy(InputValue(env, TargetRepositoryInput)) && Truthy(InputValue(env, OutputFileInput))
                       && '/' in InputValue(env, TargetRepositoryInput).value
  {
    var target := GetInput(env, TargetRepositoryInput, true);
    if target.Err? then Err(target.error)
    else
      var days := ParseInt(OrDefault(GetInput(env, DaysToCheckInput, false).value, "1"));
      var file := GetInput(env, OutputFileInput, true);
      if file.Err? then Err(file.error)
      else
        var format := OrDefault(GetInput(env, OutputFormatInput, false).value, "markdown");
        match ParseRepository(target.value)
        case Err(e) => Err(e)
        case Ok(repo) => Ok(Config(target.value, days, file.value, format, repo.owner, repo.name))
  }

  /**
   * The errors of `main`'s opening, in the order it meets them: a missing target repository,
   * then a missing output file, then a target without `/`; otherwise it succeeds.
   */
  lemma ResolveInputsErrors(env: Env)
    ensures !Truthy(InputValue(env, TargetRepositoryInput)) ==>
      ResolveInputs(env) == Err(MissingInputMessage(TargetRepositoryInput))
    ensures Truthy(InputValue(env, TargetRepositoryInput)) && !Truthy(InputValue(env, OutputFileInput)) ==>
      ResolveInputs(env) == Err(MissingInputMessage(OutputFileInput))
    ensures Truthy(InputValue(env, TargetRepositoryInput)) && Truthy(InputValue(env, OutputFileInput)) ==>
      (ResolveInputs(env).Err? <==> '/' !in InputValue(env, TargetRepositoryInput).value)
    ensures ResolveInputs(env).Err? ==>
      (ResolveInputs(env).error in
        {MissingInputMessage(TargetRepositoryInput),
         MissingInputMessage(OutputFileInput),
         InvalidRepositoryMessage})
  {
  }

  /**
   * A successful resolution carries the inputs as read, the day count parsed from `'1'` when
   * that input is missing or empty, and `'markdown'` when the format is missing or empty.
   */
  lemma ResolveInputsDefaults(env: Env)
    requires ResolveInputs(env).Ok?
    ensures var c := ResolveInputs(env).value;
      && c.targetRepository == InputValue(env, TargetRepositoryInput).value
      && c.outputFile == InputValue(env, OutputFileInput).value
      && (!Truthy(InputValue(env, DaysToCheckInput)) ==> c.daysToCheck == Some(1))
      && (Truthy(InputValue(env, DaysToCheckInput)) ==> c.daysToCheck == ParseInt(InputValue(env, DaysToCheckInput).value))
      && (!Truthy(InputValue(env, OutputFormatInput)) ==> c.outputFormat == "markdown")
      && (Truthy(InputValue(env, OutputFormatInput)) ==> c.outputFormat == InputValue(env, OutputFormatInput).value)
      && c.owner + "/" + c.repo <= c.targetRepository
      && |c.owner| < |c.targetRepository|
      && c.owner == Before(c.targetRepository, '/')
      && c.repo == Before(c.targetRepository[|c.owner| + 1..], '/')
  {
    ParseIntRendered(1, "");
    assert NatToString(1) == "1";
    ParseRepositoryParts(InputValue(env, TargetRepositoryInput).value);
    ParseRepositoryFields(InputValue(env, TargetRepositoryInput).value);
  }
}
