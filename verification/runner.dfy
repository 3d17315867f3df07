/**
 * The `run` command of the tracer's command-line runner: validating the
 * command line, parsing `KEY=VALUE` environment variables, building the
 * child process's environment, and composing its argument string, with the
 * coverage collector added for `dotnet test` / `dotnet vstest` in CI mode.
 *
 * Starting the process, probing the agent and computing the profiler's own
 * variables are foreign; their results are inputs.
 */
module Runner {
  import opened Wrappers
  import Text

  datatype Validation = Valid | Error(message: string)

  /** `Validate`: a command is required and every extra variable must contain '='. */
  function Validate(args: seq<string>, additionalEnvironment: Option<seq<string>>): (r: Validation)
    ensures |args| == 0 ==> r == Error("Missing command")
    ensures r == Valid <==> |args| > 0 && (additionalEnvironment.Some? ==> forall i :: 0 <= i < |additionalEnvironment.value| ==> '=' in additionalEnvironment.value[i])
    ensures r.Error? && |args| > 0 ==>
              exists i :: 0 <= i < |additionalEnvironment.value| && '=' !in additionalEnvironment.value[i]
                          && r.message == "Badly formatted environment variable: " + additionalEnvironment.value[i]
                          && forall j :: 0 <= j < i ==> '=' in additionalEnvironment.value[j]
  {
    if |args| == 0 then Error("Missing command")
    else if additionalEnvironment.None? then Valid
    else FirstMalformed(additionalEnvironment.value)
  }

  /** The error for the first variable without '=', if any. */
  function FirstMalformed(envs: seq<string>): (r: Validation)
    ensures r == Valid <==> forall i :: 0 <= i < |envs| ==> '=' in envs[i]
    ensures r.Error? ==> exists i :: 0 <= i < |envs| && '=' !in envs[i] && r.message == "Badly formatted environment variable: " + envs[i]
                                     && forall j :: 0 <= j < i ==> '=' in envs[j]
  {
    if |envs| == 0 then Valid
    else if '=' !in envs[0] then Error("Badly formatted environment variable: " + envs[0])
    else
      var r := FirstMalformed(envs[1..]);
      assert forall i :: 1 <= i < |envs| ==> envs[i] == envs[1..][i - 1];
      r
  }

  /** The index of the first '=' in a string. */
  function FirstEquals(s: string): (i: nat)
    requires '=' in s
    ensures i < |s| && s[i] == '=' && '=' !in s[..i]
  {
    if s[0] == '=' then 0 else
      var i := 1 + FirstEquals(s[1..]);
      assert s[..i] == [s[0]] + s[1..][..i - 1];
      i
  }

  /** `ParseEnvironmentVariable`: `Split('=', 2)`, so the value keeps any further '='. */
  function ParseEnvironmentVariable(env: string): (kv: (string, string))
    requires '=' in env
    ensures '=' !in kv.0
    ensures kv.0 + "=" + kv.1 == env
  {
    var i := FirstEquals(env);
    assert env == env[..i] + "=" + env[i + 1..];
    (env[..i], env[i + 1..])
  }

  /** The first '=' is the one after a prefix without '='. */
  lemma {:induction false} FirstEqualsAt(s: string, i: nat)
    requires i < |s| && s[i] == '=' && '=' !in s[..i]
    ensures FirstEquals(s) == i
  {
    if i > 0 {
      assert s[0] == s[..i][0];
      assert s[1..][..i - 1] == s[1..i];
      assert forall c :: c in s[1..i] ==> c in s[..i];
      FirstEqualsAt(s[1..], i - 1);
    }
  }

  /** Any string without '=' joined to any value splits back into the same pair. */
  lemma ParseEnvironmentVariableRoundTrip(key: string, value: string)
    requires '=' !in key
    ensures ParseEnvironmentVariable(key + "=" + value) == (key, value)
  {
    var env := key + "=" + value;
    assert env[..|key|] == key;
    FirstEqualsAt(env, |key|);
    assert env[|key| + 1..] == value;
  }

  /** The variables applied one after another, later ones overwriting earlier ones. */
  function ApplyVariables(environment: map<string, string>, envs: seq<string>): (r: map<string, string>)
    requires forall i :: 0 <= i < |envs| ==> '=' in envs[i]
    decreases |envs|
  {
    if |envs| == 0 then environment
    else
      var kv := ParseEnvironmentVariable(envs[|envs| - 1]);
      ApplyVariables(environment, envs[..|envs| - 1])[kv.0 := kv.1]
  }

  /** After applying, a key set by some variable has the value of the last variable that sets it. */
  lemma {:induction false} LastVariableWins(environment: map<string, string>, envs: seq<string>, key: string, i: nat)
    requires forall k :: 0 <= k < |envs| ==> '=' in envs[k]
    requires i < |envs| && ParseEnvironmentVariable(envs[i]).0 == key
    requires forall j :: i < j < |envs| ==> ParseEnvironmentVariable(envs[j]).0 != key
    ensures var r := ApplyVariables(environment, envs);
            key in r && r[key] == ParseEnvironmentVariable(envs[i]).1
    decreases |envs|
  {
    if i < |envs| - 1 {
      var front := envs[..|envs| - 1];
      assert forall k :: 0 <= k < |front| ==> front[k] == envs[k];
      LastVariableWins(environment, front, key, i);
    }
  }

  /** A key no variable sets keeps its earlier value, or stays absent. */
  lemma {:induction false} UnsetKeysKept(environment: map<string, string>, envs: seq<string>, key: string)
    requires forall k :: 0 <= k < |envs| ==> '=' in envs[k]
    requires forall k :: 0 <= k < |envs| ==> ParseEnvironmentVariable(envs[k]).0 != key
    ensures var r := ApplyVariables(environment, envs);
            (key in r <==> key in environment) && (key in r ==> r[key] == environment[key])
    decreases |envs|
  {
    if |envs| > 0 {
      var front := envs[..|envs| - 1];
      assert forall k :: 0 <= k < |front| ==> front[k] == envs[k];
      UnsetKeysKept(environment, front, key);
    }
  }

  const CoverageCollectorArgument := " --collect DatadogCoverage -a \""
  const VsTestCollectorArgument := " /Collect:DatadogCoverage /TestAdapterPath:\""

  predicate IsCollectArgument(arg: string) {
    Text.StartsWithIgnoreCase(arg, "--collect ") || Text.StartsWithIgnoreCase(arg, "/Collect:")
  }

  predicate IsTest(arg: string) {
    Text.EqualsIgnoreCase(arg, "test")
  }

  predicate IsVsTest(arg: string) {
    Text.EqualsIgnoreCase(arg, "vstest")
  }

  /** Some argument satisfies the test. */
  predicate AnyArgument(args: seq<string>, test: string -> bool) {
    exists i :: 0 <= i < |args| && test(args[i])
  }

  /**
   * The argument string: the arguments after the program joined by spaces
   * (`None` for a bare program), with the Datadog collector appended for a
   * CI run of `dotnet test` or `dotnet vstest` that configures no collector.
   */
  function Arguments(args: seq<string>, ciMode: bool, collectorDirectory: string): (r: Option<string>)
    requires |args| > 0
  {
    var joined := if |args| > 1 then Some(Text.Join(' ', args[1..])) else None;
    var rest := args[1..];
    if ciMode && Text.EqualsIgnoreCase(args[0], "dotnet") && !AnyArgument(rest, IsCollectArgument) then
      if AnyArgument(rest, IsTest) then
        Some(joined.GetOr("") + CoverageCollectorArgument + collectorDirectory + "\"")
      else if AnyArgument(rest, IsVsTest) then
        Some(joined.GetOr("") + VsTestCollectorArgument + collectorDirectory + "\"")
      else joined
    else joined
  }

  /** What the runner does: exit early with a code, or start the program. */
  datatype Outcome = Exit(code: int) | Run(program: string, arguments: Option<string>, environment: map<string, string>)

  /**
   * `Execute`. `profilerEnvironment` is the profiler's variables (`None` when
   * they cannot be computed) and `agentReachable` the CI-mode agent probe.
   */
  function Execute(args: seq<string>, additionalEnvironment: Option<seq<string>>, ciMode: bool,
                   profilerEnvironment: Option<map<string, string>>, civisibilityKey: string,
                   agentReachable: bool, collectorDirectory: string): (r: Outcome)
    requires Validate(args, additionalEnvironment) == Valid
    ensures profilerEnvironment.None? ==> r == Exit(1)
    ensures profilerEnvironment.Some? && ciMode && !agentReachable ==> r == Exit(1)
    ensures profilerEnvironment.Some? && (!ciMode || agentReachable) ==> r.Run?
    ensures r.Run? ==> r.program == args[0] && r.arguments == Arguments(args, ciMode, collectorDirectory)
    ensures r.Run? ==> r.environment == ApplyVariables(
              if ciMode then profilerEnvironment.value[civisibilityKey := "1"] else profilerEnvironment.value,
              additionalEnvironment.GetOr([]))
  {
    if profilerEnvironment.None? then Exit(1)
    else
      var base := if ciMode then profilerEnvironment.value[civisibilityKey := "1"] else profilerEnvironment.value;
      var environment := ApplyVariables(base, additionalEnvironment.GetOr([]));
      if ciMode && !agentReachable then Exit(1)
      else Run(args[0], Arguments(args, ciMode, collectorDirectory), environment)
  }

  /** An explicit variable overrides the CI-visibility switch the runner sets. */
  lemma AdditionalVariablesOverrideCiFlag(args: seq<string>, profilerEnvironment: map<string, string>, civisibilityKey: string,
                                          value: string, collectorDirectory: string)
    requires '=' !in civisibilityKey && |args| > 0
    ensures var envs := [civisibilityKey + "=" + value];
            var r := Execute(args, Some(envs), true, Some(profilerEnvironment), civisibilityKey, true, collectorDirectory);
            r.Run? && civisibilityKey in r.environment && r.environment[civisibilityKey] == value
  {
    var envs := [civisibilityKey + "=" + value];
    assert '=' in envs[0] by { assert envs[0][|civisibilityKey|] == '='; }
    ParseEnvironmentVariableRoundTrip(civisibilityKey, value);
    LastVariableWins(profilerEnvironment[civisibilityKey := "1"], envs, civisibilityKey, 0);
  }

  /** Outside CI mode, or with a collector already configured, the arguments are passed through. */
  lemma ArgumentsPassThrough(args: seq<string>, ciMode: bool, collectorDirectory: string)
    requires |args| > 1
    requires !ciMode || AnyArgument(args[1..], IsCollectArgument)
    ensures Arguments(args, ciMode, collectorDirectory) == Some(Text.Join(' ', args[1..]))
  {
  }

  /** `dotnet test` in CI mode gets the collector, and `test` wins over `vstest`. */
  lemma DotnetTestGetsCollector(rest: seq<string>, collectorDirectory: string)
    requires "test" in rest && !AnyArgument(rest, IsCollectArgument)
    ensures Arguments(["dotnet"] + rest, true, collectorDirectory)
         == Some(Text.Join(' ', rest) + CoverageCollectorArgument + collectorDirectory + "\"")
  {
    var args := ["dotnet"] + rest;
    assert args[1..] == rest;
    var i :| 0 <= i < |rest| && rest[i] == "test";
    assert IsTest(rest[i]);
    assert AnyArgument(args[1..], IsTest);
    assert |args| > 1;
    assert Text.EqualsIgnoreCase(args[0], "dotnet");
  }
}
