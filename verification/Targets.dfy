/** What a supervisor unit's command line supervises (crates/config/src/service_unit.rs). */
module Targets {
  import opened Text

  datatype Supervises = All | Config(path: string)

  const MACHINE_LABEL: string := "sh.toolu.runner"

  /** What a registration's unit is rendered from; `out` and `err` are its two log files. */
  datatype ServiceSpec = ServiceSpec(
    name: string, exe: string, config: string, out: string, err: string, envPath: string, workDir: string)

  /** What the machine's own unit is rendered from. */
  datatype MachineSpec = MachineSpec(
    exe: string, home: Option<string>, out: string, err: string, envPath: string, workDir: string)

  const RUN: string := "run"
  const ALL_FLAG: string := "--all"
  const CONFIG_FLAG: string := "--config"
  const CONFIG_EQ: string := "--config="

  /** The first `--config <path>` or `--config=<path>` among the arguments. */
  function ConfigFrom(rest: seq<string>): Option<Supervises> {
    if rest == [] then None
    else if rest[0] == CONFIG_FLAG then
      if |rest| > 1 then Some(Config(rest[1])) else None
    else if CONFIG_EQ <= rest[0] then Some(Config(rest[0][|CONFIG_EQ|..]))
    else ConfigFrom(rest[1..])
  }

  /** The arguments after the first `run`. */
  function AfterRun(args: seq<string>): Option<seq<string>> {
    if args == [] then None
    else if args[0] == RUN then Some(args[1..])
    else AfterRun(args[1..])
  }

  function TargetFromArgs(args: seq<string>): Option<Supervises> {
    match AfterRun(args)
    case None => None
    case Some(rest) => if ALL_FLAG in rest then Some(All) else ConfigFrom(rest)
  }

  predicate Absolute(path: string) {
    path != [] && path[0] == '/'
  }

  lemma RunStopsAt(exe: string, rest: seq<string>)
    requires exe != RUN
    ensures AfterRun([exe, RUN] + rest) == Some(rest)
  {
  }

  lemma {:induction false} RunIsFound(before: seq<string>, rest: seq<string>)
    requires "run" !in before
    ensures AfterRun(before + (["run"] + rest)) == Some(rest)
    decreases |before|
  {
    var args := before + (["run"] + rest);
    if before == [] {
      assert args == ["run"] + rest && args[1..] == rest;
    } else {
      assert args[0] == before[0] && args[1..] == before[1..] + (["run"] + rest);
      RunIsFound(before[1..], rest);
    }
  }

  /** Neither form of the configuration option. */
  predicate IsOther(arg: string) {
    arg != "--config" && !("--config=" <= arg)
  }

  lemma {:induction false} ConfigIsFound(others: seq<string>, option: string, more: seq<string>)
    requires forall i :: 0 <= i < |others| ==> IsOther(others[i])
    ensures option == "--config" ==>
              ConfigFrom(others + ([option] + more)) == if more == [] then None else Some(Config(more[0]))
    ensures "--config=" <= option ==>
              ConfigFrom(others + ([option] + more)) == Some(Config(option[|"--config="|..]))
    decreases |others|
  {
    var rest := others + ([option] + more);
    if others == [] {
      assert rest == [option] + more && |"--config="| == 9 && |"--config"| == 8;
    } else {
      assert rest[0] == others[0] && rest[1..] == others[1..] + ([option] + more);
      ConfigIsFound(others[1..], option, more);
    }
  }

  lemma {:induction false} NoConfig(others: seq<string>)
    requires forall i :: 0 <= i < |others| ==> IsOther(others[i])
    ensures ConfigFrom(others) == None
  {
    if others != [] {
      NoConfig(others[1..]);
    }
  }

  /** After the first `run`: everything if `--all` stands anywhere, else what the first configuration option names. */
  lemma TargetMeaning(before: seq<string>, others: seq<string>, option: string, more: seq<string>)
    requires "run" !in before && forall i :: 0 <= i < |others| ==> IsOther(others[i])
    ensures var rest := others + ([option] + more);
            var target := TargetFromArgs(before + (["run"] + rest));
            && ("--all" in rest ==> target == Some(All))
            && ("--all" !in rest && option == "--config" ==>
                  target == if more == [] then None else Some(Config(more[0])))
            && ("--all" !in rest && "--config=" <= option ==> target == Some(Config(option[|"--config="|..])))
    ensures "--all" !in others ==> TargetFromArgs(before + (["run"] + others)) == None
    ensures TargetFromArgs(before) == None
  {
    RunIsFound(before, others + ([option] + more));
    ConfigIsFound(others, option, more);
    RunIsFound(before, others);
    NoConfig(others);
    NoRun(before);
  }

  lemma {:induction false} NoRun(args: seq<string>)
    requires "run" !in args
    ensures AfterRun(args) == None
  {
    if args != [] {
      NoRun(args[1..]);
    }
  }

  /** The renderers' own command lines name their own target. */
  lemma TargetOfConfigArgs(exe: string, config: string)
    requires Absolute(exe) && Absolute(config)
    ensures TargetFromArgs([exe, RUN, CONFIG_FLAG, config]) == Some(Config(config))
  {
    var rest := [CONFIG_FLAG, config];
    RunStopsAt(exe, rest);
    assert [exe, RUN] + rest == [exe, RUN, CONFIG_FLAG, config];
    assert |CONFIG_FLAG| != |ALL_FLAG|;
    assert rest[0] != ALL_FLAG && rest[1] != ALL_FLAG;
  }

  lemma TargetOfAllArgs(exe: string)
    requires Absolute(exe)
    ensures TargetFromArgs([exe, RUN, ALL_FLAG]) == Some(All)
  {
    RunStopsAt(exe, [ALL_FLAG]);
    assert [exe, RUN] + [ALL_FLAG] == [exe, RUN, ALL_FLAG];
    assert [ALL_FLAG][0] == ALL_FLAG;
  }
}
